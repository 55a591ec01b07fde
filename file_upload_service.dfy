/** The upload service (`uploadFile`, `checkFileUploadLimit`).

    An upload is stored under `userId/timestamp_name`, where every character of the name
    outside `[A-Za-z0-9._-]` is replaced by '_'. The replacement works on UTF-16 code
    units, so a character outside the Basic Multilingual Plane becomes two '_'. The
    bucket check, the storage upload and the table insert are outcomes given as
    parameters, and so is the clock. */
module FileUploadService {
  import opened Wrappers
  import opened Text
  import opened Files
  import opened PageCalculator
  import AppConfig

  const UnknownErrorMessage: string := "Unknown error occurred"

  /** The `catch`'s message: the error's own message when the thrown value is an `Error`,
      the fixed fallback otherwise. */
  function CaughtMessage(failure: StorageOutcome): (message: string)
    requires failure.StorageError?
    ensures failure.isError ==> message == failure.message
    ensures !failure.isError ==> message == UnknownErrorMessage
  {
    if failure.isError then failure.message else UnknownErrorMessage
  }

  /** The characters the name keeps: `[a-zA-Z0-9._-]`. */
  predicate IsAllowed(c: char) {
    || ('a' as int <= c as int <= 'z' as int)
    || ('A' as int <= c as int <= 'Z' as int)
    || ('0' as int <= c as int <= '9' as int)
    || c == '.' || c == '_' || c == '-'
  }

  /** What the replacement makes of one character: itself when allowed, otherwise one '_'
      per UTF-16 code unit. */
  function SanitizeChar(c: char): (r: string)
    ensures |r| == CodeUnits(c)
  {
    if IsAllowed(c) then [c] else if c as int > 0xFFFF then "__" else "_"
  }

  /** `name.replace(/[^a-zA-Z0-9._-]/g, '_')`. */
  function Sanitize(name: string): (r: string)
    ensures |r| == Utf16Length(name)
    ensures forall i :: 0 <= i < |r| ==> IsAllowed(r[i])
  {
    if name == [] then [] else SanitizeChar(name[0]) + Sanitize(name[1..])
  }

  /** The replacement works character by character. */
  lemma {:induction false} SanitizeAppend(a: string, b: string)
    ensures Sanitize(a + b) == Sanitize(a) + Sanitize(b)
  {
    if a == [] {
      assert a + b == b;
    } else {
      assert (a + b)[0] == a[0];
      assert (a + b)[1..] == a[1..] + b;
      SanitizeAppend(a[1..], b);
    }
  }

  /** A name made only of allowed characters is left as it is. */
  lemma {:induction false} SanitizeKeepsAllowedName(name: string)
    requires forall i :: 0 <= i < |name| ==> IsAllowed(name[i])
    ensures Sanitize(name) == name
  {
    if name != [] {
      SanitizeKeepsAllowedName(name[1..]);
    }
  }

  /** Sanitising twice is sanitising once. */
  lemma SanitizeIdempotent(name: string)
    ensures Sanitize(Sanitize(name)) == Sanitize(name)
  {
    SanitizeKeepsAllowedName(Sanitize(name));
  }

  /** An allowed character stays at its position, counted in UTF-16 code units, and any
      other character turns into '_' there. */
  lemma SanitizeKeepsPositions(name: string, i: nat)
    requires i < |name|
    ensures var at := Utf16Length(name[..i]);
      at < |Sanitize(name)| &&
      Sanitize(name)[at] == if IsAllowed(name[i]) then name[i] else '_'
  {
    assert name == name[..i] + name[i..];
    SanitizeAppend(name[..i], name[i..]);
    Utf16LengthAppend(name[..i], name[i..]);
    assert Sanitize(name[i..])[0] == SanitizeChar(name[i])[0];
  }

  /** `userId/timestamp_sanitisedName`. */
  function UploadPath(userId: string, timestamp: nat, name: string): string {
    userId + "/" + NatToString(timestamp) + "_" + Sanitize(name)
  }

  /** Neither the timestamp's digits nor the sanitised name hold a '/'. */
  lemma NoSlashAfterUser(timestamp: nat, name: string)
    ensures '/' !in Sanitize(name)
    ensures '/' !in NatToString(timestamp) + "_" + Sanitize(name)
  {
    var digits := NatToString(timestamp);
    var rest := digits + "_" + Sanitize(name);
    forall k | 0 <= k < |rest|
      ensures rest[k] != '/'
    {
      if k < |digits| {
        assert rest[k] == digits[k];
      } else if k > |digits| {
        assert rest[k] == Sanitize(name)[k - |digits| - 1];
      }
    }
  }

  /** The sanitised name holds no '/', so for a user id without '/' the key has exactly
      two segments: the user id, and the timestamp and name. */
  lemma UploadPathSegments(userId: string, timestamp: nat, name: string)
    requires '/' !in userId
    ensures '/' !in Sanitize(name)
    ensures IndexOf(UploadPath(userId, timestamp, name), '/') == |userId|
    ensures UploadPath(userId, timestamp, name)[..|userId|] == userId
    ensures '/' !in UploadPath(userId, timestamp, name)[|userId| + 1..]
    ensures UploadPath(userId, timestamp, name)[|userId| + 1..] == NatToString(timestamp) + "_" + Sanitize(name)
  {
    var rest := NatToString(timestamp) + "_" + Sanitize(name);
    var path := UploadPath(userId, timestamp, name);
    assert path == userId + ['/'] + rest;
    NoSlashAfterUser(timestamp, name);
    IndexOfAfterPrefix(userId, '/', rest);
    assert path[..|userId|] == userId;
    assert path[|userId| + 1..] == rest;
  }

  /** The answer `{ success, fileUrl?, pageCount?, error? }`. */
  datatype UploadResponse = UploadResponse(success: bool, fileUrl: Option<string>, pageCount: Option<nat>, error: Option<string>)

  /** What an upload did: the storage key written, the row inserted, and the answer. */
  datatype UploadEffects = UploadEffects(storedAt: Option<string>, inserted: Option<FileRecord>, response: UploadResponse)

  function FailedUpload(message: string): UploadResponse {
    UploadResponse(false, None, None, Some(message))
  }

  /** `uploadFile`: the bucket check, the upload and the insert, each of which may fail;
      the first failure becomes the answer's error message. */
  function UploadFile(file: BrowserFile, userId: string, timestamp: nat, bucket: StorageOutcome,
                      upload: StorageOutcome, publicUrlOf: string -> string, read: ReadOutcome,
                      insert: StorageOutcome): UploadEffects
  {
    var path := UploadPath(userId, timestamp, file.name);
    if bucket.StorageError? then UploadEffects(None, None, FailedUpload(CaughtMessage(bucket)))
    else if upload.StorageError? then UploadEffects(None, None, FailedUpload(CaughtMessage(upload)))
    else
      var url := publicUrlOf(path);
      var pages := CalculatePages(file, read);
      var row := FileRecord(file.name, file.size, url, pages, userId, UploadedStatus);
      if insert.StorageError? then UploadEffects(Some(path), None, FailedUpload(CaughtMessage(insert)))
      else UploadEffects(Some(path), Some(row), UploadResponse(true, Some(url), Some(pages), None))
  }

  /** An upload succeeds exactly when all three steps do. Then the file is stored under its
      sanitised key, the row belongs to the user with status 'uploaded' and the public URL
      of that key, and the answer repeats that URL and a page count of at least one.
      Otherwise the answer carries the first failing step's message and no row exists. */
  lemma UploadFileSpec(file: BrowserFile, userId: string, timestamp: nat, bucket: StorageOutcome,
                       upload: StorageOutcome, publicUrlOf: string -> string, read: ReadOutcome,
                       insert: StorageOutcome)
    ensures var e := UploadFile(file, userId, timestamp, bucket, upload, publicUrlOf, read, insert);
      && (e.response.success <==> bucket.StorageOk? && upload.StorageOk? && insert.StorageOk?)
      && (e.inserted.Some? <==> e.response.success)
      && (e.storedAt.Some? <==> bucket.StorageOk? && upload.StorageOk?)
      && (e.storedAt.Some? ==> e.storedAt.value == UploadPath(userId, timestamp, file.name))
      && (e.response.success ==>
            && e.inserted.value.userId == userId
            && e.inserted.value.status == UploadedStatus
            && e.inserted.value.fileName == file.name
            && e.inserted.value.fileUrl == publicUrlOf(e.storedAt.value)
            && e.response.fileUrl == Some(e.inserted.value.fileUrl)
            && e.response.pageCount.Some? && e.response.pageCount.value >= 1)
      && (bucket.StorageError? ==> e.response.error == Some(CaughtMessage(bucket)))
      && (bucket.StorageOk? && upload.StorageError? ==> e.response.error == Some(CaughtMessage(upload)))
      && (bucket.StorageOk? && upload.StorageOk? && insert.StorageError? ==> e.response.error == Some(CaughtMessage(insert)))
      && (!e.response.success ==> e.response.error.Some? && e.response.fileUrl.None?)
  {
  }

  /** What the count query of `checkFileUploadLimit` gave: an error, no data, or the rows of
      the user with status 'uploaded'. */
  datatype CountQuery = QueryFailed | QueryNoData | QueryRows

  /** The number of the user's rows with status 'uploaded'. */
  function CountUploaded(table: seq<FileRecord>, userId: string): (n: nat)
    ensures n <= |table|
  {
    if table == [] then 0
    else
      var last := table[|table| - 1];
      CountUploaded(table[..|table| - 1], userId) + (if last.userId == userId && last.status == UploadedStatus then 1 else 0)
  }

  /** `checkFileUploadLimit`. */
  function CheckFileUploadLimit(table: seq<FileRecord>, userId: string, query: CountQuery): bool
  {
    match query
    case QueryFailed => false
    case QueryNoData => 0 < AppConfig.MaxFilesPerUser
    case QueryRows => CountUploaded(table, userId) < AppConfig.MaxFilesPerUser
  }

  /** Each successful upload adds one 'uploaded' row for its user and none for anyone else,
      so the user's count grows by one and other users' counts stay. */
  lemma InsertedRowCounts(table: seq<FileRecord>, row: FileRecord, userId: string)
    requires row.status == UploadedStatus
    ensures CountUploaded(table + [row], userId) ==
      CountUploaded(table, userId) + (if row.userId == userId then 1 else 0)
  {
    assert (table + [row])[..|table + [row]| - 1] == table;
  }

  /** Rows that all belong to the user and are 'uploaded' add one each to that user's
      count, whatever the table held before. */
  lemma {:induction false} UploadsAddUp(table: seq<FileRecord>, extra: seq<FileRecord>, userId: string)
    requires forall i :: 0 <= i < |extra| ==> extra[i].userId == userId && extra[i].status == UploadedStatus
    ensures CountUploaded(table + extra, userId) == CountUploaded(table, userId) + |extra|
    decreases |extra|
  {
    if extra == [] {
      assert table + extra == table;
    } else {
      var init, last := extra[..|extra| - 1], extra[|extra| - 1];
      UploadsAddUp(table, init, userId);
      assert table + extra == (table + init) + [last];
      InsertedRowCounts(table + init, last, userId);
    }
  }

  /** Ten more 'uploaded' rows of a user, added to any table, close that user's quota. */
  lemma TenUploadsReachTheLimit(table: seq<FileRecord>, extra: seq<FileRecord>, userId: string)
    requires |extra| >= AppConfig.MaxFilesPerUser
    requires forall i :: 0 <= i < |extra| ==> extra[i].userId == userId && extra[i].status == UploadedStatus
    ensures !CheckFileUploadLimit(table + extra, userId, QueryRows)
  {
    UploadsAddUp(table, extra, userId);
  }

  /** Rows of other users and rows with another status leave the user's count, and so the
      answer, as they were. */
  lemma {:induction false} OtherRowsIgnored(table: seq<FileRecord>, extra: seq<FileRecord>, userId: string, query: CountQuery)
    requires forall i :: 0 <= i < |extra| ==> extra[i].userId != userId || extra[i].status != UploadedStatus
    ensures CountUploaded(table + extra, userId) == CountUploaded(table, userId)
    ensures CheckFileUploadLimit(table + extra, userId, query) == CheckFileUploadLimit(table, userId, query)
    decreases |extra|
  {
    if extra == [] {
      assert table + extra == table;
    } else {
      var init := extra[..|extra| - 1];
      OtherRowsIgnored(table, init, userId, query);
      assert (table + extra)[..|table + extra| - 1] == table + init;
    }
  }

  /** Adding rows never lowers a user's count, so a refused user stays refused however
      many rows are added. */
  lemma {:induction false} QuotaStaysClosed(table: seq<FileRecord>, extra: seq<FileRecord>, userId: string)
    requires !CheckFileUploadLimit(table, userId, QueryRows)
    ensures CountUploaded(table + extra, userId) >= CountUploaded(table, userId)
    ensures !CheckFileUploadLimit(table + extra, userId, QueryRows)
    decreases |extra|
  {
    if extra == [] {
      assert table + extra == table;
    } else {
      var init := extra[..|extra| - 1];
      QuotaStaysClosed(table, init, userId);
      assert (table + extra)[..|table + extra| - 1] == table + init;
    }
  }
}
