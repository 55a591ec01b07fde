/** The file values the pages pass around: the browser's `File` and the `FilePreview`
    record that the kiosk keeps for every selected file. */
module Files {

  /** A browser `File`: name, MIME type (`file.type`) and size in bytes. */
  datatype BrowserFile = BrowserFile(name: string, mimeType: string, size: nat)

  /** A selected file with its object URL and its computed page count. */
  datatype FilePreview = FilePreview(name: string, url: string, mimeType: string, size: nat, pageCount: nat)

  /** A row of the `files` table. */
  datatype FileRecord = FileRecord(fileName: string, fileSize: nat, fileUrl: string, pageCount: nat, userId: string, status: string)

  /** The answer of a storage or table call: it went through, or it gave an error;
      `isError` says whether that error value is a JavaScript `Error` instance. */
  datatype StorageOutcome = StorageOk | StorageError(message: string, isError: bool)

  /** The largest file either page admits, in bytes; both write it out as
      `10 * 1024 * 1024`. */
  const MaxUploadBytes: nat := 10 * 1024 * 1024

  /** The status a row of the `files` table is created with. */
  const UploadedStatus: string := "uploaded"

  /** `files.reduce((sum, file) => sum + file.pageCount, 0)`, folded from the left. */
  function TotalPages(files: seq<FilePreview>): nat
  {
    if files == [] then 0 else TotalPages(files[..|files| - 1]) + files[|files| - 1].pageCount
  }

  /** The total of a concatenation is the sum of the totals. */
  lemma {:induction false} TotalPagesAppend(a: seq<FilePreview>, b: seq<FilePreview>)
    ensures TotalPages(a + b) == TotalPages(a) + TotalPages(b)
    decreases |b|
  {
    if b == [] {
      assert a + b == a;
    } else {
      assert (a + b)[..|a + b| - 1] == a + b[..|b| - 1];
      TotalPagesAppend(a, b[..|b| - 1]);
    }
  }

  /** Removing entry `i` takes exactly that entry's pages off the total. */
  lemma TotalPagesRemove(files: seq<FilePreview>, i: nat)
    requires i < |files|
    ensures TotalPages(files[..i] + files[i + 1..]) == TotalPages(files) - files[i].pageCount
  {
    var before, after := files[..i], files[i + 1..];
    var upTo := before + [files[i]];
    assert TotalPages(files) == TotalPages(upTo) + TotalPages(after) by {
      assert files[..i + 1] == upTo;
      assert files == files[..i + 1] + after;
      TotalPagesAppend(upTo, after);
    }
    assert TotalPages(upTo) == TotalPages(before) + files[i].pageCount by {
      assert upTo[..|upTo| - 1] == before;
    }
    TotalPagesAppend(before, after);
  }
}
