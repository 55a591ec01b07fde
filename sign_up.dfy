/** The sign-up page (`SignUp`): the form schema, the gate for the optional PDF, and what
    a submission uploads and records.

    The schema reports its issues in the order the schema library finds them: the e-mail
    (whose check is a parameter here), the password's length in UTF-16 code units, and
    the refinement that the confirmation equals the password, reported on the
    confirmation field. Authentication, storage and the table insert are outcomes given
    as parameters. */
module SignUp {
  import opened Wrappers
  import opened Text
  import opened Files
  import opened PageCalculator

  const MinPasswordLength: nat := 6
  const MaxPages: nat := 50

  const InvalidEmailMessage: string := "Please enter a valid email address"
  const ShortPasswordMessage: string := "Password must be at least 6 characters long"
  const MismatchMessage: string := "Passwords don't match"

  datatype Field = Email | Password | ConfirmPassword

  /** One validation issue: the field it is shown under, and its message. */
  datatype Issue = Issue(path: Field, message: string)

  datatype SignUpForm = SignUpForm(email: string, password: string, confirmPassword: string)

  /** `signUpSchema`'s verdict on a form; `emailValid` is the e-mail validator's answer. */
  function ValidateSignUp(form: SignUpForm, emailValid: bool): seq<Issue>
  {
    (if emailValid then [] else [Issue(Email, InvalidEmailMessage)])
    + (if Utf16Length(form.password) < MinPasswordLength then [Issue(Password, ShortPasswordMessage)] else [])
    + (if form.password == form.confirmPassword then [] else [Issue(ConfirmPassword, MismatchMessage)])
  }

  /** A form is accepted exactly when the e-mail is valid, the password has at least six
      UTF-16 code units and the confirmation repeats it. */
  lemma FormValidIff(form: SignUpForm, emailValid: bool)
    ensures ValidateSignUp(form, emailValid) == [] <==>
      emailValid && Utf16Length(form.password) >= MinPasswordLength && form.password == form.confirmPassword
  {
    var issues := ValidateSignUp(form, emailValid);
    if !emailValid {
      assert issues[0].path == Email;
    } else if Utf16Length(form.password) < MinPasswordLength {
      assert issues[0].path == Password;
    } else if form.password != form.confirmPassword {
      assert issues[0].path == ConfirmPassword;
    }
  }

  /** A short password is reported under the password field, and a mismatch under the
      confirmation field and nowhere else. */
  lemma IssuesAttachToTheirFields(form: SignUpForm, emailValid: bool)
    ensures Utf16Length(form.password) < MinPasswordLength ==>
      Issue(Password, ShortPasswordMessage) in ValidateSignUp(form, emailValid)
    ensures form.password != form.confirmPassword ==>
      Issue(ConfirmPassword, MismatchMessage) in ValidateSignUp(form, emailValid)
    ensures forall i :: 0 <= i < |ValidateSignUp(form, emailValid)| ==>
      (ValidateSignUp(form, emailValid)[i].message == MismatchMessage ==>
         ValidateSignUp(form, emailValid)[i].path == ConfirmPassword)
  {
    var a: seq<Issue> := if emailValid then [] else [Issue(Email, InvalidEmailMessage)];
    var b: seq<Issue> := if Utf16Length(form.password) < MinPasswordLength then [Issue(Password, ShortPasswordMessage)] else [];
    var c: seq<Issue> := if form.password == form.confirmPassword then [] else [Issue(ConfirmPassword, MismatchMessage)];
    assert ValidateSignUp(form, emailValid) == a + b + c;
    if Utf16Length(form.password) < MinPasswordLength {
      assert (a + b + c)[|a|] == Issue(Password, ShortPasswordMessage);
    }
    if form.password != form.confirmPassword {
      assert (a + b + c)[|a| + |b|] == Issue(ConfirmPassword, MismatchMessage);
    }
  }

  /** Length is counted in UTF-16 code units: three characters outside the Basic
      Multilingual Plane make a long enough password. */
  lemma PasswordLengthInCodeUnits()
    ensures Utf16Length("\U{1F600}\U{1F600}\U{1F600}") == 6
    ensures Utf16Length("abcde") == 5
  {
  }

  /** What the file handler decided. */
  datatype FileGate = NotPdf | FileTooLarge | TooManyPages(pages: nat) | Accepted(pages: nat)

  /** The three gates of the file handler, in order: type, size, then page count. */
  function GateFile(file: BrowserFile, read: ReadOutcome): FileGate
  {
    if file.mimeType != PdfType then NotPdf
    else if file.size > MaxUploadBytes then FileTooLarge
    else
      var pages := CalculatePages(file, read);
      if pages > MaxPages then TooManyPages(pages) else Accepted(pages)
  }

  /** A file that is not a PDF, or a PDF over 10 MiB, is refused before its pages are
      counted: the verdict does not depend on the file's contents. A file is accepted
      exactly when it passes all three gates. */
  lemma GateOrder(file: BrowserFile, read: ReadOutcome, other: ReadOutcome)
    ensures file.mimeType != PdfType ==> GateFile(file, read) == NotPdf
    ensures file.mimeType == PdfType && file.size > MaxUploadBytes ==> GateFile(file, read) == FileTooLarge
    ensures (file.mimeType != PdfType || file.size > MaxUploadBytes) ==> GateFile(file, read) == GateFile(file, other)
    ensures GateFile(file, read).Accepted? <==>
      file.mimeType == PdfType && file.size <= MaxUploadBytes && CalculatePages(file, read) <= MaxPages
    ensures GateFile(file, read).Accepted? ==> 1 <= GateFile(file, read).pages <= MaxPages
  {
  }

  /** `userId + "/" + fileName`: the storage key of the optional upload. */
  function StoragePath(userId: string, fileName: string): string {
    userId + "/" + fileName
  }

  /** A user id without '/' is the key's first segment, and the file name is the rest. */
  lemma {:induction false} StoragePathSplits(userId: string, fileName: string)
    requires '/' !in userId
    ensures IndexOf(StoragePath(userId, fileName), '/') == |userId|
    ensures StoragePath(userId, fileName)[..|userId|] == userId
    ensures StoragePath(userId, fileName)[|userId| + 1..] == fileName
  {
    var p := StoragePath(userId, fileName);
    var i := IndexOf(p, '/');
    assert p[|userId|] == '/';
  }

  /** What authentication gave back. */
  datatype AuthOutcome =
    | AuthFailed(message: string)         // `{ error }`
    | AuthThrew(message: string)          // the call threw
    | AuthSucceeded(userId: Option<string>) // `{ data }`; the user may be absent

  /** What a submission did: the key it uploaded to, the row the table now holds for it,
      and whether it went on to the home page. */
  datatype SubmitEffects = SubmitEffects(uploadPath: Option<string>, record: Option<FileRecord>, navigated: bool)

  /** `onSubmit` for a form the schema accepted. `publicUrlOf` is the storage's public URL
      of a key; `read` is the second page count's file read; `insert` is what the table
      insert gave. A failed insert is only reported: the page still moves on. */
  function SubmitSignUp(selected: Option<BrowserFile>, auth: AuthOutcome, upload: StorageOutcome,
                        publicUrlOf: string -> string, read: ReadOutcome, insert: StorageOutcome): SubmitEffects
  {
    match auth
    case AuthFailed(_) => SubmitEffects(None, None, false)
    case AuthThrew(_) => SubmitEffects(None, None, false)
    case AuthSucceeded(user) =>
      if selected.Some? && user.Some? then
        var file := selected.value;
        var path := StoragePath(user.value, file.name);
        if upload.StorageError? || insert.StorageError? then SubmitEffects(Some(path), None, true)
        else
          var row := FileRecord(file.name, file.size, publicUrlOf(path), CalculatePages(file, read), user.value, UploadedStatus);
          SubmitEffects(Some(path), Some(row), true)
      else SubmitEffects(None, None, true)
  }

  /** A failed sign-up uploads nothing and stays on the page; a successful one always moves
      on. The file is uploaded to `userId/fileName` only when both a file and a user exist,
      and a row exists afterwards only when that upload and then the insert succeeded: it
      belongs to that user, has status 'uploaded', points at the public URL of that very
      key and counts at least one page. */
  lemma SubmitEffectsSpec(selected: Option<BrowserFile>, auth: AuthOutcome, upload: StorageOutcome,
                          publicUrlOf: string -> string, read: ReadOutcome, insert: StorageOutcome)
    ensures var e := SubmitSignUp(selected, auth, upload, publicUrlOf, read, insert);
      && (!auth.AuthSucceeded? ==> e == SubmitEffects(None, None, false))
      && (auth.AuthSucceeded? ==> e.navigated)
      && (e.uploadPath.Some? <==> auth.AuthSucceeded? && auth.userId.Some? && selected.Some?)
      && (e.uploadPath.Some? ==> e.uploadPath.value == auth.userId.value + "/" + selected.value.name)
      && (e.record.Some? <==> e.uploadPath.Some? && upload.StorageOk? && insert.StorageOk?)
      && (e.record.Some? ==>
            var row := e.record.value;
            && row.status == UploadedStatus
            && row.userId == auth.userId.value
            && row.fileName == selected.value.name
            && row.fileSize == selected.value.size
            && row.fileUrl == publicUrlOf(e.uploadPath.value)
            && row.pageCount >= 1)
  {
  }

  /** What `signUp(email, password)` gives as the page is wired: the context value of
      `useAuth()` has no `signUp` member, so the call is a call of `undefined` and throws a
      `TypeError` (its message is engine-specific) before any request is made. */
  function AuthAsWired(typeErrorMessage: string): AuthOutcome {
    AuthThrew(typeErrorMessage)
  }

  /** As the page is wired, no submission registers anyone: whatever the form, the file
      and the storage would give, nothing is uploaded or recorded and the page stays. */
  lemma SubmitAsWiredDoesNothing(selected: Option<BrowserFile>, typeErrorMessage: string, upload: StorageOutcome,
                                 publicUrlOf: string -> string, read: ReadOutcome, insert: StorageOutcome)
    ensures var e := SubmitSignUp(selected, AuthAsWired(typeErrorMessage), upload, publicUrlOf, read, insert);
      e.uploadPath.None? && e.record.None? && !e.navigated
  {
  }

  /** The state of the sign-up page that the file handler changes. */
  class SignUpPage {
    var selectedFile: Option<BrowserFile>
    var fileLoading: bool

    constructor ()
      ensures selectedFile.None? && !fileLoading
    {
      selectedFile := None;
      fileLoading := false;
    }

    /** `handleFileSelect`: a refused file leaves the previous selection in place; only a
        file that passes all three gates becomes the selection. */
    method HandleFileSelect(file: Option<BrowserFile>, read: ReadOutcome) returns (gate: Option<FileGate>)
      modifies this
      ensures file.None? ==> gate.None?
      ensures file.Some? ==> gate == Some(GateFile(file.value, read))
      ensures selectedFile == if gate.Some? && gate.value.Accepted? then file else old(selectedFile)
      ensures fileLoading ==
        if file.Some? && file.value.mimeType == PdfType && file.value.size <= MaxUploadBytes then false
        else old(fileLoading)
    {
      if file.None? {
        return None;
      }
      var f := file.value;
      if f.mimeType != PdfType {
        return Some(NotPdf);
      }
      if f.size > MaxUploadBytes {
        return Some(FileTooLarge);
      }
      fileLoading := true;
      var pageCount := CalculatePages(f, read);
      if pageCount > MaxPages {
        fileLoading := false;
        return Some(TooManyPages(pageCount));
      }
      selectedFile := Some(f);
      fileLoading := false;
      gate := Some(Accepted(pageCount));
    }
  }
}
