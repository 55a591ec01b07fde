/** The kiosk page's file-selection list (`Index`).

    The page keeps at most five selected files holding at most fifty pages between them.
    A new file passes four guards in order (allowed MIME type, at most 10 MiB, fewer than
    five files selected, total pages at most fifty); a rejected file only sets the error
    message. Files can be removed one at a time or all together, and the totals feed the
    payment dialog. The object URL of a file, the page read and the printer's answer are
    parameters. */
module KioskPage {
  import opened Wrappers
  import opened Files
  import opened PageCalculator

  const AllowedTypes: seq<string> := [
    "application/pdf", "image/jpeg", "image/png", "image/gif", "application/msword",
    "application/vnd.openxmlformats-officedocument.wordprocessingml.document"]
  const MaxFiles: nat := 5
  const MaxTotalPages: nat := 50

  const UnsupportedTypeMessage: string := "Unsupported file type. Please upload PDF, Image, or Word documents."
  const TooLargeMessage: string := "File size exceeds 10MB limit."
  const TooManyFilesMessage: string := "Maximum of 5 files can be uploaded per session."
  const TooManyPagesMessage: string := "Total page count exceeds 50 page limit."
  const PrintFailedMessage: string := "Failed to send print job. Please try again."

  /** Which guard turned a file away. */
  datatype Rejection = UnsupportedType | TooLarge | TooManyFiles | TooManyPages

  function RejectionMessage(r: Rejection): string {
    match r
    case UnsupportedType => UnsupportedTypeMessage
    case TooLarge => TooLargeMessage
    case TooManyFiles => TooManyFilesMessage
    case TooManyPages => TooManyPagesMessage
  }

  /** What the selection handler decided about one file. */
  datatype Admission = Rejected(reason: Rejection) | Admitted(entry: FilePreview)

  /** One job handed to the printer integration: `{ fileUrl, fileName, pageCount }`. */
  datatype PrintRequest = PrintRequest(fileUrl: string, fileName: string, pageCount: nat)

  /** The guards of the selection handler, in the order the handler applies them. The
      page count, and with it the file read, is consulted only after the first three. */
  function Admit(selected: seq<FilePreview>, file: BrowserFile, read: ReadOutcome, url: string): Admission
  {
    if file.mimeType !in AllowedTypes then Rejected(UnsupportedType)
    else if file.size > MaxUploadBytes then Rejected(TooLarge)
    else if |selected| >= MaxFiles then Rejected(TooManyFiles)
    else
      var pages := CalculatePages(file, read);
      if TotalPages(selected) + pages > MaxTotalPages then Rejected(TooManyPages)
      else Admitted(FilePreview(file.name, url, file.mimeType, file.size, pages))
  }

  /** What every reachable selection list satisfies. */
  ghost predicate SelectionInvariant(files: seq<FilePreview>) {
    && |files| <= MaxFiles
    && TotalPages(files) <= MaxTotalPages
    && forall i :: 0 <= i < |files| ==>
         files[i].mimeType in AllowedTypes && files[i].size <= MaxUploadBytes && files[i].pageCount >= 1
  }

  /** A file is admitted exactly when it passes all four guards, and then it carries its
      own name, type and size, the given URL and its computed page count. */
  lemma AdmitExactlyWhenAllGuardsPass(selected: seq<FilePreview>, file: BrowserFile, read: ReadOutcome, url: string)
    ensures Admit(selected, file, read, url).Admitted? <==>
      && file.mimeType in AllowedTypes
      && file.size <= MaxUploadBytes
      && |selected| < MaxFiles
      && TotalPages(selected) + CalculatePages(file, read) <= MaxTotalPages
    ensures Admit(selected, file, read, url).Admitted? ==>
      Admit(selected, file, read, url).entry ==
        FilePreview(file.name, url, file.mimeType, file.size, CalculatePages(file, read))
  {
  }

  /** The guards are tried in order: a file of a type outside the list is refused for its
      type whatever its size, and whatever the list and the file's contents hold. */
  lemma GuardOrder(selected: seq<FilePreview>, file: BrowserFile, read: ReadOutcome, url: string)
    ensures file.mimeType !in AllowedTypes ==>
      Admit(selected, file, read, url) == Rejected(UnsupportedType)
    ensures file.mimeType in AllowedTypes && file.size > MaxUploadBytes ==>
      Admit(selected, file, read, url) == Rejected(TooLarge)
    ensures file.mimeType in AllowedTypes && file.size <= MaxUploadBytes && |selected| >= MaxFiles ==>
      Admit(selected, file, read, url) == Rejected(TooManyFiles)
  {
  }

  /** Admitting a file keeps the list's invariant: never more than five files and never
      more than fifty pages. */
  lemma {:induction false} AdmitKeepsInvariant(selected: seq<FilePreview>, file: BrowserFile, read: ReadOutcome, url: string)
    requires SelectionInvariant(selected)
    requires Admit(selected, file, read, url).Admitted?
    ensures SelectionInvariant(selected + [Admit(selected, file, read, url).entry])
  {
    var entry := Admit(selected, file, read, url).entry;
    TotalPagesAppend(selected, [entry]);
    assert TotalPages([entry]) == entry.pageCount by {
      assert [entry][..0] == [];
    }
  }

  /** Removing any entry keeps the invariant. */
  lemma RemoveKeepsInvariant(files: seq<FilePreview>, i: nat)
    requires SelectionInvariant(files) && i < |files|
    ensures SelectionInvariant(files[..i] + files[i + 1..])
  {
    TotalPagesRemove(files, i);
    var rest := files[..i] + files[i + 1..];
    forall k | 0 <= k < |rest|
      ensures rest[k] == files[if k < i then k else k + 1]
    {
    }
  }

  /** `getTotalCost`: the price of the total page count. */
  function TotalCost(files: seq<FilePreview>): nat {
    CalculateCost(TotalPages(files))
  }

  /** The cost of each file on its own, added up. */
  function SumOfCosts(files: seq<FilePreview>): nat {
    if files == [] then 0 else SumOfCosts(files[..|files| - 1]) + CalculateCost(files[|files| - 1].pageCount)
  }

  /** The dialog's amount is four rupees a page and equals the sum of the files' own costs,
      so it never exceeds the price of fifty pages. */
  lemma {:induction false} TotalCostIsSumOfCosts(files: seq<FilePreview>)
    ensures TotalCost(files) == 4 * TotalPages(files)
    ensures TotalCost(files) == SumOfCosts(files)
    ensures SelectionInvariant(files) ==> TotalCost(files) <= 4 * MaxTotalPages
  {
    if files != [] {
      TotalCostIsSumOfCosts(files[..|files| - 1]);
    }
  }

  /** `selectedFiles.map(...)`: one print request per selected file, in the same order. */
  function PrintRequests(files: seq<FilePreview>): (jobs: seq<PrintRequest>)
    ensures |jobs| == |files|
    ensures forall i :: 0 <= i < |files| ==>
      jobs[i] == PrintRequest(files[i].url, files[i].name, files[i].pageCount)
  {
    if files == [] then []
    else [PrintRequest(files[0].url, files[0].name, files[0].pageCount)] + PrintRequests(files[1..])
  }

  /** The state of the kiosk page. */
  class Kiosk {
    var selectedFiles: seq<FilePreview>
    var error: string
    var previewing: bool
    var paymentModalOpen: bool
    var processing: bool
    var paymentSuccess: bool
    /** Five-second timers, started after a successful print, that have not fired yet. */
    var pendingResets: nat

    ghost predicate Valid()
      reads this
    {
      SelectionInvariant(selectedFiles)
    }

    constructor ()
      ensures Valid()
      ensures selectedFiles == [] && error == "" && !previewing
      ensures !paymentModalOpen && !processing && !paymentSuccess && pendingResets == 0
    {
      selectedFiles := [];
      error := "";
      previewing := false;
      paymentModalOpen := false;
      processing := false;
      paymentSuccess := false;
      pendingResets := 0;
    }

    /** `handleFileSelect`: `file` is the first file of the input, if any. A rejected file
        sets the error and leaves the list alone; an admitted one clears the error and is
        appended with its page count. */
    method HandleFileSelect(file: Option<BrowserFile>, read: ReadOutcome, url: string) returns (admission: Option<Admission>)
      requires Valid()
      modifies this
      ensures Valid()
      ensures file.None? ==> admission.None?
      ensures file.Some? ==> admission == Some(Admit(old(selectedFiles), file.value, read, url))
      ensures selectedFiles ==
        if admission.Some? && admission.value.Admitted? then old(selectedFiles) + [admission.value.entry]
        else old(selectedFiles)
      ensures error ==
        if admission.None? then old(error)
        else if admission.value.Admitted? then ""
        else RejectionMessage(admission.value.reason)
      ensures previewing == old(previewing) && paymentModalOpen == old(paymentModalOpen)
      ensures processing == old(processing) && paymentSuccess == old(paymentSuccess)
      ensures pendingResets == old(pendingResets)
    {
      if file.None? {
        return None;
      }
      var f := file.value;
      if f.mimeType !in AllowedTypes {
        error := UnsupportedTypeMessage;
        return Some(Rejected(UnsupportedType));
      }
      if f.size > MaxUploadBytes {
        error := TooLargeMessage;
        return Some(Rejected(TooLarge));
      }
      if |selectedFiles| >= MaxFiles {
        error := TooManyFilesMessage;
        return Some(Rejected(TooManyFiles));
      }
      var pageCount := CalculatePages(f, read);
      var currentTotalPages := TotalPages(selectedFiles);
      if currentTotalPages + pageCount > MaxTotalPages {
        error := TooManyPagesMessage;
        return Some(Rejected(TooManyPages));
      }
      error := "";
      var newFile := FilePreview(f.name, url, f.mimeType, f.size, pageCount);
      AdmitKeepsInvariant(selectedFiles, f, read, url);
      selectedFiles := selectedFiles + [newFile];
      admission := Some(Admitted(newFile));
    }

    /** `handlePrintRequest`: opens the payment dialog unless nothing is selected. */
    method HandlePrintRequest()
      modifies this
      ensures paymentModalOpen == (old(paymentModalOpen) || old(selectedFiles) != [])
      ensures selectedFiles == old(selectedFiles) && error == old(error) && previewing == old(previewing)
      ensures processing == old(processing) && paymentSuccess == old(paymentSuccess)
      ensures pendingResets == old(pendingResets)
    {
      if |selectedFiles| == 0 {
        return;
      }
      paymentModalOpen := true;
    }

    /** `handlePaymentConfirm` once the simulated payment has finished: the print requests
        sent, and the state after the printer integration answered `printed`. On success a
        timer is started that will clear the list. */
    method ConfirmPayment(printed: bool) returns (jobs: seq<PrintRequest>)
      requires Valid()
      modifies this
      ensures Valid()
      ensures jobs == PrintRequests(old(selectedFiles))
      ensures selectedFiles == old(selectedFiles) && previewing == old(previewing)
      ensures !processing && !paymentModalOpen
      ensures paymentSuccess == (printed || old(paymentSuccess))
      ensures error == if printed then old(error) else PrintFailedMessage
      ensures pendingResets == if printed then old(pendingResets) + 1 else old(pendingResets)
    {
      processing := true;
      jobs := PrintRequests(selectedFiles);
      processing := false;
      paymentModalOpen := false;
      if printed {
        paymentSuccess := true;
        pendingResets := pendingResets + 1;
      } else {
        error := PrintFailedMessage;
      }
    }

    /** A five-second reset timer fires: the success message goes and the list is cleared. */
    method PaymentResetElapsed()
      requires Valid()
      modifies this
      ensures Valid()
      ensures old(pendingResets) == 0 ==>
        selectedFiles == old(selectedFiles) && paymentSuccess == old(paymentSuccess) &&
        previewing == old(previewing) && pendingResets == 0
      ensures old(pendingResets) > 0 ==>
        selectedFiles == [] && !paymentSuccess && !previewing && pendingResets == old(pendingResets) - 1
      ensures error == old(error) && paymentModalOpen == old(paymentModalOpen) && processing == old(processing)
    {
      if pendingResets == 0 {
        return;
      }
      pendingResets := pendingResets - 1;
      paymentSuccess := false;
      ClearAllFiles();
    }

    /** `clearFile(index)`: removes exactly entry `index`, keeping the others in order. An
        index past the end makes the source throw before any state changes. */
    method ClearFile(index: nat)
      requires Valid()
      modifies this
      ensures Valid()
      ensures index < |old(selectedFiles)| ==>
        selectedFiles == old(selectedFiles)[..index] + old(selectedFiles)[index + 1..] && !previewing
      ensures index >= |old(selectedFiles)| ==>
        selectedFiles == old(selectedFiles) && previewing == old(previewing)
      ensures error == old(error) && paymentModalOpen == old(paymentModalOpen)
      ensures processing == old(processing) && paymentSuccess == old(paymentSuccess)
      ensures pendingResets == old(pendingResets)
    {
      if index >= |selectedFiles| {
        return;
      }
      RemoveKeepsInvariant(selectedFiles, index);
      var newFiles := selectedFiles[..index] + selectedFiles[index + 1..];
      selectedFiles := newFiles;
      previewing := false;
    }

    /** `clearAllFiles`: empties the list. */
    method ClearAllFiles()
      modifies this
      ensures Valid()
      ensures selectedFiles == [] && !previewing
      ensures error == old(error) && paymentModalOpen == old(paymentModalOpen)
      ensures processing == old(processing) && paymentSuccess == old(paymentSuccess)
      ensures pendingResets == old(pendingResets)
    {
      selectedFiles := [];
      previewing := false;
    }
  }
}
