/** The client-side list of active print jobs (`PrintJobProvider`).

    Status messages from the socket update the first job with the message's id; a
    submission checks the file and page limits before it calls the print-job service, and
    a successful answer with a job id appends a `queued` job. The clock and the service's
    answer are parameters. */
module PrintJobContext {
  import opened Wrappers
  import opened Text
  import opened Files
  import AppConfig

  const QueuedStatus: string := "queued"
  const GeneratedFileId: string := "generated"

  /** A print job as the UI tracks it; the status is whatever string the server sent. */
  datatype PrintJob = PrintJob(id: string, fileId: string, fileName: string, status: string, createdAt: string, updatedAt: string)

  /** The `data` of a `job_status` message; a missing or empty `jobId` is falsy. */
  datatype StatusMessage = StatusMessage(jobId: Option<string>, status: string)

  /** The service's answer `{ jobId, success, message }`. */
  datatype SubmitResponse = SubmitResponse(jobId: string, success: bool, message: string)

  /** What calling the print-job service did: it answered, or it threw. */
  datatype ServiceOutcome = Answered(response: SubmitResponse) | Threw(message: string)

  const MaxTotalPages: nat := AppConfig.MaxFilesPerUser * AppConfig.MaxPagesPerDocument

  /** `prevJobs.findIndex(job => job.id === id)`, with `|jobs|` for "not found". */
  function FindJob(jobs: seq<PrintJob>, id: string): (i: nat)
    ensures i <= |jobs|
    ensures i < |jobs| ==> jobs[i].id == id
    ensures forall k :: 0 <= k < i ==> jobs[k].id != id
  {
    if jobs == [] then 0 else if jobs[0].id == id then 0 else 1 + FindJob(jobs[1..], id)
  }

  /** The job list after a status message arrives at time `now`. */
  function StatusUpdated(jobs: seq<PrintJob>, msg: StatusMessage, now: string): seq<PrintJob>
  {
    if msg.jobId.None? || msg.jobId.value == "" then jobs
    else
      var i := FindJob(jobs, msg.jobId.value);
      if i < |jobs| then jobs[i := jobs[i].(status := msg.status, updatedAt := now)] else jobs
  }

  /** A message without a job id, or for an id not in the list, changes nothing. Otherwise
      exactly the first job with that id gets the new status and time; every other job and
      every other field stays, and the list keeps its length. */
  lemma StatusUpdateChangesOneEntry(jobs: seq<PrintJob>, msg: StatusMessage, now: string)
    ensures |StatusUpdated(jobs, msg, now)| == |jobs|
    ensures msg.jobId.None? || msg.jobId.value == "" ==> StatusUpdated(jobs, msg, now) == jobs
    ensures msg.jobId.Some? && (forall k :: 0 <= k < |jobs| ==> jobs[k].id != msg.jobId.value) ==>
      StatusUpdated(jobs, msg, now) == jobs
    ensures msg.jobId.Some? && msg.jobId.value != "" ==>
      forall k :: 0 <= k < |jobs| ==>
        var updated := StatusUpdated(jobs, msg, now)[k];
        if k == FindJob(jobs, msg.jobId.value) then
          updated == jobs[k].(status := msg.status, updatedAt := now) && jobs[k].id == msg.jobId.value
        else updated == jobs[k]
  {
  }

  /** The limit checks a submission makes before any call: more than ten files, or more
      pages than ten documents of fifty pages, fail with an empty job id. */
  function LimitCheck(files: seq<FilePreview>): (refusal: Option<SubmitResponse>)
    ensures refusal.Some? <==> |files| > AppConfig.MaxFilesPerUser || TotalPages(files) > MaxTotalPages
    ensures refusal.Some? ==> !refusal.value.success && refusal.value.jobId == ""
  {
    if |files| > AppConfig.MaxFilesPerUser then
      Some(SubmitResponse("", false, "You can only upload " + NatToString(AppConfig.MaxFilesPerUser) + " files at once."))
    else
      var totalPages := TotalPages(files);
      if totalPages > MaxTotalPages then
        Some(SubmitResponse("", false, "Total pages (" + NatToString(totalPages) + ") exceed the maximum allowed."))
      else None
  }

  /** The name shown for a submission: its file's name, or "<n> files". */
  function SubmissionName(files: seq<FilePreview>): string {
    if |files| == 1 then files[0].name else NatToString(|files|) + " files"
  }

  /** What `submitPrintJob` returns once the limits passed and the service was called. */
  function ServiceResponse(outcome: ServiceOutcome): (r: SubmitResponse)
    ensures outcome.Threw? ==> r == SubmitResponse("", false, outcome.message)
    ensures outcome.Answered? ==> r == outcome.response
  {
    match outcome
    case Answered(response) => response
    case Threw(message) => SubmitResponse("", false, message)
  }

  /** The job a submission adds to the list, if any: only a successful answer with a
      non-empty job id adds one, and then it is `queued` under that id. */
  function NewJob(files: seq<FilePreview>, outcome: ServiceOutcome, now: string): (job: Option<PrintJob>)
    ensures job.Some? <==> outcome.Answered? && outcome.response.success && outcome.response.jobId != ""
    ensures job.Some? ==>
      && job.value.id == outcome.response.jobId
      && job.value.status == QueuedStatus
      && job.value.fileName == SubmissionName(files)
      && job.value.createdAt == now && job.value.updatedAt == now
  {
    match outcome
    case Threw(_) => None
    case Answered(r) =>
      if r.success && r.jobId != "" then Some(PrintJob(r.jobId, GeneratedFileId, SubmissionName(files), QueuedStatus, now, now))
      else None
  }

  /** A submission of one file is named after it; any other count reads "<n> files", and
      the count can be read back from the name. */
  lemma SubmissionNameSpec(files: seq<FilePreview>)
    ensures |files| == 1 ==> SubmissionName(files) == files[0].name
    ensures |files| != 1 ==>
      var name := SubmissionName(files);
      var digits := NatToString(|files|);
      name[..|digits|] == digits && name[|digits|..] == " files" && DigitsValue(digits) == |files|
  {
    NatToStringRoundTrip(|files|);
  }

  /** The state of the provider. */
  class PrintJobProvider {
    var activeJobs: seq<PrintJob>
    var submitting: bool

    constructor ()
      ensures activeJobs == [] && !submitting
    {
      activeJobs := [];
      submitting := false;
    }

    /** `handleJobStatusUpdate`, the `job_status` listener: copies the list and replaces
        the entry found for the message's id. */
    method HandleJobStatusUpdate(msg: StatusMessage, now: string)
      modifies this
      ensures activeJobs == StatusUpdated(old(activeJobs), msg, now)
      ensures submitting == old(submitting)
    {
      if msg.jobId.None? || msg.jobId.value == "" {
        return;
      }
      var jobIndex := FindJob(activeJobs, msg.jobId.value);
      if jobIndex < |activeJobs| {
        var updatedJobs := activeJobs;
        updatedJobs := updatedJobs[jobIndex := updatedJobs[jobIndex].(status := msg.status, updatedAt := now)];
        activeJobs := updatedJobs;
      }
    }

    /** `submitPrintJob`: `called` says whether the service was reached. A refused
        submission never reaches it; the list grows by the new job, if any, and by
        nothing else. */
    method SubmitPrintJob(files: seq<FilePreview>, outcome: ServiceOutcome, now: string)
      returns (response: SubmitResponse, called: bool)
      modifies this
      ensures called <==> LimitCheck(files).None?
      ensures !called ==> response == LimitCheck(files).value && activeJobs == old(activeJobs)
      ensures called ==> response == ServiceResponse(outcome)
      ensures called ==>
        activeJobs == old(activeJobs) + (if NewJob(files, outcome, now).Some? then [NewJob(files, outcome, now).value] else [])
      ensures !submitting
    {
      submitting := true;
      var refusal := LimitCheck(files);
      if refusal.Some? {
        submitting := false;
        return refusal.value, false;
      }
      called := true;
      response := ServiceResponse(outcome);
      var job := NewJob(files, outcome, now);
      if job.Some? {
        activeJobs := activeJobs + [job.value];
      }
      submitting := false;
    }
  }
}
