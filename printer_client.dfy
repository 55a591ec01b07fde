/** The desktop printer client (`printer-client/index.js`).

    Every poll asks the `printer_queue` table for at most five rows with status `queued`
    and processes them one after the other. Processing looks up the job's file; when the
    file row is missing or the lookup errs, the job is left alone. Otherwise the job is
    set to `printing`, the file is downloaded and printed, and the job ends `complete`,
    or `failed` when the download or the print threw. Every status write also records
    this printer's id and touches only the row of the processed job.

    The table is a map from job id to row, in memory. The order in which the database
    returns matching rows, the file lookup, and the download-and-print step are oracles
    given as parameters. The selection and the status writes are separate steps, as in
    the source: nothing here claims a job atomically. */
module PrinterClient {
  import opened Wrappers
  import Text

  const PrinterId: string := "laptop_printer_01"
  const PollLimit: nat := 5

  const QueuedStatus: string := "queued"
  const PrintingStatus: string := "printing"
  const CompleteStatus: string := "complete"
  const FailedStatus: string := "failed"

  type JobId = nat
  type FileId = nat

  /** A row of `printer_queue`. */
  datatype QueueRow = QueueRow(id: JobId, fileId: FileId, status: string, printerId: Option<string>)

  /** What `files.select('file_url, file_name').eq('id', fileId).single()` gave. */
  datatype FileLookup = FileFound(fileUrl: string, fileName: string) | FileMissing | FileLookupError

  /** How downloading and printing the file went: both succeeded, or one of them threw. */
  datatype DeviceOutcome = Printed | DownloadFailed | PrintFailed

  /** `update({ status, printer_id }).eq('id', jobId)`. */
  datatype StatusWrite = StatusWrite(jobId: JobId, status: string, printerId: string)

  /** What the poll's query gave: an error, or success with the order in which the
      database scans the table's rows. */
  datatype FetchOutcome = FetchFailed | Fetched(scanOrder: seq<JobId>)

  ghost predicate NoDuplicates(ids: seq<JobId>) {
    forall i, j :: 0 <= i < j < |ids| ==> ids[i] != ids[j]
  }

  ghost predicate DistinctJobs(rows: seq<QueueRow>) {
    forall i, j :: 0 <= i < j < |rows| ==> rows[i].id != rows[j].id
  }

  /** One status write: the row with that id, if there is one, gets the status and this
      printer's id. */
  function ApplyWrite(table: map<JobId, QueueRow>, w: StatusWrite): map<JobId, QueueRow> {
    if w.jobId in table then table[w.jobId := table[w.jobId].(status := w.status, printerId := Some(w.printerId))]
    else table
  }

  /** Status writes in order. */
  function ApplyWrites(table: map<JobId, QueueRow>, writes: seq<StatusWrite>): map<JobId, QueueRow>
    decreases |writes|
  {
    if writes == [] then table else ApplyWrites(ApplyWrite(table, writes[0]), writes[1..])
  }

  lemma {:induction false} ApplyWritesAppend(table: map<JobId, QueueRow>, a: seq<StatusWrite>, b: seq<StatusWrite>)
    ensures ApplyWrites(table, a + b) == ApplyWrites(ApplyWrites(table, a), b)
    decreases |a|
  {
    if a == [] {
      assert a + b == b;
    } else {
      assert (a + b)[0] == a[0];
      assert (a + b)[1..] == a[1..] + b;
      ApplyWritesAppend(ApplyWrite(table, a[0]), a[1..], b);
    }
  }

  lemma ApplyTwoWrites(table: map<JobId, QueueRow>, first: StatusWrite, second: StatusWrite)
    ensures ApplyWrites(table, [first, second]) == ApplyWrite(ApplyWrite(table, first), second)
  {
    var once := ApplyWrite(table, first);
    var twice := ApplyWrite(once, second);
    assert [first, second][1..] == [second];
    assert [second][1..] == [];
    assert ApplyWrites(twice, []) == twice;
    assert ApplyWrites(once, [second]) == ApplyWrites(twice, []);
  }

  /** The status a processed job ends with when its file was found. */
  function FinalStatus(device: DeviceOutcome): string {
    if device.Printed? then CompleteStatus else FailedStatus
  }

  /** The writes `processPrintJob` makes: none when the file lookup failed, otherwise
      `printing` and then the final status. */
  function JobWrites(job: QueueRow, lookup: FileLookup, device: DeviceOutcome): seq<StatusWrite> {
    if !lookup.FileFound? then []
    else [StatusWrite(job.id, PrintingStatus, PrinterId), StatusWrite(job.id, FinalStatus(device), PrinterId)]
  }

  /** `processPrintJob`'s result. */
  predicate JobSucceeded(lookup: FileLookup, device: DeviceOutcome) {
    lookup.FileFound? && device.Printed?
  }

  /** The row a processed job leaves behind. */
  function ProcessedRow(row: QueueRow, lookup: FileLookup, device: DeviceOutcome): QueueRow {
    if lookup.FileFound? then row.(status := FinalStatus(device), printerId := Some(PrinterId)) else row
  }

  /** Processing a job touches only its own row. A missing file leaves the row alone;
      otherwise the row ends `complete` exactly when the print succeeded and `failed`
      when it did not, never `printing`, with this printer's id and every other field
      as it was. */
  lemma {:induction false} ProcessJobEffect(table: map<JobId, QueueRow>, job: QueueRow, lookup: FileLookup, device: DeviceOutcome)
    ensures ApplyWrites(table, JobWrites(job, lookup, device)).Keys == table.Keys
    ensures forall id :: id in table && id != job.id ==>
      ApplyWrites(table, JobWrites(job, lookup, device))[id] == table[id]
    ensures job.id in table ==>
      ApplyWrites(table, JobWrites(job, lookup, device))[job.id] == ProcessedRow(table[job.id], lookup, device)
    ensures job.id in table && lookup.FileFound? ==>
      var row := ApplyWrites(table, JobWrites(job, lookup, device))[job.id];
      && row.status != PrintingStatus
      && (row.status == CompleteStatus <==> device.Printed?)
      && row.printerId == Some(PrinterId)
  {
    if lookup.FileFound? {
      var writes := JobWrites(job, lookup, device);
      ApplyTwoWrites(table, writes[0], writes[1]);
    }
  }

  /** A scanned id whose row exists under that id and is `queued`: what the query matches. */
  predicate Pickable(table: map<JobId, QueueRow>, id: JobId) {
    id in table && table[id].id == id && table[id].status == QueuedStatus
  }

  /** The rows of the ids in `order` that exist and are `queued`, in that order. */
  function QueuedInOrder(table: map<JobId, QueueRow>, order: seq<JobId>): (rows: seq<QueueRow>)
    ensures |rows| <= |order|
    ensures forall i :: 0 <= i < |rows| ==>
      rows[i].id in table && table[rows[i].id] == rows[i] && rows[i].status == QueuedStatus && rows[i].id in order
    ensures NoDuplicates(order) ==> DistinctJobs(rows)
  {
    if order == [] then []
    else
      var id := order[0];
      var rest := QueuedInOrder(table, order[1..]);
      if Pickable(table, id) then [table[id]] + rest else rest
  }

  /** Every queued row the scan reaches is among the matches. */
  lemma {:induction false} QueuedInOrderComplete(table: map<JobId, QueueRow>, order: seq<JobId>)
    ensures forall k :: 0 <= k < |order| && Pickable(table, order[k]) ==>
      table[order[k]] in QueuedInOrder(table, order)
  {
    if order != [] {
      QueuedInOrderComplete(table, order[1..]);
      forall k | 0 <= k < |order| && Pickable(table, order[k])
        ensures table[order[k]] in QueuedInOrder(table, order)
      {
        if k > 0 {
          assert order[1..][k - 1] == order[k];
        }
      }
    }
  }

  /** The rows come in the order in which the scan reaches their ids. */
  ghost predicate InScanOrder(order: seq<JobId>, rows: seq<QueueRow>) {
    forall i, j :: 0 <= i < j < |rows| ==> Text.IndexOf(order, rows[i].id) < Text.IndexOf(order, rows[j].id)
  }

  /** Rows in the order of the rest of a scan are in the order of the whole scan. */
  lemma ScanOrderShift(order: seq<JobId>, rest: seq<QueueRow>)
    requires |order| > 0
    requires InScanOrder(order[1..], rest)
    requires forall i :: 0 <= i < |rest| ==> Text.IndexOf(order, rest[i].id) == 1 + Text.IndexOf(order[1..], rest[i].id)
    ensures InScanOrder(order, rest)
  {
    forall i, j | 0 <= i < j < |rest|
      ensures Text.IndexOf(order, rest[i].id) < Text.IndexOf(order, rest[j].id)
    {
      assert Text.IndexOf(order[1..], rest[i].id) < Text.IndexOf(order[1..], rest[j].id);
    }
  }

  /** A row scanned before all others can go in front of them. */
  lemma ScanOrderCons(order: seq<JobId>, head: QueueRow, rest: seq<QueueRow>)
    requires InScanOrder(order, rest)
    requires forall i :: 0 <= i < |rest| ==> Text.IndexOf(order, head.id) < Text.IndexOf(order, rest[i].id)
    ensures InScanOrder(order, [head] + rest)
  {
    var rows := [head] + rest;
    forall i, j | 0 <= i < j < |rows|
      ensures Text.IndexOf(order, rows[i].id) < Text.IndexOf(order, rows[j].id)
    {
      assert rows[j] == rest[j - 1];
      if i > 0 {
        assert rows[i] == rest[i - 1];
      }
    }
  }

  /** In a scan without repeats, the matches come in scan order. */
  lemma {:induction false} QueuedInOrderKeepsScanOrder(table: map<JobId, QueueRow>, order: seq<JobId>)
    requires NoDuplicates(order)
    ensures InScanOrder(order, QueuedInOrder(table, order))
  {
    if order != [] {
      var tail := order[1..];
      assert NoDuplicates(tail) by {
        assert forall i :: 0 <= i < |tail| ==> tail[i] == order[i + 1];
      }
      QueuedInOrderKeepsScanOrder(table, tail);
      var rest := QueuedInOrder(table, tail);
      forall i | 0 <= i < |rest|
        ensures Text.IndexOf(order, rest[i].id) == 1 + Text.IndexOf(tail, rest[i].id)
      {
        var m :| 0 <= m < |tail| && tail[m] == rest[i].id;
        assert order[m + 1] == rest[i].id;
      }
      ScanOrderShift(order, rest);
      if Pickable(table, order[0]) {
        ScanOrderCons(order, table[order[0]], rest);
      }
    }
  }

  /** `.eq('status', 'queued').limit(5)`: the first five queued rows in scan order. */
  function SelectJobs(table: map<JobId, QueueRow>, order: seq<JobId>): (rows: seq<QueueRow>)
    ensures |rows| <= PollLimit
    ensures |rows| == if |QueuedInOrder(table, order)| <= PollLimit then |QueuedInOrder(table, order)| else PollLimit
    ensures rows == QueuedInOrder(table, order)[..|rows|]
    ensures forall i :: 0 <= i < |rows| ==>
      rows[i].id in table && table[rows[i].id] == rows[i] && rows[i].status == QueuedStatus
    ensures NoDuplicates(order) ==> DistinctJobs(rows)
  {
    var queued := QueuedInOrder(table, order);
    if |queued| <= PollLimit then queued else queued[..PollLimit]
  }

  /** The selection is the first queued rows of the scan: they come in scan order, and a
      queued row the scan reaches is left out only when five rows scanned before it were
      selected. */
  lemma SelectJobsTakesFirstQueued(table: map<JobId, QueueRow>, order: seq<JobId>)
    requires NoDuplicates(order)
    ensures var rows := SelectJobs(table, order);
      && InScanOrder(order, rows)
      && (forall k :: 0 <= k < |order| && Pickable(table, order[k]) && table[order[k]] !in rows ==>
            |rows| == PollLimit && forall i :: 0 <= i < |rows| ==> Text.IndexOf(order, rows[i].id) < k)
  {
    var queued := QueuedInOrder(table, order);
    var rows := SelectJobs(table, order);
    QueuedInOrderKeepsScanOrder(table, order);
    QueuedInOrderComplete(table, order);
    assert InScanOrder(order, rows) by {
      forall i, j | 0 <= i < j < |rows|
        ensures Text.IndexOf(order, rows[i].id) < Text.IndexOf(order, rows[j].id)
      {
        assert rows[i] == queued[i] && rows[j] == queued[j];
      }
    }
    forall k | 0 <= k < |order| && Pickable(table, order[k]) && table[order[k]] !in rows
      ensures |rows| == PollLimit && forall i :: 0 <= i < |rows| ==> Text.IndexOf(order, rows[i].id) < k
    {
      var m :| 0 <= m < |queued| && queued[m] == table[order[k]];
      assert m >= |rows|;
      assert queued[m].id == order[k];
      assert Text.IndexOf(order, queued[m].id) == k;
      forall i | 0 <= i < |rows|
        ensures Text.IndexOf(order, rows[i].id) < k
      {
        assert rows[i] == queued[i] && i < m;
        assert Text.IndexOf(order, queued[i].id) < Text.IndexOf(order, queued[m].id);
      }
    }
  }

  /** The writes of processing `rows` one after the other, in order. */
  function PollWrites(rows: seq<QueueRow>, lookup: FileId -> FileLookup, device: JobId -> DeviceOutcome): seq<StatusWrite>
  {
    if rows == [] then []
    else
      var last := rows[|rows| - 1];
      PollWrites(rows[..|rows| - 1], lookup, device) + JobWrites(last, lookup(last.fileId), device(last.id))
  }

  lemma PollWritesStep(rows: seq<QueueRow>, i: nat, lookup: FileId -> FileLookup, device: JobId -> DeviceOutcome)
    requires i < |rows|
    ensures PollWrites(rows[..i + 1], lookup, device) ==
      PollWrites(rows[..i], lookup, device) + JobWrites(rows[i], lookup(rows[i].fileId), device(rows[i].id))
  {
    assert rows[..i + 1][..i] == rows[..i];
  }

  /** The results of processing `rows` one after the other. */
  function PollResults(rows: seq<QueueRow>, lookup: FileId -> FileLookup, device: JobId -> DeviceOutcome): (results: seq<bool>)
    ensures |results| == |rows|
    ensures forall k :: 0 <= k < |rows| ==> results[k] == JobSucceeded(lookup(rows[k].fileId), device(rows[k].id))
  {
    if rows == [] then []
    else
      var last := rows[|rows| - 1];
      PollResults(rows[..|rows| - 1], lookup, device) + [JobSucceeded(lookup(last.fileId), device(last.id))]
  }

  /** One more iteration of the poll's loop: its writes, the table they leave, and its
      result. */
  lemma PollStep(table: map<JobId, QueueRow>, rows: seq<QueueRow>, i: nat,
                 lookup: FileId -> FileLookup, device: JobId -> DeviceOutcome)
    requires i < |rows|
    ensures var next := JobWrites(rows[i], lookup(rows[i].fileId), device(rows[i].id));
      && PollWrites(rows[..i + 1], lookup, device) == PollWrites(rows[..i], lookup, device) + next
      && ApplyWrites(table, PollWrites(rows[..i + 1], lookup, device)) ==
           ApplyWrites(ApplyWrites(table, PollWrites(rows[..i], lookup, device)), next)
      && PollResults(rows[..i + 1], lookup, device) ==
           PollResults(rows[..i], lookup, device) + [JobSucceeded(lookup(rows[i].fileId), device(rows[i].id))]
  {
    PollWritesStep(rows, i, lookup, device);
    ApplyWritesAppend(table, PollWrites(rows[..i], lookup, device),
                      JobWrites(rows[i], lookup(rows[i].fileId), device(rows[i].id)));
  }

  /** A poll's writes never add or remove a row. */
  lemma {:induction false} PollKeepsKeys(table: map<JobId, QueueRow>, rows: seq<QueueRow>,
                                         lookup: FileId -> FileLookup, device: JobId -> DeviceOutcome)
    ensures ApplyWrites(table, PollWrites(rows, lookup, device)).Keys == table.Keys
  {
    if rows != [] {
      var init, last := rows[..|rows| - 1], rows[|rows| - 1];
      PollKeepsKeys(table, init, lookup, device);
      var before := PollWrites(init, lookup, device);
      var jw := JobWrites(last, lookup(last.fileId), device(last.id));
      ApplyWritesAppend(table, before, jw);
      ProcessJobEffect(ApplyWrites(table, before), last, lookup(last.fileId), device(last.id));
    }
  }

  /** A row that no processed job names keeps its contents. */
  lemma {:induction false} PollLeavesOthers(table: map<JobId, QueueRow>, rows: seq<QueueRow>,
                                            lookup: FileId -> FileLookup, device: JobId -> DeviceOutcome, id: JobId)
    requires id in table
    requires forall j :: 0 <= j < |rows| ==> rows[j].id != id
    ensures id in ApplyWrites(table, PollWrites(rows, lookup, device))
    ensures ApplyWrites(table, PollWrites(rows, lookup, device))[id] == table[id]
  {
    if rows != [] {
      var n := |rows| - 1;
      var init, last := rows[..n], rows[n];
      assert forall j :: 0 <= j < n ==> init[j] == rows[j];
      PollLeavesOthers(table, init, lookup, device, id);
      var before := PollWrites(init, lookup, device);
      var jw := JobWrites(last, lookup(last.fileId), device(last.id));
      ApplyWritesAppend(table, before, jw);
      assert last.id != id;
      ProcessJobEffect(ApplyWrites(table, before), last, lookup(last.fileId), device(last.id));
    }
  }

  /** Among distinct jobs, each processed row ends as processing it alone would leave it. */
  lemma {:induction false} PollProcessed(table: map<JobId, QueueRow>, rows: seq<QueueRow>,
                                         lookup: FileId -> FileLookup, device: JobId -> DeviceOutcome, j: nat)
    requires DistinctJobs(rows)
    requires forall k :: 0 <= k < |rows| ==> rows[k].id in table
    requires j < |rows|
    ensures rows[j].id in ApplyWrites(table, PollWrites(rows, lookup, device))
    ensures ApplyWrites(table, PollWrites(rows, lookup, device))[rows[j].id] ==
      ProcessedRow(table[rows[j].id], lookup(rows[j].fileId), device(rows[j].id))
  {
    var n := |rows| - 1;
    var init, last := rows[..n], rows[n];
    assert forall k :: 0 <= k < n ==> init[k] == rows[k];
    var before := PollWrites(init, lookup, device);
    var mid := ApplyWrites(table, before);
    var jw := JobWrites(last, lookup(last.fileId), device(last.id));
    ApplyWritesAppend(table, before, jw);
    PollKeepsKeys(table, rows, lookup, device);
    PollKeepsKeys(table, init, lookup, device);
    ProcessJobEffect(mid, last, lookup(last.fileId), device(last.id));
    if j < n {
      PollProcessed(table, init, lookup, device, j);
      assert rows[j].id != last.id;
    } else {
      assert forall k :: 0 <= k < |init| ==> init[k].id != last.id;
      PollLeavesOthers(table, init, lookup, device, last.id);
    }
  }

  /** Processing distinct jobs one at a time: each processed row ends as processing it
      alone would leave it, and every other row stays. */
  lemma PollEffect(table: map<JobId, QueueRow>, rows: seq<QueueRow>,
                   lookup: FileId -> FileLookup, device: JobId -> DeviceOutcome)
    requires DistinctJobs(rows)
    requires forall j :: 0 <= j < |rows| ==> rows[j].id in table
    ensures ApplyWrites(table, PollWrites(rows, lookup, device)).Keys == table.Keys
    ensures forall id :: id in table && (forall j :: 0 <= j < |rows| ==> rows[j].id != id) ==>
      ApplyWrites(table, PollWrites(rows, lookup, device))[id] == table[id]
    ensures forall j :: 0 <= j < |rows| ==>
      ApplyWrites(table, PollWrites(rows, lookup, device))[rows[j].id] ==
        ProcessedRow(table[rows[j].id], lookup(rows[j].fileId), device(rows[j].id))
  {
    PollKeepsKeys(table, rows, lookup, device);
    forall id | id in table && (forall j :: 0 <= j < |rows| ==> rows[j].id != id)
      ensures ApplyWrites(table, PollWrites(rows, lookup, device))[id] == table[id]
    {
      PollLeavesOthers(table, rows, lookup, device, id);
    }
    forall j | 0 <= j < |rows|
      ensures ApplyWrites(table, PollWrites(rows, lookup, device))[rows[j].id] ==
        ProcessedRow(table[rows[j].id], lookup(rows[j].fileId), device(rows[j].id))
    {
      PollProcessed(table, rows, lookup, device, j);
    }
  }

  /** A poll, from the rows the query selected to the table it leaves: only selected rows
      change, a selected row whose file was found ends `complete` or `failed`, one whose
      file was missing stays `queued`, and no row is left `printing` that was not
      `printing` before. */
  lemma PollOutcome(table: map<JobId, QueueRow>, order: seq<JobId>,
                    lookup: FileId -> FileLookup, device: JobId -> DeviceOutcome)
    requires NoDuplicates(order)
    ensures var rows := SelectJobs(table, order);
      var after := ApplyWrites(table, PollWrites(rows, lookup, device));
      && after.Keys == table.Keys
      && (forall id :: id in table && (forall j :: 0 <= j < |rows| ==> rows[j].id != id) ==> after[id] == table[id])
      && (forall j :: 0 <= j < |rows| ==>
            after[rows[j].id].status ==
              if lookup(rows[j].fileId).FileFound? then FinalStatus(device(rows[j].id)) else QueuedStatus)
      && (forall id :: id in table && after[id].status == PrintingStatus ==> after[id] == table[id])
  {
    var rows := SelectJobs(table, order);
    PollEffect(table, rows, lookup, device);
    var after := ApplyWrites(table, PollWrites(rows, lookup, device));
    assert forall j :: 0 <= j < |rows| ==> after[rows[j].id].status != PrintingStatus;
    forall id | id in table && after[id].status == PrintingStatus
      ensures after[id] == table[id]
    {
      assert forall j :: 0 <= j < |rows| ==> rows[j].id != id;
    }
  }

  /** The client's view of the `printer_queue` table, and every status write it made. */
  class PrinterClient {
    var jobs: map<JobId, QueueRow>
    var writeLog: seq<StatusWrite>

    constructor (table: map<JobId, QueueRow>)
      ensures jobs == table && writeLog == []
    {
      jobs := table;
      writeLog := [];
    }

    /** One `update(...).eq('id', id)` with this printer's id. */
    method WriteStatus(id: JobId, status: string)
      modifies this
      ensures jobs == ApplyWrite(old(jobs), StatusWrite(id, status, PrinterId))
      ensures writeLog == old(writeLog) + [StatusWrite(id, status, PrinterId)]
    {
      var w := StatusWrite(id, status, PrinterId);
      if id in jobs {
        jobs := jobs[id := jobs[id].(status := status, printerId := Some(PrinterId))];
      }
      writeLog := writeLog + [w];
    }

    /** `processPrintJob(job)`: `lookup` is the file lookup and `device` the download and
        print. Sets `printing` before the download and the final status after. */
    method ProcessPrintJob(job: QueueRow, lookup: FileLookup, device: DeviceOutcome) returns (ok: bool)
      modifies this
      ensures ok == JobSucceeded(lookup, device)
      ensures writeLog == old(writeLog) + JobWrites(job, lookup, device)
      ensures jobs == ApplyWrites(old(jobs), JobWrites(job, lookup, device))
    {
      ghost var before := jobs;
      if !lookup.FileFound? {
        return false;
      }
      WriteStatus(job.id, PrintingStatus);
      if device.Printed? {
        WriteStatus(job.id, CompleteStatus);
        ok := true;
      } else {
        WriteStatus(job.id, FailedStatus);
        ok := false;
      }
      ApplyTwoWrites(before, StatusWrite(job.id, PrintingStatus, PrinterId), StatusWrite(job.id, FinalStatus(device), PrinterId));
    }

    /** The loop of `pollForPrintJobs`: processes `rows` one at a time, in order. */
    method ProcessAll(rows: seq<QueueRow>, lookup: FileId -> FileLookup, device: JobId -> DeviceOutcome)
      returns (results: seq<bool>)
      modifies this
      ensures writeLog == old(writeLog) + PollWrites(rows, lookup, device)
      ensures jobs == ApplyWrites(old(jobs), PollWrites(rows, lookup, device))
      ensures results == PollResults(rows, lookup, device)
    {
      ghost var table := jobs;
      ghost var log := writeLog;
      results := [];
      var i := 0;
      while i < |rows|
        invariant 0 <= i <= |rows|
        invariant jobs == ApplyWrites(table, PollWrites(rows[..i], lookup, device))
        invariant writeLog == log + PollWrites(rows[..i], lookup, device)
        invariant results == PollResults(rows[..i], lookup, device)
      {
        var job := rows[i];
        var found, outcome := lookup(job.fileId), device(job.id);
        var ok := ProcessPrintJob(job, found, outcome);
        PollStep(table, rows, i, lookup, device);
        results := results + [ok];
        i := i + 1;
      }
      assert rows[..|rows|] == rows;
    }

    /** `pollForPrintJobs`: on a query error nothing changes; otherwise the selected rows
        are processed one at a time in the order the query returned them. `results` are
        the results of `processPrintJob`, which the source discards. */
    method PollForPrintJobs(fetch: FetchOutcome, lookup: FileId -> FileLookup, device: JobId -> DeviceOutcome)
      returns (results: seq<bool>)
      modifies this
      ensures fetch.FetchFailed? ==> jobs == old(jobs) && writeLog == old(writeLog) && results == []
      ensures fetch.Fetched? ==>
        var rows := SelectJobs(old(jobs), fetch.scanOrder);
        && writeLog == old(writeLog) + PollWrites(rows, lookup, device)
        && jobs == ApplyWrites(old(jobs), PollWrites(rows, lookup, device))
        && results == PollResults(rows, lookup, device)
    {
      if fetch.FetchFailed? {
        return [];
      }
      var rows := SelectJobs(jobs, fetch.scanOrder);
      results := ProcessAll(rows, lookup, device);
    }
  }
}
