/** What a fence query answers against what really became of the fence. */
module RenderFences {
  import opened RenderClient

  /** A client with its history: the true outcome of every retired fence, oldest first, and the
      first fence of the current configuration. */
  datatype History = History(c: Client, outcomes: seq<Answer>, since: nat)

  const INITIAL := History(INITIAL_CLIENT, [], 1)

  datatype Step =
    | QueueJob(handles: seq<nat>, present: Option<nat>, deviceQueued: nat)
    | StartJob
    | RetireJob(status: Status, memory: seq<bool>)
    | ClearActive
    | TakeRecord
    | Reconfigure(mode: Mode, failNext: bool)
    | Close

  /** The guards are those of the operations themselves; `ClearActive` is the worker's last locked
      section for a job. */
  predicate Enabled(h: History, step: Step) {
    match step
    case QueueJob(_, present, queued) => EnqueueStatus(h.c, present, true, queued) == B_OK
    case StartJob => Ready(h.c)
    case RetireJob(_, memory) => h.c.active.Some? && h.c.q.running && |memory| == 1 + |h.c.jobs|
    case ClearActive => h.c.active.Some? && !h.c.q.running
    case TakeRecord => h.c.records != []
    case Reconfigure(mode, _) => ConfigureStatus(h.c, mode, true, true) == B_OK
    case Close => !h.c.closing
  }

  /** What the driver did with the fences a step resolves: the active job has run and its outcome is
      `status`; the jobs behind a failed one are cancelled. */
  function Resolved(c: Client, status: Status): seq<Answer> {
    if status == B_OK then [Answer(Complete, B_OK)]
    else [Answer(Failed, status)] + seq(|c.jobs|, i => Answer(Cancelled, B_CANCELED))
  }

  function Do(h: History, step: Step): History
    requires Enabled(h, step)
  {
    match step
    case QueueJob(handles, present, queued) => h.(c := Enqueue(h.c, handles, present, queued))
    case StartJob => h.(c := StartNext(h.c))
    case RetireJob(status, memory) =>
      h.(c := Retire(h.c, status, memory), outcomes := h.outcomes + Resolved(h.c, status))
    case ClearActive => h.(c := h.c.(active := None))
    case TakeRecord => h.(c := Dequeue(h.c))
    case Reconfigure(mode, failNext) =>
      h.(c := Configure(h.c, mode, failNext), since := h.c.q.nextFence)
    case Close => h.(c := BeginClose(h.c))
  }

  datatype Run = Begin | Then(earlier: Run, step: Step)

  /** The history after a run; a step that is not enabled changes nothing. */
  function After(run: Run): History {
    match run
    case Begin => INITIAL
    case Then(earlier, step) =>
      var h := After(earlier);
      if Enabled(h, step) then Do(h, step) else h
  }

  // ---- what holds of an open client -----------------------------------------------------

  /** The fences that are out: retired ones, at most one running, and the queued ones in order. */
  predicate FencesInOrder(c: Client) {
    var first := c.q.lastRetiredFence + (if c.q.running then 1 else 0) + 1;
    && c.q.nextFence == first + |c.jobs| && c.q.queuedJobs == |c.jobs|
    && (forall i :: 0 <= i < |c.jobs| ==> c.jobs[i].fence == first + i)
    && RunningOk(c)
  }

  /** The running job is the active one and the next to retire. */
  predicate RunningOk(c: Client) {
    c.q.running ==>
      && c.active.Some? && c.active.value.fence == c.q.lastRetiredFence + 1
      && c.q.lastStartedFence == c.q.lastRetiredFence + 1
  }

  /** A lost queue is empty, and a queue in safe mode is too. */
  predicate LostIsEmpty(c: Client) {
    && (c.lost ==> c.jobs == [] && !c.q.running)
    && (c.mode == Safe ==> c.jobs == [])
  }

  /** The summary fields describe the fences of the current configuration. */
  predicate SummaryOk(h: History) {
    && |h.outcomes| == h.c.q.lastRetiredFence
    && 1 <= h.since <= h.c.q.lastRetiredFence + 1
    && (h.c.lastFailedFence == 0 <==> !h.c.lost)
    && (h.c.lost ==> h.since <= h.c.lastFailedFence <= h.c.q.lastRetiredFence)
    && forall i :: h.since - 1 <= i < |h.outcomes| ==> h.outcomes[i] == Summary(h.c, i + 1)
  }

  predicate RecordOk(outcomes: seq<Answer>, r: Record) {
    1 <= r.fence <= |outcomes| && outcomes[r.fence - 1] == Answer(r.result, r.status)
  }

  predicate RecordsOk(h: History) {
    forall i :: 0 <= i < |h.c.records| ==> RecordOk(h.outcomes, h.c.records[i])
  }

  /** No job is lost or counted twice. */
  predicate JobsAccounted(c: Client) {
    && c.counts.submitted + 1 == c.q.nextFence
    && c.counts.submitted
    == c.counts.completed + c.counts.failed + c.counts.cancelled + |c.jobs| + (if c.q.running then 1 else 0)
  }

  predicate Inv(h: History) {
    FencesInOrder(h.c) && LostIsEmpty(h.c) && SummaryOk(h) && RecordsOk(h) && JobsAccounted(h.c)
  }

  // ---- the worker's calls on the counters always succeed -------------------------------------

  /** StartRenderJob never refuses the oldest job of a ready client. */
  lemma StartSucceeds(c: Client)
    requires FencesInOrder(c) && LostIsEmpty(c) && c.jobs != [] && !c.q.running
    ensures Start(c.q, c.jobs[0].fence).Some?
    ensures FencesInOrder(StartNext(c)) && StartNext(c).q.running
    ensures StartNext(c).lost == c.lost && StartNext(c).lastFailedFence == c.lastFailedFence
  {
    var r := StartNext(c);
    assert forall i :: 0 <= i < |r.jobs| ==> r.jobs[i] == c.jobs[i + 1];
  }

  /** CompleteRenderJob never refuses the running job, so no job turns into B_BAD_DATA. */
  lemma CompleteSucceeds(c: Client, status: Status)
    requires RunningOk(c) && c.q.running
    ensures Finish(c.q, c.active.value.fence).Some? && RetireStatus(c, status) == status
  {
  }

  /** Cancelling the queue behind a failure retires exactly its fences and resolves all of them;
      `rest` further jobs may be queued behind. */
  lemma {:induction false} CancelAllEffect(c: Client, jobs: seq<Job>, memory: seq<bool>,
                                           outcomes: seq<Answer>, rest: nat)
    requires |memory| == |jobs| && !c.q.running && c.q.queuedJobs == |jobs| + rest
    requires |outcomes| == c.q.lastRetiredFence
    requires forall i :: 0 <= i < |jobs| ==> jobs[i].fence == c.q.lastRetiredFence + 1 + i
    requires forall i :: 0 <= i < |c.records| ==> RecordOk(outcomes, c.records[i])
    ensures var r := CancelAll(c, jobs, memory);
      && r == c.(q := c.q.(lastRetiredFence := c.q.lastRetiredFence + |jobs|, queuedJobs := rest),
                 counts := c.counts.(cancelled := c.counts.cancelled + |jobs|), records := r.records)
      && forall i :: 0 <= i < |r.records| ==>
           RecordOk(outcomes + seq(|jobs|, k => Answer(Cancelled, B_CANCELED)), r.records[i])
  {
    if jobs == [] {
      assert outcomes + seq(|jobs|, k => Answer(Cancelled, B_CANCELED)) == outcomes;
    } else {
      var n := |jobs| - 1;
      CancelAllEffect(c, jobs[..n], memory[..n], outcomes, rest + 1);
      var p := CancelAll(c, jobs[..n], memory[..n]);
      var before := outcomes + seq(n, k => Answer(Cancelled, B_CANCELED));
      var after := outcomes + seq(|jobs|, k => Answer(Cancelled, B_CANCELED));
      assert after == before + [Answer(Cancelled, B_CANCELED)];
      AppendKeeps(before, [Answer(Cancelled, B_CANCELED)], p.records,
                  Record(jobs[n].fence, Cancelled, B_CANCELED), memory[n]);
    }
  }

  /** Appending a true record keeps all records true, whether or not memory was found. */
  lemma AppendKeeps(outcomes: seq<Answer>, more: seq<Answer>, records: seq<Record>, record: Record, granted: bool)
    requires forall i :: 0 <= i < |records| ==> RecordOk(outcomes, records[i])
    requires RecordOk(outcomes + more, record)
    ensures var r := Append(records, record, granted);
      forall i :: 0 <= i < |r| ==> RecordOk(outcomes + more, r[i])
  {
    var r := Append(records, record, granted);
    forall i | 0 <= i < |r| ensures RecordOk(outcomes + more, r[i]) {
      if i < |Pruned(records)| {
        var j := if |records| < MAX_COMPLETION_RECORDS then i else i + 1;
        assert r[i] == records[j];
        assert RecordOk(outcomes, records[j]);
      }
    }
  }

  // ---- every step keeps the invariant ------------------------------------------------------

  lemma QueueKeeps(h: History, step: Step)
    requires Inv(h) && Enabled(h, step) && step.QueueJob?
    ensures Inv(Do(h, step))
  {
    var r := Do(h, step).c;
    forall i | 0 <= i < |r.jobs| ensures r.jobs[i].fence == r.q.lastRetiredFence + (if r.q.running then 1 else 0) + 1 + i {
      if i < |h.c.jobs| {
        assert r.jobs[i] == DropOlder(h.c.jobs[i], step.present, h.c.q.nextFence);
      }
    }
    SummaryUnchanged(h, Do(h, step));
  }

  /** Steps that leave the retired fences and the failure fields alone keep the summary true. */
  lemma SummaryUnchanged(h: History, r: History)
    requires SummaryOk(h) && r.outcomes == h.outcomes && r.since == h.since
    requires r.c.q.lastRetiredFence == h.c.q.lastRetiredFence
    requires r.c.lost == h.c.lost && r.c.lastFailedFence == h.c.lastFailedFence
    requires r.c.lastFailureStatus == h.c.lastFailureStatus
    ensures SummaryOk(r)
  {
    forall i | r.since - 1 <= i < |r.outcomes| ensures r.outcomes[i] == Summary(r.c, i + 1) {
      assert h.outcomes[i] == Summary(h.c, i + 1);
    }
  }

  lemma CompleteKeeps(h: History, memory: seq<bool>)
    requires Inv(h) && Enabled(h, RetireJob(B_OK, memory))
    ensures Inv(Do(h, RetireJob(B_OK, memory)))
  {
    var r := Do(h, RetireJob(B_OK, memory));
    CompleteSucceeds(h.c, B_OK);
    var done := Answer(Complete, B_OK);
    var record := Record(h.c.active.value.fence, Complete, B_OK);
    AppendKeeps(h.outcomes, [done], h.c.records, record, memory[0]);
    assert r.c == RetireComplete(h.c, memory[0]);
    hide Append;
    forall i | r.since - 1 <= i < |r.outcomes| ensures r.outcomes[i] == Summary(r.c, i + 1) {
      if i < |h.outcomes| {
        assert h.outcomes[i] == Summary(h.c, i + 1);
      }
    }
  }

  lemma FailKeeps(h: History, status: Status, memory: seq<bool>)
    requires Inv(h) && Enabled(h, RetireJob(status, memory)) && status != B_OK
    ensures Inv(Do(h, RetireJob(status, memory)))
  {
    CompleteSucceeds(h.c, status);
    var fence := h.c.active.value.fence;
    var mid := RetireFailed(h.c, status, memory[0]);
    var outcomes := h.outcomes + [Answer(Failed, status)];
    AppendKeeps(h.outcomes, [Answer(Failed, status)], h.c.records, Record(fence, Failed, status), memory[0]);
    CancelAllEffect(mid, h.c.jobs, memory[1..], outcomes, 0);
    var cancelled := seq(|h.c.jobs|, k => Answer(Cancelled, B_CANCELED));
    var r := Do(h, RetireJob(status, memory));
    assert r.outcomes == outcomes + cancelled;
    FailedSummary(h, r, fence, status);
  }

  /** After a failure the summary fields tell the three parts of the history apart. */
  lemma FailedSummary(h: History, r: History, fence: nat, status: Status)
    requires SummaryOk(h) && FencesInOrder(h.c) && !h.c.lost && h.c.q.running
    requires fence == h.c.q.lastRetiredFence + 1
    requires r.outcomes
      == h.outcomes + [Answer(Failed, status)] + seq(|h.c.jobs|, k => Answer(Cancelled, B_CANCELED))
    requires r.since == h.since && r.c.q.lastRetiredFence == |r.outcomes|
    requires r.c.lost && r.c.lastFailedFence == fence && r.c.lastFailureStatus == status
    requires r.c.q.nextFence == h.c.q.nextFence
    ensures SummaryOk(r)
  {
    forall i | r.since - 1 <= i < |r.outcomes| ensures r.outcomes[i] == Summary(r.c, i + 1) {
      if i < |h.outcomes| {
        assert h.outcomes[i] == Summary(h.c, i + 1);
      }
    }
  }

  lemma StepKeeps(h: History, step: Step)
    requires Inv(h) && Enabled(h, step) && step != Close
    ensures Inv(Do(h, step))
  {
    match step
    case QueueJob(_, _, _) => QueueKeeps(h, step);
    case StartJob =>
      StartSucceeds(h.c);
      SummaryUnchanged(h, Do(h, step));
    case RetireJob(status, memory) =>
      if status == B_OK { CompleteKeeps(h, memory); } else { FailKeeps(h, status, memory); }
    case ClearActive => SummaryUnchanged(h, Do(h, step));
    case TakeRecord => SummaryUnchanged(h, Do(h, step));
    case Reconfigure(_, _) =>
  }

  // ---- what the list operations leave alone ----------------------------------------------------

  lemma {:induction false} CancelAllKeeps(c: Client, jobs: seq<Job>, memory: seq<bool>)
    requires |memory| == |jobs|
    ensures var r := CancelAll(c, jobs, memory);
      && r.closing == c.closing && r.active == c.active && r.jobs == c.jobs && r.failNext == c.failNext
      && r.q.running == c.q.running
  {
    if jobs == [] {
    } else {
      CancelAllKeeps(c, jobs[..|jobs| - 1], memory[..|jobs| - 1]);
    }
  }

  lemma {:induction false} CancelFencesKeeps(q: QueueState, jobs: seq<Job>)
    ensures CancelFences(q, jobs).running == q.running
    ensures q.running ==> CancelFences(q, jobs) == q
  {
    if jobs == [] {
    } else {
      CancelFencesKeeps(q, jobs[..|jobs| - 1]);
    }
  }

  /** Retiring stops the running job and empties the queue only on a failure. */
  lemma RetireShape(h: History, status: Status, memory: seq<bool>)
    requires RunningOk(h.c) && Enabled(h, RetireJob(status, memory))
    ensures var r := Do(h, RetireJob(status, memory)).c;
      && !r.q.running && r.active == h.c.active && r.closing == h.c.closing
      && r.jobs == if status == B_OK then h.c.jobs else []
  {
    CompleteSucceeds(h.c, status);
    if status != B_OK {
      CancelAllKeeps(RetireFailed(h.c, status, memory[0]), h.c.jobs, memory[1..]);
    }
  }

  /** Closing leaves the running job running. */
  lemma CloseShape(h: History)
    requires RunningOk(h.c) && Enabled(h, Close)
    ensures var r := Do(h, Close).c;
      && r.closing && r.jobs == [] && r.active == h.c.active && r.q.running == h.c.q.running
      && RunningOk(r)
  {
    CancelFencesKeeps(h.c.q, h.c.jobs);
  }

  /** A client stays closing once it is. */
  lemma CloseIsFinal(h: History, step: Step)
    requires Enabled(h, step) && h.c.closing
    ensures Do(h, step).c.closing
  {
    if step.RetireJob? {
      CancelAllKeeps(RetireFailed(h.c, RetireStatus(h.c, step.status), step.memory[0]), h.c.jobs, step.memory[1..]);
    }
  }

  lemma {:induction false} InvHolds(run: Run)
    ensures After(run).c.closing || Inv(After(run))
  {
    match run
    case Begin =>
    case Then(earlier, step) =>
      InvHolds(earlier);
      var h := After(earlier);
      hide Inv, Do, Enabled;
      if Enabled(h, step) {
        if h.c.closing {
          CloseIsFinal(h, step);
        } else if step == Close {
          CloseCloses(h);
        } else {
          StepKeeps(h, step);
        }
      }
  }

  lemma CloseCloses(h: History)
    requires Enabled(h, Close)
    ensures Do(h, Close).c.closing
  {
  }

  // ---- the theorems ----------------------------------------------------------------------------

  lemma {:induction false} RecordOfIsARecord(records: seq<Record>, fence: nat)
    ensures RecordOf(records, fence).Some? ==> RecordOf(records, fence).value in records
    ensures RecordOf(records, fence).Some? ==> RecordOf(records, fence).value.fence == fence
  {
    if records == [] {
    } else {
      RecordOfIsARecord(records[1..], fence);
    }
  }

  /** On a client that is not closing, a query says that a fence is unresolved exactly when it is,
      and what it says of a resolved fence is the truth if and only if a record of the fence is
      left, or the fence belongs to the current configuration, or it completed. Records that were
      pruned, read or never allocated make no difference within a configuration. */
  lemma FenceAnswerIsExact(run: Run, h: History, fence: nat)
    requires h == After(run) && !h.c.closing
    ensures FindFence(h.c, fence) == Unresolved <==> !(1 <= fence <= |h.outcomes|)
    ensures 1 <= fence <= |h.outcomes| ==>
      (FindFence(h.c, fence) == h.outcomes[fence - 1] <==> Answerable(h, fence))
  {
    InvHolds(run);
    AnswersFollow(h, fence);
  }

  predicate Answerable(h: History, fence: nat) {
    || RecordOf(h.c.records, fence).Some?
    || h.since <= fence
    || (1 <= fence <= |h.outcomes| && h.outcomes[fence - 1] == Answer(Complete, B_OK))
  }

  lemma AnswersFollow(h: History, fence: nat)
    requires Inv(h)
    ensures FindFence(h.c, fence) == Unresolved <==> !(1 <= fence <= |h.outcomes|)
    ensures 1 <= fence <= |h.outcomes| ==>
      (FindFence(h.c, fence) == h.outcomes[fence - 1] <==> Answerable(h, fence))
  {
    RecordOfIsARecord(h.c.records, fence);
    var record := RecordOf(h.c.records, fence);
    if record.Some? {
      var i :| 0 <= i < |h.c.records| && h.c.records[i] == record.value;
      assert RecordOk(h.outcomes, h.c.records[i]);
    }
    hide RecordOf, FencesInOrder, JobsAccounted;
  }

  /** Every job the client was ever given is still queued, running, or counted once. */
  lemma NoJobIsLost(run: Run, h: History)
    requires h == After(run) && !h.c.closing
    ensures h.c.counts.submitted == h.c.q.nextFence - 1
    ensures h.c.counts.submitted
      == h.c.counts.completed + h.c.counts.failed + h.c.counts.cancelled + |h.c.jobs| + (if h.c.q.running then 1 else 0)
  {
    InvHolds(run);
  }

  /** A job fails without a record of it being allocated, and the client configures again. */
  function ForgottenFailure(): Run {
    var queued := Then(Then(Begin, Reconfigure(Asynchronous, false)), QueueJob([], None, 0));
    var failed := Then(Then(Then(queued, StartJob), RetireJob(Failure(-1), [false])), ClearActive);
    Then(failed, Reconfigure(Asynchronous, false))
  }

  /** A failure of an earlier configuration is reported as complete once its record is gone. */
  lemma ReconfigureForgetsFailures()
    ensures var h := After(ForgottenFailure());
      && h.outcomes == [Answer(Failed, Failure(-1))]
      && FindFence(h.c, 1) == Answer(Complete, B_OK)
  {
    var r1 := Then(Begin, Reconfigure(Asynchronous, false));
    var c1 := INITIAL_CLIENT.(mode := Asynchronous);
    assert After(r1) == History(c1, [], 1);
    var r2 := Then(r1, QueueJob([], None, 0));
    var job := Job(1, [], None, false);
    var c2 := c1.(q := QueueState(2, 0, 0, 1, false), jobs := [job], counts := Counts(1, 0, 0, 0));
    assert After(r2) == History(c2, [], 1);
    var r3 := Then(r2, StartJob);
    var c3 := c2.(q := QueueState(2, 1, 0, 0, true), jobs := [], active := Some(job));
    assert After(r3) == History(c3, [], 1);
    var r4 := Then(r3, RetireJob(Failure(-1), [false]));
    var c4 := c3.(q := QueueState(2, 1, 1, 0, false), lost := true, lastFailedFence := 1,
                  lastFailureStatus := Failure(-1), counts := Counts(1, 0, 1, 0));
    assert After(r4) == History(c4, [Answer(Failed, Failure(-1))], 1);
  }

  // ---- dropped presentations ---------------------------------------------------------------------

  /** A later queued job presents the same stream. */
  predicate Superseded(jobs: seq<Job>, i: nat)
    requires i < |jobs|
  {
    jobs[i].present.Some? && jobs[i].present.value != 0
    && exists j :: i < j < |jobs| && jobs[j].present == jobs[i].present
  }

  predicate DropsOk(jobs: seq<Job>) {
    forall i :: 0 <= i < |jobs| ==> (jobs[i].drop <==> Superseded(jobs, i))
  }

  /** A new job supersedes exactly the older presentations of its stream; the others stay as they were. */
  lemma EnqueueDrops(c: Client, handles: seq<nat>, present: Option<nat>, queued: nat)
    requires FencesInOrder(c) && CanQueue(c.q, queued) && DropsOk(c.jobs)
    ensures DropsOk(Enqueue(c, handles, present, queued).jobs)
    ensures var jobs := Enqueue(c, handles, present, queued).jobs;
      forall i :: 0 <= i < |c.jobs| ==>
        && jobs[i] == c.jobs[i].(drop := jobs[i].drop)
        && (jobs[i].drop <==> c.jobs[i].drop || (present.Some? && present.value != 0 && c.jobs[i].present == present))
  {
    var jobs, n := Enqueue(c, handles, present, queued).jobs, |c.jobs|;
    forall i | 0 <= i < |jobs| ensures jobs[i].drop <==> Superseded(jobs, i) {
      if i < n {
        assert c.jobs[i].drop <==> Superseded(c.jobs, i);
        assert forall j :: i < j < n ==> jobs[j].present == c.jobs[j].present;
        if Superseded(c.jobs, i) {
          var j :| i < j < n && c.jobs[j].present == c.jobs[i].present;
          assert jobs[j].present == jobs[i].present;
        }
        assert jobs[n].present == present;
      }
    }
  }

  lemma FirstLeaves(jobs: seq<Job>)
    requires jobs != [] && DropsOk(jobs)
    ensures DropsOk(jobs[1..])
  {
    forall i | 0 <= i < |jobs| - 1 ensures jobs[1..][i].drop <==> Superseded(jobs[1..], i) {
      assert jobs[i + 1].drop <==> Superseded(jobs, i + 1);
      if Superseded(jobs, i + 1) {
        var j :| i + 1 < j < |jobs| && jobs[j].present == jobs[i + 1].present;
        assert jobs[1..][j - 1].present == jobs[1..][i].present;
      }
    }
  }

  lemma DropsStep(h: History, step: Step)
    requires (h.c.closing || Inv(h)) && Enabled(h, step)
    requires DropsOk(h.c.jobs) && (h.c.closing ==> h.c.jobs == [])
    ensures var r := Do(h, step).c; DropsOk(r.jobs) && (r.closing ==> r.jobs == [])
  {
    hide DropsOk, SummaryOk, RecordsOk;
    match step
    case QueueJob(handles, present, queued) => EnqueueDrops(h.c, handles, present, queued);
    case StartJob => FirstLeaves(h.c.jobs);
    case RetireJob(status, memory) =>
      var actual := RetireStatus(h.c, status);
      if actual != B_OK { CancelAllKeeps(RetireFailed(h.c, actual, memory[0]), h.c.jobs, memory[1..]); }
      NoJobsToDrop();
    case Close => NoJobsToDrop();
    case _ =>
  }

  lemma NoJobsToDrop()
    ensures DropsOk([])
  {
  }

  lemma {:induction false} DropsHold(run: Run)
    ensures var c := After(run).c; DropsOk(c.jobs) && (c.closing ==> c.jobs == [])
  {
    match run
    case Begin =>
    case Then(earlier, step) =>
      DropsHold(earlier);
      InvHolds(earlier);
      if Enabled(After(earlier), step) { DropsStep(After(earlier), step); }
      hide Inv, Do, Enabled, DropsOk;
  }

  /** In every reachable history, of the queued presentations of one stream exactly the newest is
      still to be shown; presentations without a stream and command jobs are never dropped. */
  lemma NewestPresentationIsShown(run: Run, i: nat)
    requires i < |After(run).c.jobs|
    ensures After(run).c.jobs[i].drop <==> Superseded(After(run).c.jobs, i)
  {
    DropsHold(run);
    hide After;
  }

  // ---- how much can be queued ------------------------------------------------------------------

  /** However long a client is used, its queue never holds more jobs than it may. */
  lemma {:induction false} QueueIsBounded(run: Run)
    ensures |After(run).c.jobs| <= MAX_JOBS_PER_CLIENT
  {
    hide Enabled, Do;
    if run.Then? {
      QueueIsBounded(run.earlier);
      var h := After(run.earlier);
      if Enabled(h, run.step) {
        InvHolds(run.earlier);
        QueueGrowsWithinBounds(h, run.step);
      }
    }
  }

  lemma QueueGrowsWithinBounds(h: History, step: Step)
    requires Enabled(h, step) && |h.c.jobs| <= MAX_JOBS_PER_CLIENT && (!h.c.closing ==> FencesInOrder(h.c))
    ensures |Do(h, step).c.jobs| <= MAX_JOBS_PER_CLIENT
  {
    hide Start, Finish, CancelQueued, Append;
    match step
    case RetireJob(status, memory) =>
      var retired := RetireStatus(h.c, status);
      if retired != B_OK { CancelAllKeeps(RetireFailed(h.c, retired, memory[0]), h.c.jobs, memory[1..]); }
    case _ =>
  }

  // ---- closing ---------------------------------------------------------------------------------

  /** A shutdown resolves every fence it finds if and only if no job is running. With one running it
      resolves none, and the fences of the queued jobs stay unresolved even when that job has retired. */
  lemma CloseResolvesExactly(run: Run, c: Client, status: Status, memory: seq<bool>)
    requires c == After(run).c && !c.closing && |memory| == 1
    ensures var d := BeginClose(c);
      && ((forall fence: nat :: 0 < fence < c.q.nextFence ==> Retired(d.q, fence)) <==> !c.q.running)
      && (c.q.running ==>
            && d.active.Some?
            && forall fence: nat :: 0 < fence < c.q.nextFence ==>
                 (Retired(Retire(d, status, memory).q, fence) <==> fence <= d.active.value.fence))
  {
    InvHolds(run);
    hide After, SummaryOk, RecordsOk, JobsAccounted, LostIsEmpty, Append;
    if c.q.running {
      CancelFencesKeeps(c.q, c.jobs);
      assert !Retired(BeginClose(c).q, c.active.value.fence);
    } else {
      CancelFencesResolves(c.q, c.jobs);
    }
  }

  lemma {:induction false} CancelFencesResolves(q: QueueState, jobs: seq<Job>)
    requires !q.running && q.queuedJobs >= |jobs|
    requires forall i :: 0 <= i < |jobs| ==> jobs[i].fence == q.lastRetiredFence + 1 + i
    ensures CancelFences(q, jobs)
      == q.(queuedJobs := q.queuedJobs - |jobs|, lastRetiredFence := q.lastRetiredFence + |jobs|)
  {
    if jobs != [] { CancelFencesResolves(q, jobs[..|jobs| - 1]); }
  }

  // ---- injected failures -----------------------------------------------------------------------

  /** A failure was asked for by the latest configuration, and no job has been started since. */
  predicate FailureAsked(run: Run) {
    match run
    case Begin => false
    case Then(earlier, step) =>
      if !Enabled(After(earlier), step) || !(step.Reconfigure? || step.StartJob?) then FailureAsked(earlier)
      else step.Reconfigure? && step.failNext
  }

  /** A failure that is asked for meets exactly the next job that is started. */
  lemma {:induction false} FailureMeetsTheNextJob(run: Run)
    ensures After(run).c.failNext <==> FailureAsked(run)
  {
    hide Enabled;
    if run.Then? {
      FailureMeetsTheNextJob(run.earlier);
      var h := After(run.earlier);
      if Enabled(h, run.step) { OthersLeaveTheInjection(h, run.step); }
    }
  }

  lemma OthersLeaveTheInjection(h: History, step: Step)
    requires Enabled(h, step)
    ensures Do(h, step).c.failNext
      == if step.Reconfigure? then step.failNext else h.c.failNext && !step.StartJob?
  {
    hide Ready, Queue, Start, Finish, CancelQueued, Append;
    match step
    case RetireJob(status, memory) =>
      var retired := RetireStatus(h.c, status);
      if retired != B_OK { CancelAllKeeps(RetireFailed(h.c, retired, memory[0]), h.c.jobs, memory[1..]); }
    case _ =>
  }
}
