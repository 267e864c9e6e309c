/** The whole render queue as a machine: any number of clients and callers, the worker, and clients
    being shut down, over the critical sections of RenderQueue.cpp. */
module RenderDevice {
  import opened RenderClient
  import opened RenderBuffers
  import opened RenderSelect
  import F = RenderFences

  /** Where the shutdown of a client stands. */
  datatype CloserAt =
    | Open
    | Dropping(jobs: seq<Job>, wait: bool)   // dropping the references of the cancelled jobs
    | Awaiting                               // in acquire_sem(queueIdleSem)
    | Unlinking                              // about to leave the device's list
    | Shut                                   // ShutdownRenderQueueClient has returned

  /** What the worker is doing with a client. */
  datatype Role =
    | Away
    | Serving(job: Job)              // running the job, then dropping its references
    | Retiring                       // about to retire the job
    | Cancelling(jobs: seq<Job>)     // dropping the references of cancelled jobs
    | Signalling                     // about to release queueIdleSem

  /** A client with its history, its buffers, the count of `queueIdleSem`, its closer and the
      worker's role. */
  datatype Slot = Slot(
    h: F.History,
    buffers: map<nat, Buffer>,
    nextHandle: nat,
    idle: nat,
    closer: CloserAt,
    role: Role)

  datatype WorkerAt = Asleep | Selecting(token: bool) | Busy(id: nat) | Exited

  /** `owed` counts callers that have queued a job and not yet released the queue semaphore. */
  datatype State = State(
    slots: seq<Slot>,
    list: seq<nat>,
    cursor: Option<nat>,
    queued: nat,
    sem: nat,
    owed: nat,
    running: bool,
    worker: WorkerAt)

  const INITIAL := State([], [], None, 0, 0, 0, true, Asleep)
  const NEW_SLOT := Slot(F.INITIAL, map[], 1, 0, Open, Away)

  // ---- one client ------------------------------------------------------------------------

  datatype CallerMove =
    | Create
    | CloseBuffer(handle: nat)
    | Reconfigure(mode: Mode, failNext: bool)
    | QueueJob(handles: seq<nat>, present: Option<nat>)
    | TakeRecord

  datatype WorkerMove =
    | DropActive
    | RetireJob(status: Status, memory: seq<bool>)
    | DropCancelled
    | ClearActive
    | Signal

  datatype CloserMove = BeginClose | DropQueued | Dropped | Await | Unlink

  predicate CallerCan(x: Slot, move: CallerMove, running: bool, queued: nat) {
    && x.closer == Open
    && match move
       case Create => true
       case CloseBuffer(_) => true
       case Reconfigure(mode, failNext) =>
         ConfigureStatus(x.h.c, mode, running, true) == B_OK && F.Enabled(x.h, F.Reconfigure(mode, failNext))
       case QueueJob(handles, present) =>
         && EnqueueStatus(x.h.c, present, running, queued) == B_OK
         && F.Enabled(x.h, F.QueueJob(handles, present, queued))
         && forall i :: 0 <= i < |handles| ==> Usable(x.buffers, handles[i], true)
       case TakeRecord => F.Enabled(x.h, F.TakeRecord)
  }

  function CallerDo(x: Slot, move: CallerMove, running: bool, queued: nat): Slot
    requires CallerCan(x, move, running, queued)
  {
    match move
    case Create => x.(buffers := x.buffers[x.nextHandle := Buffer(0, false)], nextHandle := x.nextHandle + 1)
    case CloseBuffer(handle) => x.(buffers := Closed(x.buffers, handle))
    case Reconfigure(mode, failNext) => x.(h := F.Do(x.h, F.Reconfigure(mode, failNext)))
    case QueueJob(handles, present) =>
      x.(h := F.Do(x.h, F.QueueJob(handles, present, queued)), buffers := AddAll(x.buffers, handles))
    case TakeRecord => x.(h := F.Do(x.h, F.TakeRecord))
  }

  predicate WorkerCan(x: Slot, move: WorkerMove) {
    match move
    case DropActive => x.role.Serving?
    case RetireJob(status, memory) => x.role == Retiring && F.Enabled(x.h, F.RetireJob(status, memory))
    case DropCancelled => x.role.Cancelling? && x.role.jobs != []
    case ClearActive => x.role == Cancelling([]) && F.Enabled(x.h, F.ClearActive)
    case Signal => x.role == Signalling
  }

  /** The jobs a retirement cancels. */
  function CancelledBy(c: Client, status: Status): seq<Job> { if status == B_OK then [] else c.jobs }

  function WorkerDo(x: Slot, move: WorkerMove): Slot
    requires WorkerCan(x, move)
  {
    match move
    case DropActive => x.(buffers := DropAll(x.buffers, x.role.job.handles), role := Retiring)
    case RetireJob(status, memory) =>
      x.(h := F.Do(x.h, F.RetireJob(status, memory)), role := Cancelling(CancelledBy(x.h.c, status)))
    case DropCancelled =>
      x.(buffers := DropAll(x.buffers, x.role.jobs[0].handles), role := Cancelling(x.role.jobs[1..]))
    case ClearActive =>
      x.(h := F.Do(x.h, F.ClearActive), role := if x.h.c.closing then Signalling else Away)
    case Signal => x.(idle := x.idle + 1, role := Away)
  }

  predicate CloserCan(x: Slot, move: CloserMove) {
    match move
    case BeginClose => x.closer == Open && F.Enabled(x.h, F.Close)
    case DropQueued => x.closer.Dropping? && x.closer.jobs != []
    case Dropped => x.closer.Dropping? && x.closer.jobs == []
    case Await => x.closer == Awaiting && x.idle > 0
    case Unlink => x.closer == Unlinking
  }

  function CloserDo(x: Slot, move: CloserMove): Slot
    requires CloserCan(x, move)
  {
    match move
    case BeginClose =>
      x.(h := F.Do(x.h, F.Close), closer := Dropping(x.h.c.jobs, x.h.c.active.Some?))
    case DropQueued =>
      x.(buffers := DropAll(x.buffers, x.closer.jobs[0].handles),
         closer := Dropping(x.closer.jobs[1..], x.closer.wait))
    case Dropped => x.(closer := if x.closer.wait then Awaiting else Unlinking)
    case Await => x.(idle := x.idle - 1, closer := Unlinking)
    case Unlink => x.(closer := Shut)
  }

  /** The worker takes the oldest job. */
  function Taken(x: Slot): Slot
    requires F.Enabled(x.h, F.StartJob)
  {
    x.(h := F.Do(x.h, F.StartJob), role := Serving(x.h.c.jobs[0]))
  }

  // ---- the device --------------------------------------------------------------------------

  datatype Step =
    | Acquire | Interrupted | Select
    | Worker(w: WorkerMove)
    | Caller(id: nat, c: CallerMove)
    | Closer(id: nat, e: CloserMove)
    | Register | Release | Stop

  function Flags(slots: seq<Slot>, list: seq<nat>): (r: seq<bool>)
    requires forall i :: 0 <= i < |list| ==> list[i] < |slots|
    ensures |r| == |list|
  {
    seq(|list|, i requires 0 <= i < |list| => Ready(slots[list[i]].h.c))
  }

  predicate ListOk(s: State) {
    && (forall i :: 0 <= i < |s.list| ==> s.list[i] < |s.slots|)
    && (s.cursor.Some? ==> s.cursor.value < |s.list|)
  }

  /** The client the worker would take now. */
  function Next(s: State): (r: Option<nat>)
    requires ListOk(s)
    ensures r.Some? ==> r.value < |s.list| && Ready(s.slots[s.list[r.value]].h.c)
  {
    Pick(Flags(s.slots, s.list), s.cursor)
  }

  predicate Enabled(s: State, step: Step) {
    match step
    case Acquire => s.worker == Asleep && s.sem > 0
    case Interrupted => s.worker == Asleep
    case Select => s.worker.Selecting? && ListOk(s)
    case Worker(move) => s.worker.Busy? && s.worker.id < |s.slots| && WorkerCan(s.slots[s.worker.id], move)
    case Caller(id, move) => id < |s.slots| && CallerCan(s.slots[id], move, s.running, s.queued)
    case Closer(id, move) => id < |s.slots| && CloserCan(s.slots[id], move)
    case Register => true
    case Release => s.owed > 0
    case Stop => s.running
  }

  function SelectStep(s: State): State
    requires Enabled(s, Select)
  {
    if !s.running then s.(worker := Exited)
    else if Next(s).None? then s.(worker := Asleep)
    else
      var id := s.list[Next(s).value];
      s.(slots := s.slots[id := Taken(s.slots[id])], cursor := Next(s), queued := Decreased(s.queued, 1),
         worker := Busy(id))
  }

  function WorkerStep(s: State, move: WorkerMove): State
    requires Enabled(s, Worker(move))
  {
    var x := s.slots[s.worker.id];
    var y := WorkerDo(x, move);
    s.(slots := s.slots[s.worker.id := y],
       queued := if move.RetireJob? then Decreased(s.queued, |CancelledBy(x.h.c, move.status)|) else s.queued,
       worker := if y.role == Away then Asleep else s.worker)
  }

  function CallerStep(s: State, id: nat, move: CallerMove): State
    requires Enabled(s, Caller(id, move))
  {
    var next := s.(slots := s.slots[id := CallerDo(s.slots[id], move, s.running, s.queued)]);
    if move.QueueJob? then next.(queued := s.queued + 1, owed := s.owed + 1) else next
  }

  /** The first position of `id` in the list, or its length. */
  function PositionOf(list: seq<nat>, id: nat): (k: nat)
    ensures k <= |list| && id !in list[..k] && (k < |list| ==> list[k] == id)
  {
    if list == [] || list[0] == id then 0
    else
      var k := PositionOf(list[1..], id) + 1;
      assert list[..k] == [list[0]] + list[1..][..k - 1];
      k
  }

  function CloserStep(s: State, id: nat, move: CloserMove): State
    requires Enabled(s, Closer(id, move))
  {
    var next := s.(slots := s.slots[id := CloserDo(s.slots[id], move)]);
    match move
    case BeginClose => next.(queued := Decreased(s.queued, |s.slots[id].h.c.jobs|))
    case Unlink =>
      var k := PositionOf(s.list, id);
      if k == |s.list| then next
      else
        next.(list := s.list[..k] + s.list[k + 1..],
              cursor := if s.cursor.None? || s.cursor.value == k then None
                        else if s.cursor.value > k then Some(s.cursor.value - 1) else s.cursor)
    case _ => next
  }

  function Do(s: State, step: Step): State
    requires Enabled(s, step)
  {
    match step
    case Acquire => s.(sem := s.sem - 1, worker := Selecting(true))
    case Interrupted => s.(worker := Selecting(false))
    case Select => SelectStep(s)
    case Worker(move) => WorkerStep(s, move)
    case Caller(id, move) => CallerStep(s, id, move)
    case Closer(id, move) => CloserStep(s, id, move)
    case Register =>
      s.(slots := s.slots + [NEW_SLOT], list := [|s.slots|] + s.list,
         cursor := if s.cursor.Some? then Some(s.cursor.value + 1) else None)
    case Release => s.(owed := s.owed - 1, sem := s.sem + 1)
    case Stop => s.(running := false, owed := s.owed + 1)
  }

  datatype Run = Start | Then(earlier: Run, step: Step)

  /** The state after a run; a step that is not enabled changes nothing. */
  function After(run: Run): State {
    match run
    case Start => INITIAL
    case Then(earlier, step) =>
      var s := After(earlier);
      if Enabled(s, step) then Do(s, step) else s
  }

  /** A caller's step is possible exactly when the client's operation accepts it. */
  lemma CallersAreRefusedExactly(x: Slot, move: CallerMove, running: bool, queued: nat)
    requires x.closer == Open
    ensures CallerCan(x, move, running, queued) <==>
      match move
      case Create | CloseBuffer(_) => true
      case Reconfigure(mode, _) => ConfigureStatus(x.h.c, mode, running, true) == B_OK
      case QueueJob(handles, present) =>
        && EnqueueStatus(x.h.c, present, running, queued) == B_OK
        && forall i :: 0 <= i < |handles| ==> handles[i] in x.buffers && !x.buffers[handles[i]].closePending
      case TakeRecord => x.h.c.records != []
  {
  }

  /** How often a run has taken a step of this kind. */
  function Times(run: Run, kind: Step -> bool): nat {
    match run
    case Start => 0
    case Then(earlier, step) => Times(earlier, kind) + if kind(step) && Enabled(After(earlier), step) then 1 else 0
  }

  predicate IsAcquire(step: Step) { step == Acquire }
  predicate OwesRelease(step: Step) { step == Stop || (step.Caller? && step.c.QueueJob?) }

  /** Every job that is queued, and the stop of the device, wake the worker once, or their release is made
      or owed. */
  lemma {:induction false} WakesAreConserved(run: Run)
    ensures var s := After(run);
      s.sem + s.owed + Times(run, IsAcquire) == Times(run, OwesRelease)
  {
    hide CallerDo, WorkerDo, CloserDo, Taken, Next, Ready, CallerCan, WorkerCan, CloserCan;
    if run.Then? { WakesAreConserved(run.earlier); }
  }

  /** The device never has more jobs queued than it may, however many clients queue them. */
  lemma {:induction false} DeviceQueueIsBounded(run: Run)
    ensures After(run).queued <= MAX_JOBS_PER_DEVICE
  {
    hide CallerDo, WorkerDo, CloserDo, Taken, Next, Ready, WorkerCan, CloserCan, F.Enabled, Usable;
    if run.Then? { DeviceQueueIsBounded(run.earlier); }
  }

  // ---- what holds of every client --------------------------------------------------------------

  /** The fence history is sound while the client is open, the running job is always known. */
  predicate HistoryOk(x: Slot) {
    && F.RunningOk(x.h.c)
    && (x.h.c.closing <==> x.closer != Open)
    && (if x.h.c.closing then x.h.c.jobs == [] else F.Inv(x.h))
  }

  /** The active job is the one the worker holds, and it runs until it is retired. */
  predicate ActiveOk(x: Slot) {
    && (x.h.c.active.Some? <==> x.role.Serving? || x.role == Retiring || x.role.Cancelling?)
    && (x.role.Serving? ==> x.h.c.active == Some(x.role.job))
    && (x.h.c.q.running <==> x.role.Serving? || x.role == Retiring)
  }

  /** The close handshake: the closer waits exactly when the worker was there, and gets exactly one
      signal, after which the worker is gone. */
  predicate HandshakeOk(x: Slot) {
    if x.closer == Open then x.idle == 0 && x.role != Signalling
    else if x.closer == Awaiting || (x.closer.Dropping? && x.closer.wait) then
      x.idle == if x.role == Away then 1 else 0
    else x.role == Away && x.idle == 0
  }

  /** How often the jobs of a list mention a handle. */
  function Mentions(jobs: seq<Job>, h: nat): nat {
    if jobs == [] then 0 else Count(jobs[0].handles, h) + Mentions(jobs[1..], h)
  }

  /** The mentions in jobs whose references are not yet dropped. */
  function Held(x: Slot, h: nat): nat {
    Mentions(x.h.c.jobs, h)
    + (match x.role
       case Serving(job) => Count(job.handles, h)
       case Cancelling(jobs) => Mentions(jobs, h)
       case _ => 0)
    + (if x.closer.Dropping? then Mentions(x.closer.jobs, h) else 0)
  }

  /** The reference count is the number of mentions, a mentioned buffer is there, and a closed one is there
      only while it is mentioned. */
  predicate BufferOk(x: Slot, h: nat) {
    if h in x.buffers then
      && x.buffers[h].refs == Held(x, h) && h < x.nextHandle
      && (x.buffers[h].closePending ==> x.buffers[h].refs > 0)
    else Held(x, h) == 0
  }

  ghost predicate BuffersOk(x: Slot) { forall h: nat :: BufferOk(x, h) }

  ghost predicate SlotOk(x: Slot) {
    HistoryOk(x) && ActiveOk(x) && HandshakeOk(x) && BuffersOk(x)
  }

  // ---- every move of a client keeps it ------------------------------------------------------------

  lemma CallerKeepsHistory(x: Slot, move: CallerMove, running: bool, queued: nat)
    requires HistoryOk(x) && ActiveOk(x) && CallerCan(x, move, running, queued)
    ensures HistoryOk(CallerDo(x, move, running, queued)) && ActiveOk(CallerDo(x, move, running, queued))
  {
    hide F.Inv;
    match move
    case Reconfigure(mode, failNext) => F.StepKeeps(x.h, F.Reconfigure(mode, failNext));
    case QueueJob(handles, present) => F.StepKeeps(x.h, F.QueueJob(handles, present, queued));
    case TakeRecord => F.StepKeeps(x.h, F.TakeRecord);
    case _ =>
  }

  lemma {:induction false} MentionsAppend(jobs: seq<Job>, job: Job, h: nat)
    ensures Mentions(jobs + [job], h) == Mentions(jobs, h) + Count(job.handles, h)
  {
    if jobs == [] {
    } else {
      MentionsAppend(jobs[1..], job, h);
      assert (jobs + [job])[1..] == jobs[1..] + [job];
    }
  }

  /** Marking older presentations as dropped does not change what the jobs mention. */
  lemma {:induction false} SameHandles(a: seq<Job>, b: seq<Job>, h: nat)
    requires |a| == |b| && forall i :: 0 <= i < |a| ==> a[i].handles == b[i].handles
    ensures Mentions(a, h) == Mentions(b, h)
  {
    if a != [] {
      SameHandles(a[1..], b[1..], h);
    }
  }

  /** A queued job holds a reference for every mention, in the buffers as in the count. */
  lemma QueueJobKeepsBuffer(x: Slot, handles: seq<nat>, present: Option<nat>, running: bool, queued: nat, h: nat)
    requires BufferOk(x, h) && CallerCan(x, QueueJob(handles, present), running, queued)
    ensures BufferOk(CallerDo(x, QueueJob(handles, present), running, queued), h)
  {
    hide Count, F.Enabled;
    var fence := x.h.c.q.nextFence;
    var marked := DropAllOlder(x.h.c.jobs, present, fence);
    SameHandles(marked, x.h.c.jobs, h);
    MentionsAppend(marked, Job(fence, handles, present, false), h);
    CountIsPositive(handles, h);
    if h in x.buffers { AddAllAt(x.buffers, handles, h); }
  }

  lemma SameJobsKeepBuffer(x: Slot, move: CallerMove, running: bool, queued: nat, h: nat)
    requires BufferOk(x, h) && BufferOk(x, x.nextHandle) && CallerCan(x, move, running, queued)
    requires !move.QueueJob?
    ensures BufferOk(CallerDo(x, move, running, queued), h)
  {
    hide Mentions, Count;
    match move
    case Create =>
    case CloseBuffer(_) =>
    case Reconfigure(_, _) =>
    case TakeRecord =>
  }

  lemma CallerKeepsBuffer(x: Slot, move: CallerMove, running: bool, queued: nat, h: nat)
    requires BufferOk(x, h) && BufferOk(x, x.nextHandle) && CallerCan(x, move, running, queued)
    ensures BufferOk(CallerDo(x, move, running, queued), h)
  {
    hide BufferOk, CallerDo, CallerCan;
    match move
    case QueueJob(handles, present) => QueueJobKeepsBuffer(x, handles, present, running, queued, h);
    case _ => SameJobsKeepBuffer(x, move, running, queued, h);
  }

  lemma CallerKeeps(x: Slot, move: CallerMove, running: bool, queued: nat)
    requires SlotOk(x) && CallerCan(x, move, running, queued)
    ensures SlotOk(CallerDo(x, move, running, queued))
  {
    CallerKeepsHistory(x, move, running, queued);
    var y := CallerDo(x, move, running, queued);
    assert HandshakeOk(y);
    hide HistoryOk, ActiveOk, HandshakeOk, CallerDo, CallerCan;
    forall h: nat ensures BufferOk(y, h) {
      assert BufferOk(x, h) && BufferOk(x, x.nextHandle);
      CallerKeepsBuffer(x, move, running, queued, h);
    }
  }

  lemma TakenKeeps(x: Slot)
    requires SlotOk(x) && Ready(x.h.c)
    ensures F.Enabled(x.h, F.StartJob) && SlotOk(Taken(x))
  {
    F.StepKeeps(x.h, F.StartJob);
    F.StartSucceeds(x.h.c);
    var y := Taken(x);
    forall h: nat ensures BufferOk(y, h) {
      assert BufferOk(x, h);
    }
    hide F.Inv;
  }

  lemma WorkerKeepsHistory(x: Slot, move: WorkerMove)
    requires HistoryOk(x) && ActiveOk(x) && WorkerCan(x, move)
    ensures HistoryOk(WorkerDo(x, move)) && ActiveOk(WorkerDo(x, move))
  {
    hide F.Inv;
    match move
    case RetireJob(status, memory) =>
      if !x.h.c.closing { F.StepKeeps(x.h, F.RetireJob(status, memory)); }
      F.RetireShape(x.h, status, memory);
      hide Retire;
    case ClearActive =>
      if !x.h.c.closing { F.StepKeeps(x.h, F.ClearActive); }
    case _ =>
  }

  lemma WorkerKeepsBuffer(x: Slot, move: WorkerMove, h: nat)
    requires HistoryOk(x) && ActiveOk(x) && BufferOk(x, h) && WorkerCan(x, move)
    ensures BufferOk(WorkerDo(x, move), h)
  {
    hide F.Inv, Retire;
    match move
    case DropActive => DropAllAt(x.buffers, x.role.job.handles, h);
    case RetireJob(status, memory) => F.RetireShape(x.h, status, memory);
    case DropCancelled => DropAllAt(x.buffers, x.role.jobs[0].handles, h);
    case _ =>
  }

  lemma WorkerKeeps(x: Slot, move: WorkerMove)
    requires SlotOk(x) && WorkerCan(x, move)
    ensures SlotOk(WorkerDo(x, move))
  {
    var y := WorkerDo(x, move);
    WorkerKeepsHistory(x, move);
    assert HandshakeOk(y);
    hide HistoryOk, ActiveOk, HandshakeOk, WorkerDo, WorkerCan;
    forall h: nat ensures BufferOk(y, h) {
      assert BufferOk(x, h);
      WorkerKeepsBuffer(x, move, h);
    }
  }

  lemma CloserKeepsBuffer(x: Slot, move: CloserMove, h: nat)
    requires HistoryOk(x) && BufferOk(x, h) && CloserCan(x, move)
    ensures BufferOk(CloserDo(x, move), h)
  {
    hide F.Inv;
    match move
    case BeginClose => F.CloseShape(x.h);
    case DropQueued => DropAllAt(x.buffers, x.closer.jobs[0].handles, h);
    case _ =>
  }

  lemma CloserKeeps(x: Slot, move: CloserMove)
    requires SlotOk(x) && CloserCan(x, move)
    ensures SlotOk(CloserDo(x, move))
  {
    hide F.Inv;
    var y := CloserDo(x, move);
    if move == BeginClose { F.CloseShape(x.h); }
    assert HistoryOk(y) && ActiveOk(y) && HandshakeOk(y);
    hide HistoryOk, ActiveOk, HandshakeOk, CloserDo, CloserCan;
    forall h: nat ensures BufferOk(y, h) {
      assert BufferOk(x, h);
      CloserKeepsBuffer(x, move, h);
    }
  }

  // ---- what holds of the device -------------------------------------------------------------------

  /** All jobs that are queued anywhere. */
  function Sum(slots: seq<Slot>): nat {
    if slots == [] then 0 else Sum(slots[..|slots| - 1]) + |slots[|slots| - 1].h.c.jobs|
  }

  ghost predicate SlotsOk(s: State) {
    forall id :: 0 <= id < |s.slots| ==> SlotOk(s.slots[id])
  }

  /** The worker is with one client at most. */
  predicate RolesOk(s: State) {
    && (s.worker.Busy? ==> s.worker.id < |s.slots|)
    && forall id :: 0 <= id < |s.slots| ==> (s.slots[id].role != Away <==> s.worker == Busy(id))
  }

  /** The list holds every client that has not shut down, once. */
  predicate ListInv(s: State) {
    && ListOk(s)
    && (forall i, j :: 0 <= i < j < |s.list| ==> s.list[i] != s.list[j])
    && forall id :: 0 <= id < |s.slots| ==> (s.slots[id].closer != Shut <==> id in s.list)
  }

  /** The device counts its jobs exactly, and for every one of them there is a release: made,
      still owed, or taken by the worker that is about to look. */
  predicate TokensOk(s: State) {
    && s.queued == Sum(s.slots)
    && (s.worker != Exited ==> s.sem + s.owed + (if s.worker == Selecting(true) then 1 else 0) >= s.queued)
  }

  ghost predicate Inv(s: State) {
    SlotsOk(s) && RolesOk(s) && ListInv(s) && TokensOk(s)
  }

  // ---- arithmetic of the sum ------------------------------------------------------------------------

  lemma {:induction false} SumUpdate(slots: seq<Slot>, i: nat, y: Slot)
    requires i < |slots|
    ensures Sum(slots[i := y]) + |slots[i].h.c.jobs| == Sum(slots) + |y.h.c.jobs|
  {
    var n := |slots| - 1;
    if i == n {
      assert slots[i := y][..n] == slots[..n];
    } else {
      SumUpdate(slots[..n], i, y);
      assert slots[i := y][..n] == slots[..n][i := y];
    }
  }

  lemma {:induction false} SumZero(slots: seq<Slot>)
    ensures Sum(slots) == 0 <==> forall id :: 0 <= id < |slots| ==> slots[id].h.c.jobs == []
  {
    if slots != [] {
      var n := |slots| - 1;
      SumZero(slots[..n]);
      if Sum(slots) == 0 {
        forall id | 0 <= id < |slots| ensures slots[id].h.c.jobs == [] {
          if id < n { assert slots[..n][id] == slots[id]; }
        }
      } else if Sum(slots[..n]) > 0 {
        var id :| 0 <= id < n && slots[..n][id].h.c.jobs != [];
        assert slots[id].h.c.jobs != [];
      }
    }
  }

  // ---- selection ------------------------------------------------------------------------------------

  /** A client with queued jobs is ready whenever the worker is not with it. */
  lemma QueuedIsReady(x: Slot)
    requires SlotOk(x) && x.role == Away && x.h.c.jobs != []
    ensures Ready(x.h.c) && x.closer == Open
  {
  }

  /** The worker finds somebody if and only if something is queued. */
  lemma NextFindsWork(s: State)
    requires SlotsOk(s) && RolesOk(s) && ListInv(s) && !s.worker.Busy?
    ensures Next(s).None? <==> Sum(s.slots) == 0
  {
    SumZero(s.slots);
    PickFindsAnyReady(Flags(s.slots, s.list), s.cursor);
    if Sum(s.slots) != 0 {
      var id :| 0 <= id < |s.slots| && s.slots[id].h.c.jobs != [];
      QueuedIsReady(s.slots[id]);
      var i :| 0 <= i < |s.list| && s.list[i] == id;
      assert Flags(s.slots, s.list)[i];
    }
  }

  // ---- every step keeps it ----------------------------------------------------------------------------

  lemma SlotsStep(s: State, step: Step)
    requires Inv(s) && Enabled(s, step)
    ensures SlotsOk(Do(s, step))
  {
    hide SlotOk, RolesOk, TokensOk;
    match step
    case Select =>
      if s.running && Next(s).Some? { TakenKeeps(s.slots[s.list[Next(s).value]]); }
    case Worker(move) => WorkerKeeps(s.slots[s.worker.id], move);
    case Caller(id, move) => CallerKeeps(s.slots[id], move, s.running, s.queued);
    case Closer(id, move) => CloserKeeps(s.slots[id], move);
    case Register => NewSlotOk();
    case _ =>
  }

  lemma NewSlotOk()
    ensures SlotOk(NEW_SLOT)
  {
    assert forall h: nat :: BufferOk(NEW_SLOT, h);
  }

  /** Callers and closers leave the worker's role alone. */
  lemma RoleKept(s: State, step: Step)
    requires Enabled(s, step)
    ensures step.Caller? ==> Do(s, step).slots[step.id].role == s.slots[step.id].role
    ensures step.Closer? ==> Do(s, step).slots[step.id].role == s.slots[step.id].role
    ensures step.Caller? || step.Closer? ==> Do(s, step).worker == s.worker
  {
    hide F.Do;
  }

  lemma RolesStep(s: State, step: Step)
    requires RolesOk(s) && Enabled(s, step)
    ensures RolesOk(Do(s, step))
  {
    RoleKept(s, step);
    hide CallerDo, CloserDo, WorkerDo, CallerCan, CloserCan, WorkerCan, F.Do, Next;
    match step
    case Select =>
    case Worker(_) =>
    case Caller(_, _) =>
    case Closer(_, _) =>
    case _ =>
  }

  /** Only an unlink changes who has shut down. */
  lemma ShutKept(s: State, step: Step)
    requires Enabled(s, step) && step != Register && !(step.Closer? && step.e == Unlink)
    ensures var r := Do(s, step);
      && r.list == s.list && |r.slots| == |s.slots|
      && (step != Select ==> r.cursor == s.cursor)
      && forall id :: 0 <= id < |s.slots| ==> (r.slots[id].closer == Shut <==> s.slots[id].closer == Shut)
  {
    hide F.Do, F.Enabled, Next;
    match step
    case Closer(id, move) => { match move case BeginClose => case _ => }
    case Worker(move) => { match move case DropActive => case _ => }
    case Caller(_, move) => { match move case Create => case _ => }
    case _ =>
  }

  lemma ListStep(s: State, step: Step)
    requires ListInv(s) && Enabled(s, step)
    ensures ListInv(Do(s, step))
  {
    if step == Register {
    } else if step.Closer? && step.e == Unlink {
      UnlinkKeepsList(s, step.id);
    } else {
      ShutKept(s, step);
      if step == Select { SelectCursor(s); }
      hide Do, Enabled;
    }
  }

  lemma SelectCursor(s: State)
    requires ListInv(s) && Enabled(s, Select)
    ensures Do(s, Select).cursor.Some? ==> Do(s, Select).cursor.value < |s.list|
  {
  }

  /** The list after the removal of position `k`. */
  lemma RemovalKeepsList(list: seq<nat>, k: nat)
    requires k < |list| && forall i, j :: 0 <= i < j < |list| ==> list[i] != list[j]
    ensures var r := list[..k] + list[k + 1..];
      && (forall i, j :: 0 <= i < j < |r| ==> r[i] != r[j])
      && (forall x :: x in r <==> x in list && x != list[k])
  {
    var r := list[..k] + list[k + 1..];
    forall x | x in list && x != list[k] ensures x in r {
      var i :| 0 <= i < |list| && list[i] == x;
      assert r[if i < k then i else i - 1] == x;
    }
    forall i | 0 <= i < |r| ensures r[i] == list[if i < k then i else i + 1] {
    }
  }

  lemma UnlinkKeepsList(s: State, id: nat)
    requires ListInv(s) && Enabled(s, Closer(id, Unlink))
    ensures ListInv(Do(s, Closer(id, Unlink)))
  {
    var k := PositionOf(s.list, id);
    assert k < |s.list| && s.list[k] == id;
    RemovalKeepsList(s.list, k);
    var r := Do(s, Closer(id, Unlink));
    assert r.list == s.list[..k] + s.list[k + 1..];
    assert forall i :: 0 <= i < |r.list| ==> r.list[i] in r.list;
  }

  /** How a move of a client changes the number of its queued jobs. */
  lemma CallerJobs(x: Slot, move: CallerMove, running: bool, queued: nat)
    requires CallerCan(x, move, running, queued)
    ensures |CallerDo(x, move, running, queued).h.c.jobs| == |x.h.c.jobs| + if move.QueueJob? then 1 else 0
  {
  }

  lemma WorkerJobs(x: Slot, move: WorkerMove)
    requires HistoryOk(x) && WorkerCan(x, move)
    ensures |WorkerDo(x, move).h.c.jobs|
      == |x.h.c.jobs| - if move.RetireJob? then |CancelledBy(x.h.c, move.status)| else 0
  {
    hide F.Inv, Retire;
    if move.RetireJob? { F.RetireShape(x.h, move.status, move.memory); }
  }

  lemma CloserJobs(x: Slot, move: CloserMove)
    requires CloserCan(x, move)
    ensures |CloserDo(x, move).h.c.jobs| == if move == BeginClose then 0 else |x.h.c.jobs|
  {
  }

  lemma {:induction false} SumAtLeast(slots: seq<Slot>, i: nat)
    requires i < |slots|
    ensures |slots[i].h.c.jobs| <= Sum(slots)
  {
    if i < |slots| - 1 { SumAtLeast(slots[..|slots| - 1], i); }
  }

  lemma WorkerTokens(s: State, move: WorkerMove)
    requires Inv(s) && Enabled(s, Worker(move))
    ensures TokensOk(Do(s, Worker(move)))
  {
    hide WorkerDo, WorkerCan, RolesOk, ListInv, Sum, F.Inv, ActiveOk, HandshakeOk, BuffersOk;
    var x := s.slots[s.worker.id];
    SumAtLeast(s.slots, s.worker.id);
    SumUpdate(s.slots, s.worker.id, WorkerDo(x, move));
    WorkerJobs(x, move);
  }

  lemma CallerTokens(s: State, id: nat, move: CallerMove)
    requires TokensOk(s) && Enabled(s, Caller(id, move))
    ensures TokensOk(Do(s, Caller(id, move)))
  {
    hide CallerDo, CallerCan, Sum;
    SumUpdate(s.slots, id, CallerDo(s.slots[id], move, s.running, s.queued));
    CallerJobs(s.slots[id], move, s.running, s.queued);
  }

  lemma CloserTokens(s: State, id: nat, move: CloserMove)
    requires TokensOk(s) && Enabled(s, Closer(id, move))
    ensures TokensOk(Do(s, Closer(id, move)))
  {
    hide CloserDo, CloserCan, Sum;
    SumAtLeast(s.slots, id);
    SumUpdate(s.slots, id, CloserDo(s.slots[id], move));
    CloserJobs(s.slots[id], move);
  }

  lemma TokensStep(s: State, step: Step)
    requires Inv(s) && Enabled(s, step)
    ensures TokensOk(Do(s, step))
  {
    match step
    case Select => SelectTokens(s);
    case Worker(move) => WorkerTokens(s, move);
    case Caller(id, move) => CallerTokens(s, id, move);
    case Closer(id, move) => CloserTokens(s, id, move);
    case Register =>
      assert (s.slots + [NEW_SLOT])[..|s.slots|] == s.slots;
    case _ =>
  }

  lemma SelectTokens(s: State)
    requires Inv(s) && Enabled(s, Select)
    ensures TokensOk(Do(s, Select))
  {
    NextFindsWork(s);
    if s.running && Next(s).Some? {
      var id := s.list[Next(s).value];
      SumUpdate(s.slots, id, Taken(s.slots[id]));
      assert |Taken(s.slots[id]).h.c.jobs| == |s.slots[id].h.c.jobs| - 1;
    }
    hide SlotOk, RolesOk, ListInv, Next;
  }

  lemma {:induction false} InvHolds(run: Run)
    ensures Inv(After(run))
  {
    match run
    case Start =>
    case Then(earlier, step) =>
      InvHolds(earlier);
      var s := After(earlier);
      if Enabled(s, step) {
        SlotsStep(s, step);
        RolesStep(s, step);
        ListStep(s, step);
        TokensStep(s, step);
      }
      hide Do, Enabled, SlotsOk, RolesOk, ListInv, TokensOk;
  }

  // ---- the theorems --------------------------------------------------------------------------------------

  /** Work is never stranded: the device's count is the number of queued jobs, and when the worker
      sleeps without a release made or owed, no client has a job queued. */
  lemma NothingIsStranded(run: Run, s: State)
    requires s == After(run)
    ensures s.queued == Sum(s.slots)
    ensures s.worker == Asleep && s.sem == 0 && s.owed == 0 ==>
      forall id :: 0 <= id < |s.slots| ==> s.slots[id].h.c.jobs == []
  {
    InvHolds(run);
    SumZero(s.slots);
  }

  /** The worker goes back to sleep without a job only when none is queued. */
  lemma ReleasesAreNotWasted(run: Run, s: State)
    requires s == After(run) && s.worker.Selecting? && s.running
    ensures Enabled(s, Select) && (Do(s, Select).worker == Asleep <==> Sum(s.slots) == 0)
  {
    InvHolds(run);
    NextFindsWork(s);
  }

  /** Once the shutdown of a client goes past its wait, and so also when it has returned, the worker
      is not with the client and cannot find it any more. */
  lemma WorkerIsGoneBeforeClose(run: Run, s: State, id: nat)
    requires s == After(run) && id < |s.slots|
    requires s.slots[id].closer == Unlinking || s.slots[id].closer == Shut
    ensures s.worker != Busy(id) && !Ready(s.slots[id].h.c)
    ensures s.slots[id].closer == Shut ==> id !in s.list
  {
    InvHolds(run);
    assert SlotOk(s.slots[id]);
    hide After;
  }

  /** A closer that waits is signalled already or the worker is still with its client. */
  lemma WaitingCloserIsAnswered(run: Run, s: State, id: nat)
    requires s == After(run) && id < |s.slots| && s.slots[id].closer == Awaiting
    ensures s.slots[id].idle == 1 || s.worker == Busy(id)
  {
    InvHolds(run);
    assert SlotOk(s.slots[id]);
    hide After;
  }

  /** The worker can always take its next step with the client it is with. */
  lemma WorkerIsNeverStuck(run: Run, s: State, memory: seq<bool>)
    requires s == After(run) && s.worker.Busy?
    ensures s.worker.id < |s.slots|
    ensures |memory| == 1 + |s.slots[s.worker.id].h.c.jobs| ==>
      exists move :: Enabled(s, Worker(move))
  {
    InvHolds(run);
    var x := s.slots[s.worker.id];
    assert SlotOk(x);
    hide After;
    var move :=
      match x.role
      case Serving(_) => DropActive
      case Retiring => RetireJob(B_OK, memory)
      case Cancelling(jobs) => if jobs == [] then ClearActive else DropCancelled
      case _ => Signal;
    if |memory| == 1 + |x.h.c.jobs| {
      assert Enabled(s, Worker(move));
    }
  }

  /** The reference count of every buffer is the number of its mentions in jobs whose references are
      not dropped yet; a mentioned buffer exists, and a closed one only while it is mentioned; and after
      the shutdown nothing is mentioned. */
  lemma ReferencesAreMentions(run: Run, s: State, id: nat, h: nat)
    requires s == After(run) && id < |s.slots|
    ensures h in s.slots[id].buffers ==> s.slots[id].buffers[h].refs == Held(s.slots[id], h)
    ensures Held(s.slots[id], h) > 0 ==> h in s.slots[id].buffers
    ensures h in s.slots[id].buffers && s.slots[id].buffers[h].closePending ==> Held(s.slots[id], h) > 0
    ensures s.slots[id].closer == Unlinking || s.slots[id].closer == Shut ==> Held(s.slots[id], h) == 0
  {
    InvHolds(run);
    assert SlotOk(s.slots[id]) && BufferOk(s.slots[id], h);
    hide After;
  }

  /** Whatever the other threads do, an open client's fence queries are as exact as for a client on
      its own. */
  lemma FenceAnswersAreExact(run: Run, s: State, id: nat, fence: nat)
    requires s == After(run) && id < |s.slots| && s.slots[id].closer == Open
    ensures var h := s.slots[id].h;
      && (FindFence(h.c, fence) == Unresolved <==> !(1 <= fence <= |h.outcomes|))
      && (1 <= fence <= |h.outcomes| ==>
            (FindFence(h.c, fence) == h.outcomes[fence - 1] <==> F.Answerable(h, fence)))
  {
    InvHolds(run);
    assert SlotOk(s.slots[id]);
    hide After;
    F.AnswersFollow(s.slots[id].h, fence);
  }
}
