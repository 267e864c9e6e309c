/** One client of the GPU render queue as a value: the counters of RenderQueueCore.h, the queued and
    the active job, the completion records, and what each operation under the queue lock does to
    them (RenderQueue.cpp). */
module RenderClient {

  const MAX_JOBS_PER_CLIENT: nat := 32
  const MAX_JOBS_PER_DEVICE: nat := 128
  const MAX_COMPLETION_RECORDS: nat := 64
  const INVALID_FENCE: nat := 0
  const UINT64_MAX: nat := 0xFFFF_FFFF_FFFF_FFFF

  datatype Option<+T> = None | Some(value: T)

  datatype Status = B_OK | B_BAD_DATA | B_CANCELED | B_BUSY | B_NOT_SUPPORTED | B_NOT_ALLOWED | B_WOULD_BLOCK
                  | Failure(code: int)

  datatype Mode = Safe | Asynchronous | FailureOnlyReset | DirectPresent

  datatype Result = Complete | Failed | Cancelled

  /** `present` is None for a command job and the stream of a direct presentation otherwise. */
  datatype Job = Job(fence: nat, handles: seq<nat>, present: Option<nat>, drop: bool)

  datatype Record = Record(fence: nat, result: Result, status: Status)

  datatype QueueState = QueueState(
    nextFence: nat,
    lastStartedFence: nat,
    lastRetiredFence: nat,
    queuedJobs: nat,
    running: bool)

  datatype Counts = Counts(submitted: nat, completed: nat, failed: nat, cancelled: nat)

  datatype Client = Client(
    q: QueueState,
    mode: Mode,
    jobs: seq<Job>,
    active: Option<Job>,
    records: seq<Record>,
    lastFailedFence: nat,
    lastFailureStatus: Status,
    counts: Counts,
    failNext: bool,
    lost: bool,
    closing: bool)

  const INITIAL_QUEUE := QueueState(1, 0, 0, 0, false)

  const INITIAL_CLIENT :=
    Client(INITIAL_QUEUE, Safe, [], None, [], 0, B_OK, Counts(0, 0, 0, 0), false, false, false)

  // ---- RenderQueueCore.h -------------------------------------------------------------

  predicate CanQueue(q: QueueState, deviceQueued: nat) {
    && q.nextFence != INVALID_FENCE && q.nextFence != UINT64_MAX
    && q.queuedJobs < MAX_JOBS_PER_CLIENT && deviceQueued < MAX_JOBS_PER_DEVICE
  }

  /** QueueRenderJob; None when the job is refused. The fence handed out is `q.nextFence`. */
  function Queue(q: QueueState, deviceQueued: nat): Option<QueueState> {
    if CanQueue(q, deviceQueued)
    then Some(q.(nextFence := q.nextFence + 1, queuedJobs := q.queuedJobs + 1))
    else None
  }

  function Start(q: QueueState, fence: nat): Option<QueueState> {
    if fence == INVALID_FENCE || q.running || q.queuedJobs == 0 || fence != q.lastRetiredFence + 1
    then None
    else Some(q.(queuedJobs := q.queuedJobs - 1, running := true, lastStartedFence := fence))
  }

  /** FinishRunningRenderJob, which both CompleteRenderJob and FailRenderJob are. */
  function Finish(q: QueueState, fence: nat): Option<QueueState> {
    if !q.running || fence == INVALID_FENCE || fence != q.lastStartedFence
       || fence != q.lastRetiredFence + 1
    then None
    else Some(q.(running := false, lastRetiredFence := fence))
  }

  function CancelQueued(q: QueueState, fence: nat): Option<QueueState> {
    if q.running || q.queuedJobs == 0 || fence == INVALID_FENCE || fence != q.lastRetiredFence + 1
    then None
    else Some(q.(queuedJobs := q.queuedJobs - 1, lastRetiredFence := fence))
  }

  /** The callers ignore a refusal of the last three. */
  function OrElse(updated: Option<QueueState>, q: QueueState): QueueState {
    if updated.Some? then updated.value else q
  }

  predicate Retired(q: QueueState, fence: nat) {
    fence != INVALID_FENCE && fence <= q.lastRetiredFence
  }

  // ---- completion records --------------------------------------------------------------

  function Pruned(records: seq<Record>): seq<Record> {
    if |records| < MAX_COMPLETION_RECORDS then records else records[1..]
  }

  /** AppendCompletionLocked: room is made first, so a failed allocation can still cost a record. */
  function Append(records: seq<Record>, record: Record, granted: bool): seq<Record> {
    if granted then Pruned(records) + [record] else Pruned(records)
  }

  /** How many of the records asked for could be allocated. */
  function Granted(memory: seq<bool>): nat {
    if memory == [] then 0
    else Granted(memory[..|memory| - 1]) + (if memory[|memory| - 1] then 1 else 0)
  }

  // ---- the worker ------------------------------------------------------------------------

  predicate Ready(c: Client) {
    !c.closing && !c.lost && c.mode != Safe && c.active == None && c.jobs != []
  }

  /** The oldest job becomes the active one. */
  function StartNext(c: Client): Client
    requires c.jobs != []
  {
    var job := c.jobs[0];
    var started := Start(c.q, job.fence);
    var popped := c.(jobs := c.jobs[1..], active := Some(job), failNext := false);
    if started.Some? then popped.(q := started.value)
    else popped.(lost := true, lastFailedFence := job.fence, lastFailureStatus := B_BAD_DATA)
  }

  function CancelOne(c: Client, job: Job, granted: bool): Client {
    c.(q := OrElse(CancelQueued(c.q, job.fence), c.q),
       counts := c.counts.(cancelled := c.counts.cancelled + 1),
       records := Append(c.records, Record(job.fence, Cancelled, B_CANCELED), granted))
  }

  /** Every job behind a failed one is cancelled, oldest first. */
  function CancelAll(c: Client, jobs: seq<Job>, memory: seq<bool>): Client
    requires |memory| == |jobs|
  {
    if jobs == [] then c
    else
      var n := |jobs| - 1;
      CancelOne(CancelAll(c, jobs[..n], memory[..n]), jobs[n], memory[n])
  }

  /** The status a job retires with: one whose fence cannot be completed has failed. */
  function RetireStatus(c: Client, status: Status): Status
    requires c.active.Some?
  {
    if status == B_OK && Finish(c.q, c.active.value.fence).None? then B_BAD_DATA else status
  }

  function RetireFailed(c: Client, status: Status, granted: bool): Client
    requires c.active.Some?
  {
    var fence := c.active.value.fence;
    c.(q := OrElse(Finish(c.q, fence), c.q), lost := true, lastFailedFence := fence,
       lastFailureStatus := status, counts := c.counts.(failed := c.counts.failed + 1), jobs := [],
       records := Append(c.records, Record(fence, Failed, status), granted))
  }

  function RetireComplete(c: Client, granted: bool): Client
    requires c.active.Some?
  {
    var fence := c.active.value.fence;
    c.(q := OrElse(Finish(c.q, fence), c.q), counts := c.counts.(completed := c.counts.completed + 1),
       records := Append(c.records, Record(fence, Complete, B_OK), granted))
  }

  /** The active job has run: it completes, or it fails and takes the queue with it. */
  function Retire(c: Client, status: Status, memory: seq<bool>): Client
    requires c.active.Some? && |memory| == 1 + |c.jobs|
  {
    var retireStatus := RetireStatus(c, status);
    if retireStatus == B_OK then RetireComplete(c, memory[0])
    else CancelAll(RetireFailed(c, retireStatus, memory[0]), c.jobs, memory[1..])
  }

  // ---- the callers -------------------------------------------------------------------------

  /** Queueing is refused with a status, or the job gets the next fence. A presentation must be
      in direct-present mode; it marks the older ones of its stream as dropped. */
  function EnqueueStatus(c: Client, present: Option<nat>, ready: bool, deviceQueued: nat): Status {
    if !ready || c.closing || c.lost
       || (if present.Some? then c.mode != DirectPresent else c.mode == Safe)
    then B_NOT_ALLOWED
    else if !CanQueue(c.q, deviceQueued) then B_WOULD_BLOCK
    else B_OK
  }

  function DropOlder(job: Job, present: Option<nat>, fence: nat): Job {
    if job.present.Some? && present.Some? && job.fence != INVALID_FENCE && fence != INVALID_FENCE
       && job.present.value != 0 && job.present.value == present.value && job.fence < fence
    then job.(drop := true)
    else job
  }

  function DropAllOlder(jobs: seq<Job>, present: Option<nat>, fence: nat): (r: seq<Job>)
    ensures |r| == |jobs|
    ensures forall i :: 0 <= i < |jobs| ==> r[i] == DropOlder(jobs[i], present, fence)
  {
    if jobs == [] then []
    else
      DropAllOlder(jobs[..|jobs| - 1], present, fence) + [DropOlder(jobs[|jobs| - 1], present, fence)]
  }

  function Enqueue(c: Client, handles: seq<nat>, present: Option<nat>, deviceQueued: nat): Client
    requires CanQueue(c.q, deviceQueued)
  {
    var fence := c.q.nextFence;
    c.(q := OrElse(Queue(c.q, deviceQueued), c.q),
       jobs := DropAllOlder(c.jobs, present, fence) + [Job(fence, handles, present, false)],
       counts := c.counts.(submitted := c.counts.submitted + 1))
  }

  function ConfigureStatus(c: Client, mode: Mode, ready: bool, presentable: bool): Status {
    if c.active.Some? || c.jobs != [] then B_BUSY
    else if mode != Safe && !ready then B_NOT_SUPPORTED
    else if mode == DirectPresent && !presentable then B_NOT_SUPPORTED
    else B_OK
  }

  function Configure(c: Client, mode: Mode, failNext: bool): Client {
    c.(mode := mode, failNext := failNext, lost := false, lastFailedFence := 0, lastFailureStatus := B_OK)
  }

  function Dequeue(c: Client): Client
    requires c.records != []
  {
    c.(records := c.records[1..])
  }

  /** CancelQueuedRenderJob on every queued job, oldest first. */
  function CancelFences(q: QueueState, jobs: seq<Job>): QueueState {
    if jobs == [] then q
    else
      var before := CancelFences(q, jobs[..|jobs| - 1]);
      OrElse(CancelQueued(before, jobs[|jobs| - 1].fence), before)
  }

  /** The locked part of the shutdown of a client: the queue is emptied without records. */
  function BeginClose(c: Client): Client {
    c.(closing := true, jobs := [], q := CancelFences(c.q, c.jobs))
  }

  // ---- asking about a fence ------------------------------------------------------------------

  datatype Answer = Unresolved | Answer(result: Result, status: Status)

  /** The answer from the summary fields alone. */
  function Summary(c: Client, fence: nat): Answer {
    if !Retired(c.q, fence) then Unresolved
    else if c.lastFailedFence == 0 || fence < c.lastFailedFence then Answer(Complete, B_OK)
    else if fence == c.lastFailedFence then Answer(Failed, c.lastFailureStatus)
    else Answer(Cancelled, B_CANCELED)
  }

  /** The first record of a fence, if any. */
  function RecordOf(records: seq<Record>, fence: nat): Option<Record> {
    if records == [] then None
    else if records[0].fence == fence then Some(records[0])
    else RecordOf(records[1..], fence)
  }

  /** FindFenceLocked. */
  function FindFence(c: Client, fence: nat): Answer {
    var record := RecordOf(c.records, fence);
    if record.Some? then Answer(record.value.result, record.value.status) else Summary(c, fence)
  }

  /** `jobs - count`, the way the device's counter is decremented: it stops at zero. */
  function Decreased(count: nat, jobs: nat): nat {
    if jobs <= count then count - jobs else 0
  }
}
