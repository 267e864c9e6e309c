/** The loops of RenderQueue.cpp over a client's lists, proved against the operations of
    `RenderClient`. */
module RenderQueue {
  import opened RenderClient
  import opened RenderSelect
  import F = RenderFences

  /** The device's part: the circular list of clients, where the last scan stopped, and the number
      of queued jobs of all clients. `cursor` is the position of the client served last. */
  class RenderQueueDevice {
    var ready: bool
    var queuedJobs: nat
    var clients: seq<RenderQueueClient>
    var cursor: Option<nat>

    constructor ()
      ensures !ready && queuedJobs == 0 && clients == [] && cursor == None
    {
      ready, queuedJobs, clients, cursor := false, 0, [], None;
    }

    predicate CursorOk()
      reads this
    {
      cursor.Some? ==> cursor.value < |clients|
    }

    function ReadyFlags(): seq<bool>
      reads this, clients
    {
      seq(|clients|, i requires 0 <= i < |clients| reads this, clients => Ready(clients[i].View()))
    }

    /** SelectReadyClientLocked: one round of the list from behind the cursor. */
    method SelectReadyClient() returns (picked: Option<nat>)
      requires CursorOk()
      modifies this`cursor
      ensures picked == Pick(old(ReadyFlags()), old(cursor))
      ensures cursor == if picked.Some? then picked else old(cursor)
    {
      if clients == [] { return None; }
      ghost var flags := ReadyFlags();
      ghost var offset: nat := 0;
      var n := |clients|;
      var start := if cursor.Some? && cursor.value + 1 < n then cursor.value + 1 else 0;
      var i := start;
      while true
        invariant offset < n && i == At(start, offset, n)
        invariant PickFrom(flags, start, 0) == PickFrom(flags, start, offset)
        invariant cursor == old(cursor) && flags == ReadyFlags()
        decreases n - offset
      {
        if Ready(clients[i].View()) {
          cursor := Some(i);
          return Some(i);
        }
        i := if i + 1 < n then i + 1 else 0;
        offset := offset + 1;
        if i == start { return None; }
      }
    }

    /** A new client goes to the head of the list. */
    method Register(client: RenderQueueClient)
      requires CursorOk()
      modifies this`clients, this`cursor
      ensures clients == [client] + old(clients) && CursorOk()
      ensures cursor == (if old(cursor).Some? then Some(old(cursor).value + 1) else None)
    {
      clients := [client] + clients;
      if cursor.Some? { cursor := Some(cursor.value + 1); }
    }

    /** The unlink of a client that shuts down: every other client keeps its place, and the cursor
        stays on the same client or is forgotten with its own. */
    method Unlink(client: RenderQueueClient) returns (ghost k: nat)
      requires CursorOk()
      modifies this`clients, this`cursor
      ensures k <= |old(clients)| && client !in old(clients)[..k]
      ensures k == |old(clients)| ==> clients == old(clients) && cursor == old(cursor)
      ensures k < |old(clients)| ==> old(clients)[k] == client
      ensures k < |old(clients)| ==> clients == old(clients)[..k] + old(clients)[k + 1..]
      ensures CursorOk() && (cursor == None <==> old(cursor) == None || old(cursor) == Some(k))
      ensures cursor.Some? ==> clients[cursor.value] == old(clients[cursor.value])
    {
      var i := 0;
      while i < |clients| && clients[i] != client
        invariant 0 <= i <= |clients| && client !in clients[..i]
      {
        i := i + 1;
      }
      k := i;
      if i == |clients| { return; }
      clients := clients[..i] + clients[i + 1..];
      if cursor == Some(i) {
        cursor := None;
      } else if cursor.Some? && cursor.value > i {
        cursor := Some(cursor.value - 1);
      }
    }
  }

  class RenderQueueClient {
    const device: RenderQueueDevice
    var state: QueueState
    var mode: Mode
    var queue: seq<Job>
    var activeJob: Option<Job>
    var completions: seq<Record>
    var lastFailedFence: nat
    var lastFailureStatus: Status
    var counts: Counts
    var failNextSubmission: bool
    var queueLost: bool
    var closing: bool
    /** The count of the completion semaphore. */
    var completionSem: nat
    /** What the allocator has answered. */
    ghost var allocations: seq<bool>

    function View(): Client
      reads this
    {
      Client(state, mode, queue, activeJob, completions, lastFailedFence, lastFailureStatus,
             counts, failNextSubmission, queueLost, closing)
    }

    constructor (device: RenderQueueDevice)
      ensures this.device == device && View() == INITIAL_CLIENT && completionSem == 0
    {
      this.device := device;
      state, mode, queue, activeJob, completions := INITIAL_QUEUE, Safe, [], None, [];
      lastFailedFence, lastFailureStatus := 0, B_OK;
      counts := Counts(0, 0, 0, 0);
      failNextSubmission, queueLost, closing, completionSem := false, false, false, 0;
      allocations := [];
    }

    method PruneCompletion()
      modifies this`completions
      ensures completions == Pruned(old(completions))
    {
      if |completions| < MAX_COMPLETION_RECORDS { return; }
      completions := completions[1..];
    }

    method Allocate() returns (granted: bool)
      modifies this`allocations
      ensures allocations == old(allocations) + [granted]
    {
      granted := *;
      allocations := allocations + [granted];
    }

    /** `granted` is what the allocator answered. */
    method AppendCompletion(job: Job, result: Result, status: Status) returns (granted: bool)
      modifies this`completions, this`allocations
      ensures allocations == old(allocations) + [granted]
      ensures completions == Append(old(completions), Record(job.fence, result, status), granted)
    {
      PruneCompletion();
      granted := Allocate();
      if !granted { return; }
      completions := completions + [Record(job.fence, result, status)];
    }

    /** The locked section in which the worker takes the oldest job. `injected` says that it is to fail
        without being run. */
    method TakeJob() returns (job: Job, injected: bool)
      requires queue != []
      modifies this, device
      ensures injected == old(failNextSubmission) && !failNextSubmission
      ensures View() == StartNext(old(View())) && Some(job) == View().active
      ensures device.queuedJobs == Decreased(old(device.queuedJobs), 1)
      ensures device.ready == old(device.ready) && completionSem == old(completionSem)
    {
      hide Start;
      job := queue[0];
      queue := queue[1..];
      var started := Start(state, job.fence);
      if started.Some? {
        state := started.value;
      } else {
        queueLost := true;
        lastFailedFence := job.fence;
        lastFailureStatus := B_BAD_DATA;
      }
      activeJob := Some(job);
      if device.queuedJobs > 0 { device.queuedJobs := device.queuedJobs - 1; }
      injected := failNextSubmission;
      failNextSubmission := false;
    }

    /** The locked section in which the worker retires the active job. `memory` records what the
        allocator answered for each completion record; every record allocated calls for a signal. */
    method RetireJob(outcome: Status)
      returns (cancelled: seq<Job>, signals: nat, ghost memory: seq<bool>)
      requires activeJob.Some?
      modifies this, device
      ensures |memory| == 1 + |old(queue)|
      ensures View() == Retire(old(View()), outcome, memory)
      ensures cancelled == (if RetireStatus(old(View()), outcome) == B_OK then [] else old(queue))
      ensures allocations == old(allocations) + memory[..1 + |cancelled|]
      ensures signals == Granted(memory[..1 + |cancelled|])
      ensures device.queuedJobs == Decreased(old(device.queuedJobs), |cancelled|)
      ensures device.ready == old(device.ready) && completionSem == old(completionSem)
    {
      hide Finish, RetireComplete, RetireFailed, CancelAll;
      var granted: bool;
      var job := activeJob.value;
      signals, cancelled := 0, [];
      var finished := Finish(state, job.fence);
      var status := if outcome == B_OK && finished.None? then B_BAD_DATA else outcome;
      if status == B_OK {
        granted := CompleteActive();
        if granted { signals := signals + 1; }
        memory := [granted] + seq(|old(queue)|, i => false);
        assert memory[..1] == [granted] && [granted][..0] == [];
        return;
      }
      cancelled := queue;
      granted := FailActive(status);
      if granted { signals := signals + 1; }
      ghost var later: seq<bool>;
      signals, later := CancelJobs(cancelled, signals);
      memory := [granted] + later;
      assert memory[1..] == later && memory[..1 + |cancelled|] == memory;
      GrantedFirst(granted, later);
    }

    lemma {:induction false} GrantedFirst(first: bool, later: seq<bool>)
      ensures Granted([first] + later) == (if first then 1 else 0) + Granted(later)
    {
      if later == [] {
        assert [first] + later == [first] && [first][..0] == [];
      } else {
        assert ([first] + later)[..|later|] == [first] + later[..|later| - 1];
        GrantedFirst(first, later[..|later| - 1]);
      }
    }

    lemma NothingGranted()
      ensures Granted([]) == 0
    {
    }

    lemma GrantedNext(memory: seq<bool>, last: bool)
      ensures (memory + [last])[..|memory|] == memory
      ensures Granted(memory + [last]) == Granted(memory) + (if last then 1 else 0)
    {
      assert (memory + [last])[..|memory|] == memory;
    }

    /** What the worker does with a job once it has run, its references aside: it retires it, releases
        the completion semaphore once for every record, and lets go of the client. */
    method FinishJob(outcome: Status)
      returns (cancelled: seq<Job>, closing: bool, ghost memory: seq<bool>)
      requires activeJob.Some?
      modifies this, device
      ensures |memory| == 1 + |old(queue)|
      ensures View() == Retire(old(View()), outcome, memory).(active := None)
      ensures cancelled == (if RetireStatus(old(View()), outcome) == B_OK then [] else old(queue))
      ensures allocations == old(allocations) + memory[..1 + |cancelled|]
      ensures completionSem == old(completionSem) + Granted(memory[..1 + |cancelled|])
      ensures closing == old(this.closing)
    {
      hide Finish, RetireComplete, RetireFailed, CancelAll, RetireStatus;
      var signals;
      cancelled, signals, memory := RetireJob(outcome);
      RetiringKeepsClosing(old(View()), outcome, memory);
      for i := 0 to signals
        invariant View() == Retire(old(View()), outcome, memory)
        invariant completionSem == old(completionSem) + i
        invariant allocations == old(allocations) + memory[..1 + |cancelled|]
      {
        completionSem := completionSem + 1;
      }
      activeJob := None;
      closing := this.closing;
    }

    lemma RetiringKeepsClosing(c: Client, status: Status, memory: seq<bool>)
      requires c.active.Some? && |memory| == 1 + |c.jobs|
      ensures Retire(c, status, memory).closing == c.closing
    {
      hide Finish, Append;
      if RetireStatus(c, status) != B_OK {
        F.CancelAllKeeps(RetireFailed(c, RetireStatus(c, status), memory[0]), c.jobs, memory[1..]);
      }
    }

    method CompleteActive() returns (granted: bool)
      requires activeJob.Some?
      modifies this
      ensures View() == RetireComplete(old(View()), granted) && completionSem == old(completionSem)
      ensures allocations == old(allocations) + [granted]
    {
      hide Finish, OrElse, Append;
      var job := activeJob.value;
      state := OrElse(Finish(state, job.fence), state);
      counts := counts.(completed := counts.completed + 1);
      granted := AppendCompletion(job, Complete, B_OK);
    }

    method FailActive(status: Status) returns (granted: bool)
      requires activeJob.Some?
      modifies this
      ensures View() == RetireFailed(old(View()), status, granted) && completionSem == old(completionSem)
      ensures allocations == old(allocations) + [granted]
    {
      hide Finish, OrElse, Append;
      var job := activeJob.value;
      state := OrElse(Finish(state, job.fence), state);
      queueLost := true;
      lastFailedFence := job.fence;
      lastFailureStatus := status;
      counts := counts.(failed := counts.failed + 1);
      granted := AppendCompletion(job, Failed, status);
      queue := [];
    }

    method CancelJob(job: Job) returns (granted: bool)
      modifies this`state, this`counts, this`completions, this`allocations, device`queuedJobs
      ensures View() == CancelOne(old(View()), job, granted) && allocations == old(allocations) + [granted]
      ensures device.queuedJobs == Decreased(old(device.queuedJobs), 1)
    {
      hide CancelQueued, OrElse, Append;
      state := OrElse(CancelQueued(state, job.fence), state);
      if device.queuedJobs > 0 { device.queuedJobs := device.queuedJobs - 1; }
      counts := counts.(cancelled := counts.cancelled + 1);
      granted := AppendCompletion(job, Cancelled, B_CANCELED);
    }

    method CancelJobs(jobs: seq<Job>, soFar: nat) returns (signals: nat, ghost memory: seq<bool>)
      modifies this`state, this`counts, this`completions, this`allocations, device`queuedJobs
      ensures |memory| == |jobs| && View() == CancelAll(old(View()), jobs, memory)
      ensures device.queuedJobs == Decreased(old(device.queuedJobs), |jobs|)
      ensures signals == soFar + Granted(memory) && allocations == old(allocations) + memory
    {
      hide CancelOne, Granted;
      assert Granted([]) == 0 by { NothingGranted(); }
      signals, memory := soFar, [];
      ghost var before := View();
      for i := 0 to |jobs|
        invariant |memory| == i && View() == CancelAll(before, jobs[..i], memory)
        invariant device.queuedJobs == Decreased(old(device.queuedJobs), i)
        invariant signals == soFar + Granted(memory) && allocations == old(allocations) + memory
      {
        var granted := CancelJob(jobs[i]);
        if granted { signals := signals + 1; }
        assert jobs[..i + 1][..i] == jobs[..i];
        GrantedNext(memory, granted);
        memory := memory + [granted];
      }
      assert jobs[..|jobs|] == jobs;
    }

    /** The locked section of EnqueueRenderCommands and EnqueueRenderDirectPresent. */
    method EnqueueJob(handles: seq<nat>, present: Option<nat>) returns (status: Status, fence: nat)
      modifies this, device
      ensures status == EnqueueStatus(old(View()), present, device.ready, old(device.queuedJobs))
      ensures status == B_NOT_ALLOWED <==>
        !device.ready || old(closing || queueLost || (if present.Some? then mode != DirectPresent else mode == Safe))
      ensures status in {B_OK, B_NOT_ALLOWED, B_WOULD_BLOCK}
      ensures status == B_OK ==>
        && CanQueue(old(state), old(device.queuedJobs))
        && View() == Enqueue(old(View()), handles, present, old(device.queuedJobs))
        && device.queuedJobs == old(device.queuedJobs) + 1
        && fence == old(state).nextFence
      ensures status != B_OK ==> View() == old(View()) && device.queuedJobs == old(device.queuedJobs)
      ensures device.ready == old(device.ready) && completionSem == old(completionSem)
    {
      hide DropAllOlder, CanQueue;
      fence := INVALID_FENCE;
      if !device.ready || closing || queueLost
        || (if present.Some? then mode != DirectPresent else mode == Safe) {
        return B_NOT_ALLOWED, fence;
      }
      var queued := Queue(state, device.queuedJobs);
      if queued.None? {
        return B_WOULD_BLOCK, fence;
      }
      fence := state.nextFence;
      state := queued.value;
      DropOlderPresentations(present, fence);
      queue := queue + [Job(fence, handles, present, false)];
      device.queuedJobs := device.queuedJobs + 1;
      counts := counts.(submitted := counts.submitted + 1);
      status := B_OK;
    }

    method DropOlderPresentations(present: Option<nat>, fence: nat)
      modifies this`queue
      ensures queue == DropAllOlder(old(queue), present, fence)
    {
      for i := 0 to |queue|
        invariant |queue| == |old(queue)|
        invariant forall k :: 0 <= k < i ==> queue[k] == DropOlder(old(queue)[k], present, fence)
        invariant forall k :: i <= k < |queue| ==> queue[k] == old(queue)[k]
      {
        queue := queue[i := DropOlder(queue[i], present, fence)];
      }
    }

    method ConfigureQueue(newMode: Mode, failNext: bool, presentable: bool) returns (status: Status)
      modifies this
      ensures status == ConfigureStatus(old(View()), newMode, device.ready, presentable)
      ensures status == B_BUSY <==> old(activeJob.Some? || queue != [])
      ensures status == B_OK <==>
        && old(activeJob.None? && queue == [])
        && (newMode != Safe ==> device.ready) && (newMode == DirectPresent ==> presentable)
      ensures View() == if status == B_OK then Configure(old(View()), newMode, failNext) else old(View())
      ensures completionSem == old(completionSem)
    {
      if activeJob != None || queue != [] { return B_BUSY; }
      if newMode != Safe && !device.ready { return B_NOT_SUPPORTED; }
      if newMode == DirectPresent && !presentable { return B_NOT_SUPPORTED; }
      mode := newMode;
      failNextSubmission := failNext;
      queueLost := false;
      lastFailedFence := 0;
      lastFailureStatus := B_OK;
      return B_OK;
    }

    /** The locked section of ShutdownRenderQueueClient. */
    method BeginShutdown() returns (cancelled: seq<Job>, waitForActive: bool)
      modifies this, device
      ensures View() == BeginClose(old(View())) && cancelled == old(queue)
      ensures waitForActive == old(activeJob).Some?
      ensures device.queuedJobs == Decreased(old(device.queuedJobs), |cancelled|)
      ensures device.ready == old(device.ready) && completionSem == old(completionSem)
    {
      hide CancelQueued, OrElse;
      closing := true;
      cancelled := queue;
      queue := [];
      for i := 0 to |cancelled|
        invariant View() == old(View()).(closing := true, jobs := [], q := CancelFences(old(state), cancelled[..i]))
        invariant device.queuedJobs == Decreased(old(device.queuedJobs), i)
        invariant device.ready == old(device.ready) && completionSem == old(completionSem)
      {
        assert cancelled[..i + 1][..i] == cancelled[..i];
        state := OrElse(CancelQueued(state, cancelled[i].fence), state);
        if device.queuedJobs > 0 { device.queuedJobs := device.queuedJobs - 1; }
      }
      assert cancelled[..|cancelled|] == cancelled;
      waitForActive := activeJob.Some?;
    }

    /** FindFenceLocked: the records are searched first, then the summary fields decide. */
    method FindFenceLocked(fence: nat) returns (answer: Answer)
      ensures answer == FindFence(View(), fence)
    {
      var i := 0;
      while i < |completions|
        invariant 0 <= i <= |completions|
        invariant RecordOf(completions, fence) == RecordOf(completions[i..], fence)
      {
        if completions[i].fence == fence {
          return Answer(completions[i].result, completions[i].status);
        }
        i := i + 1;
      }
      if !Retired(state, fence) { return Unresolved; }
      if lastFailedFence == 0 || fence < lastFailedFence { return Answer(Complete, B_OK); }
      if fence == lastFailedFence { return Answer(Failed, lastFailureStatus); }
      return Answer(Cancelled, B_CANCELED);
    }

    /** One look of WaitRenderQueueFence under the lock: the answer of a resolved fence, a refusal of
        one that was never handed out, or nothing, and then the call sleeps. */
    method CheckFence(fence: nat) returns (answer: Answer, refused: bool)
      ensures answer == FindFence(View(), fence)
      ensures refused <==> answer == Unresolved && fence >= state.nextFence
    {
      answer := FindFenceLocked(fence);
      refused := answer == Unresolved && fence >= state.nextFence;
    }

    /** DequeueRenderCompletion: the oldest record, and with it one signal if there is one. */
    method DequeueCompletion() returns (record: Option<Record>)
      modifies this`completions, this`completionSem
      ensures record == if old(completions) == [] then None else Some(old(completions)[0])
      ensures View() == if record.None? then old(View()) else Dequeue(old(View()))
      ensures completionSem == if record.Some? && old(completionSem) > 0 then old(completionSem) - 1 else old(completionSem)
    {
      if completions == [] { return None; }
      record := Some(completions[0]);
      completions := completions[1..];
      if completionSem > 0 { completionSem := completionSem - 1; }
    }
  }
}
