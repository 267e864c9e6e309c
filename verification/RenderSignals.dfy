/** The client's operations take the steps of `RenderWait`: what they do to the fences, the records and
    the completion semaphore is what the machine of the waiting calls assumes. */
module RenderSignals {
  import opened RenderClient
  import F = RenderFences
  import W = RenderWait

  /** The fences that a retirement resolves. */
  function Resolves(c: Client, status: Status): nat { if status == B_OK then 1 else 1 + |c.jobs| }

  /** One retirement step of the machine for every answer of the allocator, oldest first. */
  function Retirements(w: W.State, memory: seq<bool>): W.State {
    if memory == [] then w
    else W.Do(Retirements(w, memory[..|memory| - 1]), W.Retire(memory[|memory| - 1]))
  }

  function Signals(w: W.State, n: nat): W.State
    requires n <= w.owed
    ensures Signals(w, n) == w.(owed := w.owed - n, sem := w.sem + n)
  {
    if n == 0 then w else W.Do(Signals(w, n - 1), W.Signal)
  }

  /** The machine has counted what the client has. */
  predicate Counted(w: W.State, c: Client) {
    w.retired == c.q.lastRetiredFence && w.records == |c.records| <= MAX_COMPLETION_RECORDS
  }

  lemma AppendCounts(records: seq<Record>, record: Record, granted: bool)
    requires |records| <= MAX_COMPLETION_RECORDS
    ensures |Append(records, record, granted)|
      == (if |records| < MAX_COMPLETION_RECORDS then |records| else |records| - 1) + (if granted then 1 else 0)
  {
  }

  /** Cancelling job after job is one retirement of the machine after the other. */
  lemma {:induction false} CancelRefines(c: Client, jobs: seq<Job>, memory: seq<bool>, w: W.State)
    requires |memory| == |jobs| && Counted(w, c) && !c.q.running && c.q.queuedJobs >= |jobs|
    requires forall i :: 0 <= i < |jobs| ==> jobs[i].fence == c.q.lastRetiredFence + 1 + i
    ensures var d, r := CancelAll(c, jobs, memory), Retirements(w, memory);
      && Counted(r, d) && r == w.(retired := r.retired, records := r.records, owed := w.owed + Granted(memory))
      && d.q.lastRetiredFence == c.q.lastRetiredFence + |jobs| && !d.q.running
      && d.q.queuedJobs == c.q.queuedJobs - |jobs|
  {
    if jobs != [] {
      var n := |jobs| - 1;
      CancelRefines(c, jobs[..n], memory[..n], w);
      var d := CancelAll(c, jobs[..n], memory[..n]);
      AppendCounts(d.records, Record(jobs[n].fence, Cancelled, B_CANCELED), memory[n]);
      hide Append;
    }
  }

  /** Retiring a job, with whatever it cancels, resolves one fence after the other, appends a record for
      each that memory is granted for, and owes the waiting calls exactly as many signals. */
  lemma RetireRefines(run: F.Run, h: F.History, status: Status, memory: seq<bool>, w: W.State)
    requires h == F.After(run) && !h.c.closing && F.Enabled(h, F.RetireJob(status, memory)) && Counted(w, h.c)
    ensures var used := memory[..Resolves(h.c, status)];
      var d, r := Retire(h.c, status, memory), Retirements(w, used);
      Counted(r, d) && r == w.(retired := w.retired + |used|, records := r.records, owed := w.owed + Granted(used))
  {
    F.InvHolds(run);
    hide F.After, F.SummaryOk, F.RecordsOk, F.JobsAccounted, F.LostIsEmpty, CancelAll, RetireFailed, RetireComplete;
    hide Finish, Retirements, Granted;
    F.CompleteSucceeds(h.c, status);
    if status == B_OK {
      CompleteRefines(h.c, memory[0], w);
      assert memory[..1] == [memory[0]];
      OneRetirement(w, memory[0]);
    } else {
      FailRefines(h.c, status, memory[0], w);
      var w1 := W.Do(w, W.Retire(memory[0]));
      CancelRefines(RetireFailed(h.c, status, memory[0]), h.c.jobs, memory[1..], w1);
      assert memory[..1 + |h.c.jobs|] == [memory[0]] + memory[1..];
      RetirementsJoin(w, memory[0], memory[1..]);
    }
  }

  lemma CompleteRefines(c: Client, granted: bool, w: W.State)
    requires F.RunningOk(c) && c.q.running && Counted(w, c)
    ensures Counted(W.Do(w, W.Retire(granted)), RetireComplete(c, granted))
  {
    AppendCounts(c.records, Record(c.active.value.fence, Complete, B_OK), granted);
    hide Append;
  }

  lemma FailRefines(c: Client, status: Status, granted: bool, w: W.State)
    requires F.RunningOk(c) && c.q.running && Counted(w, c)
    ensures var r := RetireFailed(c, status, granted);
      && Counted(W.Do(w, W.Retire(granted)), r)
      && !r.q.running && r.q.queuedJobs == c.q.queuedJobs && r.q.lastRetiredFence == c.q.lastRetiredFence + 1
  {
    AppendCounts(c.records, Record(c.active.value.fence, Failed, status), granted);
    hide Append;
  }

  lemma OneRetirement(w: W.State, first: bool)
    ensures Retirements(w, [first]) == W.Do(w, W.Retire(first)) && Granted([first]) == if first then 1 else 0
  {
    assert [first][..0] == [];
  }

  lemma {:induction false} RetirementsJoin(w: W.State, first: bool, later: seq<bool>)
    ensures Retirements(w, [first] + later) == Retirements(W.Do(w, W.Retire(first)), later)
    ensures Granted([first] + later) == (if first then 1 else 0) + Granted(later)
  {
    if later == [] {
      assert [first] + later == [first];
      OneRetirement(w, first);
    } else {
      assert ([first] + later)[..|later|] == [first] + later[..|later| - 1];
      RetirementsJoin(w, first, later[..|later| - 1]);
    }
  }

  /** The look of a waiting call at its fence is the machine's check: it finds an answer exactly when the
      fence is resolved. */
  lemma CheckRefines(run: F.Run, h: F.History, w: W.State, i: nat)
    requires h == F.After(run) && !h.c.closing && Counted(w, h.c)
    requires W.Enabled(w, W.Check(i)) && w.waiters[i].fence > 0
    ensures FindFence(h.c, w.waiters[i].fence) != Unresolved
       <==> W.Do(w, W.Check(i)).waiters[i].at == W.Returned
  {
    F.FenceAnswerIsExact(run, h, w.waiters[i].fence);
    F.InvHolds(run);
    hide F.After, FindFence;
  }

  /** Taking a record, and the signal that goes with it, are the machine's two steps. */
  lemma DequeueRefines(c: Client, w: W.State)
    requires Counted(w, c) && c.records != []
    ensures W.Enabled(w, W.TakeRecord) && Counted(W.Do(w, W.TakeRecord), Dequeue(c))
    ensures var r := W.Do(w, W.TakeRecord);
      W.Enabled(r, W.TakeSignal) && W.Do(r, W.TakeSignal).sem == if w.sem > 0 then w.sem - 1 else 0
  {
  }
}
