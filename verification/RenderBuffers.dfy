/** Reference counts on the buffers that queued jobs mention: taken when a job is queued, rolled back
    when it is refused, dropped once when the job is done with, and the close that waits for the
    last of them (RenderQueue.cpp, Render.cpp). */
module RenderBuffers {
  import opened RenderClient

  datatype Buffer = Buffer(refs: nat, closePending: bool)

  function Added(buffers: map<nat, Buffer>, handle: nat): map<nat, Buffer>
    requires handle in buffers
  {
    buffers[handle := buffers[handle].(refs := buffers[handle].refs + 1)]
  }

  /** One reference per handle. */
  function AddAll(buffers: map<nat, Buffer>, handles: seq<nat>): (r: map<nat, Buffer>)
    requires forall i :: 0 <= i < |handles| ==> handles[i] in buffers
    ensures r.Keys == buffers.Keys
  {
    if handles == [] then buffers
    else Added(AddAll(buffers, handles[..|handles| - 1]), handles[|handles| - 1])
  }

  /** ReleaseRenderQueueReferences for one handle: the last reference frees a closed buffer. */
  function Dropped(buffers: map<nat, Buffer>, handle: nat): map<nat, Buffer> {
    if handle !in buffers || buffers[handle].refs == 0 then buffers
    else
      var left := buffers[handle].(refs := buffers[handle].refs - 1);
      if left.refs == 0 && left.closePending then buffers - {handle} else buffers[handle := left]
  }

  function DropAll(buffers: map<nat, Buffer>, handles: seq<nat>): map<nat, Buffer> {
    if handles == [] then buffers
    else Dropped(DropAll(buffers, handles[..|handles| - 1]), handles[|handles| - 1])
  }

  /** CloseRenderBuffer. */
  function Closed(buffers: map<nat, Buffer>, handle: nat): map<nat, Buffer> {
    if handle !in buffers then buffers
    else if buffers[handle].refs != 0 then buffers[handle := buffers[handle].(closePending := true)]
    else buffers - {handle}
  }

  /** What one handle must satisfy to be queued; `fit` stands for the domain, quarantine, address
      space and residency checks. */
  predicate Usable(buffers: map<nat, Buffer>, handle: nat, fit: bool) {
    handle in buffers && !buffers[handle].closePending && fit
  }

  // ---- what the operations do to each buffer -------------------------------------------------

  /** How often a handle is mentioned. */
  function Count(handles: seq<nat>, h: nat): nat {
    if handles == [] then 0
    else Count(handles[..|handles| - 1], h) + if handles[|handles| - 1] == h then 1 else 0
  }

  lemma {:induction false} CountIsPositive(handles: seq<nat>, h: nat)
    ensures Count(handles, h) > 0 <==> h in handles
  {
    if handles == [] {
    } else {
      CountIsPositive(handles[..|handles| - 1], h);
      assert handles == handles[..|handles| - 1] + [handles[|handles| - 1]];
    }
  }

  function Find(buffers: map<nat, Buffer>, handle: nat): Option<Buffer> {
    if handle in buffers then Some(buffers[handle]) else None
  }

  /** The buffer after `n` references to it were dropped; None once it is freed. */
  function AfterDrops(buffer: Buffer, n: nat): Option<Buffer>
    requires n <= buffer.refs
  {
    if n > 0 && n == buffer.refs && buffer.closePending then None
    else Some(buffer.(refs := buffer.refs - n))
  }

  /** A buffer gains one reference for every mention. */
  lemma {:induction false} AddAllAt(buffers: map<nat, Buffer>, handles: seq<nat>, h: nat)
    requires forall i :: 0 <= i < |handles| ==> handles[i] in buffers
    requires h in buffers
    ensures AddAll(buffers, handles)[h] == buffers[h].(refs := buffers[h].refs + Count(handles, h))
  {
    if handles != [] {
      AddAllAt(buffers, handles[..|handles| - 1], h);
    }
  }

  /** Dropping a job's references takes from every buffer as many as the job mentions it, and frees
      exactly the closed buffers whose last references these were. */
  lemma {:induction false} DropAllAt(buffers: map<nat, Buffer>, handles: seq<nat>, h: nat)
    requires h in buffers ==> Count(handles, h) <= buffers[h].refs
    ensures Find(DropAll(buffers, handles), h)
      == if h in buffers then AfterDrops(buffers[h], Count(handles, h)) else None
  {
    if handles != [] {
      DropAllAt(buffers, handles[..|handles| - 1], h);
    }
  }

  /** A buffer that is closed is freed with the last reference on it and not before, no job can take a new
      one, and no other buffer notices. */
  lemma ClosedIsFreedExactly(buffers: map<nat, Buffer>, closed: nat, handles: seq<nat>, h: nat)
    requires closed in buffers ==> Count(handles, closed) <= buffers[closed].refs
    requires h in buffers ==> Count(handles, h) <= buffers[h].refs
    ensures var left := DropAll(Closed(buffers, closed), handles);
      && (closed in left <==> closed in buffers && Count(handles, closed) < buffers[closed].refs)
      && (forall fit :: !Usable(left, closed, fit))
      && (h != closed ==> Find(left, h) == Find(DropAll(buffers, handles), h))
  {
    hide DropAll, Count;
    DropAllAt(Closed(buffers, closed), handles, closed);
    if h != closed {
      DropAllAt(Closed(buffers, closed), handles, h);
      DropAllAt(buffers, handles, h);
    }
  }

  /** Taking references and dropping the same ones changes nothing, as long as no buffer is closed
      in between: the rollback of a refused job is exact. */
  lemma DropUndoesAdd(buffers: map<nat, Buffer>, handles: seq<nat>)
    requires forall i :: 0 <= i < |handles| ==> handles[i] in buffers && !buffers[handles[i]].closePending
    ensures DropAll(AddAll(buffers, handles), handles) == buffers
  {
    var all := AddAll(buffers, handles);
    var dropped := DropAll(all, handles);
    forall h: nat ensures Find(dropped, h) == Find(buffers, h) {
      if h in buffers { AddAllAt(buffers, handles, h); }
      CountIsPositive(handles, h);
      DropAllAt(all, handles, h);
    }
    assert forall h: nat :: h in dropped <==> Find(dropped, h).Some?;
    assert forall h: nat :: h in buffers <==> Find(buffers, h).Some?;
    assert forall h :: h in buffers ==> dropped[h] == Find(dropped, h).value == buffers[h];
  }

  lemma {:induction false} CountPrefix(handles: seq<nat>, i: nat, h: nat)
    requires i <= |handles|
    ensures Count(handles[..i], h) <= Count(handles, h)
    decreases |handles|
  {
    if i == |handles| {
      assert handles[..i] == handles;
    } else {
      var n := |handles| - 1;
      assert handles[..n][..i] == handles[..i];
      CountPrefix(handles[..n], i, h);
    }
  }

  /** During the rollback no buffer is closed, so nothing is freed. */
  lemma PartialDrop(before: map<nat, Buffer>, handles: seq<nat>, i: nat)
    requires i < |handles|
    requires forall k :: 0 <= k < |handles| ==> handles[k] in before && !before[handles[k]].closePending
    ensures var p := DropAll(AddAll(before, handles), handles[..i]);
      handles[i] in p && !p[handles[i]].closePending
  {
    var h := handles[i];
    AddAllAt(before, handles, h);
    CountPrefix(handles, i, h);
    DropAllAt(AddAll(before, handles), handles[..i], h);
  }

  // ---- the loops -----------------------------------------------------------------------------

  class RenderBufferList {
    var buffers: map<nat, Buffer>

    constructor ()
      ensures buffers == map[]
    {
      buffers := map[];
    }

    /** The reference part of EnqueueRenderCommands, with its rollback. `fits` is what the checks of
        domain, quarantine, address space and residency answer for each handle, and `accept` what
        parsing and queueing the job answer once all references are held. */
    method AcquireReferences(handles: seq<nat>, fits: seq<bool>, accept: bool) returns (ok: bool)
      requires |fits| == |handles|
      modifies this
      ensures ok <==> accept && forall i :: 0 <= i < |handles| ==> Usable(old(buffers), handles[i], fits[i])
      ensures ok ==> buffers == AddAll(old(buffers), handles)
      ensures !ok ==> buffers == old(buffers)
    {
      var held := HoldAll(handles, fits);
      if held == |handles| {
        assert handles[..held] == handles;
        if accept { return true; }
      }
      Rollback(handles[..held], old(buffers));
      return false;
    }

    /** References are taken until a buffer is not usable. */
    method HoldAll(handles: seq<nat>, fits: seq<bool>) returns (held: nat)
      requires |fits| == |handles|
      modifies this
      ensures held <= |handles|
      ensures forall i :: 0 <= i < held ==>
        handles[i] in old(buffers) && Usable(old(buffers), handles[i], fits[i])
      ensures held < |handles| ==> !Usable(old(buffers), handles[held], fits[held])
      ensures buffers == AddAll(old(buffers), handles[..held])
    {
      held := 0;
      while held < |handles|
        invariant 0 <= held <= |handles|
        invariant forall i :: 0 <= i < held ==>
          handles[i] in old(buffers) && Usable(old(buffers), handles[i], fits[i])
        invariant buffers == AddAll(old(buffers), handles[..held])
      {
        if handles[held] in old(buffers) { AddAllAt(old(buffers), handles[..held], handles[held]); }
        if !Usable(buffers, handles[held], fits[held]) { return; }
        assert handles[..held + 1][..held] == handles[..held];
        buffers := Added(buffers, handles[held]);
        held := held + 1;
      }
    }

    method Rollback(handles: seq<nat>, ghost before: map<nat, Buffer>)
      requires forall i :: 0 <= i < |handles| ==> handles[i] in before && !before[handles[i]].closePending
      requires buffers == AddAll(before, handles)
      modifies this
      ensures buffers == before
    {
      ghost var all := buffers;
      for i := 0 to |handles|
        invariant buffers == DropAll(all, handles[..i])
      {
        var handle := handles[i];
        assert handles[..i + 1][..i] == handles[..i];
        PartialDrop(before, handles, i);
        if handle in buffers && buffers[handle].refs != 0 {
          buffers := buffers[handle := buffers[handle].(refs := buffers[handle].refs - 1)];
        }
      }
      assert handles[..|handles|] == handles;
      DropUndoesAdd(before, handles);
    }

    /** ReleaseRenderQueueReferences. */
    method ReleaseReferences(handles: seq<nat>)
      modifies this
      ensures buffers == DropAll(old(buffers), handles)
    {
      for i := 0 to |handles|
        invariant buffers == DropAll(old(buffers), handles[..i])
      {
        var handle := handles[i];
        assert handles[..i + 1][..i] == handles[..i];
        if handle !in buffers || buffers[handle].refs == 0 { continue; }
        var left := buffers[handle].(refs := buffers[handle].refs - 1);
        buffers := buffers[handle := left];
        if left.refs != 0 || !left.closePending { continue; }
        buffers := buffers - {handle};
      }
      assert handles[..|handles|] == handles;
    }
  }
}
