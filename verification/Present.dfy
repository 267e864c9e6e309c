/** Double-buffered presentation (P0.cpp): a frame is copied to the scanout that is neither shown nor
    armed, then armed. The display latches the armed surface whenever it likes, so every access here
    is preceded by `Display`, which lets it. Each method runs under the present lock from start to
    end; blanking and unblanking also hold the device lock. */
module Present {

  /** What a surface register names: the two private scanouts, the private framebuffer, or anything
      else. */
  datatype Surface = Foreign | Framebuffer | Scanout(index: nat)

  datatype Option<+T> = None | Some(value: T)

  datatype Status = B_OK | B_BAD_DATA | B_TIMED_OUT | B_NOT_SUPPORTED

  /** How one pass of the worker ended. */
  datatype Pass = Sleeping | StillPending | LostScanout | CopyFailed | Armed(target: nat)

  const FRAME_ROWS: int := 768

  /** What the blitter answers to a copy, and the clock to a wait. */
  datatype Answer = Blit(status: Status) | Clock(expired: bool)

  /** A deadline passed among the answers after the first ones. */
  ghost predicate Expired(before: seq<Answer>, after: seq<Answer>) {
    exists i :: |before| <= i < |after| && after[i] == Clock(true)
  }

  /** The answers of one wait: the clock was asked between looks, and only an expired one, the last, ends
      the wait without success. */
  ghost predicate Waited(before: seq<Answer>, after: seq<Answer>, timedOut: bool) {
    && |before| <= |after| && after[..|before|] == before
    && (forall i :: |before| <= i < |after| - 1 ==> after[i] == Clock(false))
    && (|before| < |after| ==> after[|after| - 1] == Clock(timedOut))
    && (timedOut ==> |before| < |after|)
  }

  class PresentDevice {
    // The display.
    var planeEnabled: bool
    var armed: Surface
    var live: Surface

    // The driver.
    var presentEnabled: bool
    var softBlanked: bool
    var presentUsesBcs: bool
    var gpuFaulted: bool
    var activeScanout: Option<nat>
    var pendingScanout: Option<nat>
    var pendingTimedOut: bool
    var presentFrames: nat
    var presentFailures: nat
    var presentStatus: Status

    /** How many rows of each scanout the latest copy to it has written, from the first one on. */
    ghost var rows: seq<nat>
    /** Set when a row is ever written to a scanout that is shown or armed. */
    ghost var torn: bool
    /** What the blitter and the clock have answered. */
    ghost var answers: seq<Answer>

    /** The scanout holds all rows of one frame. */
    ghost predicate Whole(index: nat)
      reads this
    {
      index < |rows| && rows[index] >= FRAME_ROWS
    }

    /** What the display can show next is a whole frame. */
    ghost predicate FramesOk()
      reads this
    {
      && |rows| == 2
      && (armed.Scanout? ==> armed.index < 2 && Whole(armed.index))
      && (live.Scanout? ==> live.index < 2 && Whole(live.index))
      && (pendingScanout.Some? ==> pendingScanout.value < 2)
    }

    /** While presenting, the armed scanout is the pending one, or the one that is shown. */
    ghost predicate PresentingOk()
      reads this
    {
      presentEnabled ==>
        && !softBlanked && armed.Scanout? && live != Framebuffer
        && if pendingScanout.Some? then armed == Scanout(pendingScanout.value)
           else live == armed || live == Foreign
    }

    /** What holds whenever nobody is inside the present lock. */
    ghost predicate Valid()
      reads this
    {
      && FramesOk() && PresentingOk()
      && (softBlanked ==> !presentEnabled && !planeEnabled && armed == Foreign)
    }

    /** StartPresentWorker: the display shows and arms one of the two cleared scanouts. */
    constructor (shown: nat, usesBcs: bool)
      requires shown < 2
      ensures Valid() && !torn && presentEnabled && planeEnabled && !gpuFaulted && presentUsesBcs == usesBcs
      ensures live == Scanout(shown) && activeScanout == Some(shown) && pendingScanout == None && !pendingTimedOut
      ensures presentFrames == 0 && presentFailures == 0 && presentStatus == B_OK
    {
      planeEnabled, armed, live := true, Scanout(shown), Scanout(shown);
      presentEnabled, softBlanked, presentUsesBcs, gpuFaulted := true, false, usesBcs, false;
      activeScanout, pendingScanout, pendingTimedOut := Some(shown), None, false;
      presentFrames, presentFailures, presentStatus := 0, 0, B_OK;
      rows, torn, answers := [FRAME_ROWS, FRAME_ROWS], false, [];
    }

    /** The display may latch the armed surface, or lose what it shows. */
    method Display()
      modifies this`live
      ensures live == old(live) || live == armed || live == Foreign
    {
      if * { live := armed; } else if * { live := Foreign; }
    }

    /** The deadline passes after `patience` more looks at the latest. */
    method AskClock(patience: nat) returns (expired: bool)
      modifies this`answers
      ensures answers == old(answers) + [Clock(expired)]
      ensures patience == 0 ==> expired
    {
      expired := *;
      expired := expired || patience == 0;
      answers := answers + [Clock(expired)];
    }

    ghost predicate Untouched(target: nat)
      reads this
    {
      armed != Scanout(target) && live != Scanout(target)
    }

    /** One row of a copy; row 0 starts a new frame. */
    method WriteRow(target: nat, row: nat)
      requires target < |rows|
      modifies this`torn, this`rows
      ensures torn == (old(torn) || !Untouched(target))
      ensures rows == old(rows)[target := if row == 0 then 1
                                          else if row == old(rows)[target] then row + 1 else old(rows)[target]]
    {
      torn := torn || armed == Scanout(target) || live == Scanout(target);
      if row == 0 {
        rows := rows[target := 1];
      } else if row == rows[target] {
        rows := rows[target := row + 1];
      }
    }

    /** The rows of one copy attempt, by the blitter or by the processor; `count` may fall short when
        the blitter fails. */
    method WriteRows(target: nat, count: int)
      requires target < 2 && FramesOk() && Untouched(target)
      modifies this`live, this`torn, this`rows
      ensures FramesOk() && Untouched(target) && torn == old(torn)
      ensures live == old(live) || live == armed || live == Foreign
      ensures rows[1 - target] == old(rows)[1 - target] && (count >= FRAME_ROWS ==> Whole(target))
    {
      var row := 0;
      while row < count
        invariant FramesOk() && Untouched(target) && torn == old(torn)
        invariant live == old(live) || live == armed || live == Foreign
        invariant rows[1 - target] == old(rows)[1 - target]
        invariant row > 0 ==> row <= count && rows[target] == row
      {
        Display();
        WriteRow(target, row);
        row := row + 1;
      }
    }

    /** SubmitBcsPresent: a copy by the blitter. One that fails may stop half-way and fault the GPU. */
    method SubmitBlit(target: nat) returns (status: Status)
      requires target < 2 && FramesOk() && Untouched(target)
      modifies this`live, this`torn, this`rows, this`gpuFaulted, this`answers
      ensures FramesOk() && Untouched(target) && torn == old(torn)
      ensures live == old(live) || live == armed || live == Foreign
      ensures rows[1 - target] == old(rows)[1 - target] && (status == B_OK ==> Whole(target))
      ensures answers == old(answers) + [Blit(status)]
      ensures status == B_OK ==> gpuFaulted == old(gpuFaulted)
    {
      status := *;
      var count: int := *;
      WriteRows(target, if status == B_OK then FRAME_ROWS else count);
      if status != B_OK { gpuFaulted := *; }
      answers := answers + [Blit(status)];
    }

    /** The processor copies the whole frame. */
    method CopyByProcessor(target: nat)
      requires target < 2 && FramesOk() && Untouched(target)
      modifies this`live, this`torn, this`rows
      ensures FramesOk() && Untouched(target) && torn == old(torn)
      ensures live == old(live) || live == armed || live == Foreign
      ensures rows[1 - target] == old(rows)[1 - target] && Whole(target)
    {
      WriteRows(target, FRAME_ROWS);
    }

    /** A copy is possible: the blitter works, or the processor may stand in for it. */
    predicate CanCopy()
      reads this
    {
      presentUsesBcs || !gpuFaulted
    }

    /** CopyPresentFrameLocked: the blitter first, then the processor unless the GPU has faulted. The
        blitter is given up for good when it fails once. */
    method CopyPresentFrame(target: nat) returns (status: Status)
      requires target < 2 && FramesOk() && Untouched(target)
      modifies this`live, this`torn, this`rows, this`presentUsesBcs, this`gpuFaulted, this`answers
      ensures FramesOk() && Untouched(target) && torn == old(torn)
      ensures live == old(live) || live == armed || live == Foreign
      ensures rows[1 - target] == old(rows)[1 - target] && (status == B_OK ==> Whole(target))
      ensures status == B_OK <==> CanCopy()
      ensures if old(presentUsesBcs)
              then exists blit :: answers == old(answers) + [Blit(blit)] && (presentUsesBcs <==> blit == B_OK)
                                  && (status != B_OK ==> status == blit)
              else !presentUsesBcs && answers == old(answers) && gpuFaulted == old(gpuFaulted)
                   && (status != B_OK ==> status == B_NOT_SUPPORTED)
    {
      status := B_NOT_SUPPORTED;
      if presentUsesBcs {
        status := SubmitBlit(target);
        if status != B_OK { presentUsesBcs := false; }
      }
      if status != B_OK {
        if gpuFaulted { return; }
        CopyByProcessor(target);
        status := B_OK;
      }
    }

    /** The first half of a pass: has the display shown the pending scanout? If not, it is noted once
        that it is late. */
    method NotePending() returns (settled: bool)
      requires Valid() && presentEnabled
      modifies this`live, this`activeScanout, this`pendingScanout, this`pendingTimedOut,
               this`presentFrames, this`presentFailures, this`presentStatus, this`answers
      ensures Valid() && settled == (pendingScanout == None)
      ensures old(pendingScanout).None? ==> presentFrames == old(presentFrames) && answers == old(answers)
      ensures settled && old(pendingScanout).Some? ==>
        && presentFrames == old(presentFrames) + 1 && activeScanout == old(pendingScanout)
        && live == Scanout(old(pendingScanout).value) && !pendingTimedOut && presentStatus == B_OK
        && answers == old(answers)
      ensures settled ==> presentFailures == old(presentFailures)
      ensures !settled ==>
        && pendingScanout == old(pendingScanout) && live != Scanout(pendingScanout.value)
        && presentFrames == old(presentFrames) && activeScanout == old(activeScanout)
        && (answers == old(answers) + [Clock(true)] || answers == old(answers) + [Clock(false)])
        && pendingTimedOut == (old(pendingTimedOut) || answers[|old(answers)|] == Clock(true))
        && presentFailures == old(presentFailures) + (if pendingTimedOut && !old(pendingTimedOut) then 1 else 0)
        && presentStatus == (if pendingTimedOut && !old(pendingTimedOut) then B_TIMED_OUT else old(presentStatus))
    {
      if pendingScanout.None? { return true; }
      Display();
      if live == Scanout(pendingScanout.value) {
        activeScanout := pendingScanout;
        pendingScanout := None;
        pendingTimedOut := false;
        presentFrames := presentFrames + 1;
        presentStatus := B_OK;
        return true;
      }
      var late := AskClock(1);
      if late && !pendingTimedOut {
        pendingTimedOut := true;
        presentFailures := presentFailures + 1;
        presentStatus := B_TIMED_OUT;
      }
      return false;
    }

    /** One locked pass of the worker. A pass that arms a frame arms the other scanout, whole. */
    method WorkerPass() returns (pass: Pass)
      requires Valid()
      modifies this
      ensures Valid() && torn == old(torn)
      ensures pass == Sleeping <==> !old(presentEnabled)
      ensures pass == StillPending ==>
        pendingScanout.Some? && pendingScanout == old(pendingScanout) && live != Scanout(pendingScanout.value)
      ensures pass == LostScanout ==> !live.Scanout?
      ensures pass == CopyFailed ==> !CanCopy()
      ensures pass.Armed? ==> CanCopy()
      ensures presentFrames == old(presentFrames)
        + if old(presentEnabled) && old(pendingScanout).Some? && pass != StillPending then 1 else 0
      ensures pass == LostScanout || pass == CopyFailed ==>
        presentFailures == old(presentFailures) + 1 && presentStatus != B_OK
      ensures pass.Armed? ==>
        && pass.target < 2 && armed == Scanout(pass.target) && old(armed) == Scanout(1 - pass.target)
        && pendingScanout == Some(pass.target) && Whole(pass.target) && presentEnabled
      ensures !pass.Armed? ==> armed == old(armed)
      ensures presentEnabled <==> pass.Armed? || pass == StillPending
    {
      if !presentEnabled { return Sleeping; }
      var settled := NotePending();
      if !settled { return StillPending; }
      pass := ArmNext();
    }

    /** The second half of a pass, with nothing pending. */
    method ArmNext() returns (pass: Pass)
      requires Valid() && presentEnabled && pendingScanout == None
      modifies this
      ensures Valid() && torn == old(torn) && presentFrames == old(presentFrames)
      ensures pass == LostScanout || pass == CopyFailed || pass.Armed?
      ensures pass == LostScanout ==> !live.Scanout?
      ensures pass == CopyFailed ==> !CanCopy()
      ensures pass.Armed? ==>
        && CanCopy() && pass.target < 2 && armed == Scanout(pass.target) && old(armed) == Scanout(1 - pass.target)
        && pendingScanout == Some(pass.target) && Whole(pass.target)
        && presentFailures == old(presentFailures) && presentStatus == old(presentStatus) && !pendingTimedOut
      ensures presentEnabled <==> pass.Armed?
      ensures !pass.Armed? ==>
        && armed == old(armed)
        && presentFailures == old(presentFailures) + 1 && presentStatus != B_OK
    {
      Display();
      if !live.Scanout? {
        Disable(B_BAD_DATA);
        return LostScanout;
      }
      var target := 1 - live.index;
      var status := CopyPresentFrame(target);
      if status != B_OK {
        Disable(status);
        return CopyFailed;
      }
      armed := Scanout(target);
      pendingScanout := Some(target);
      pendingTimedOut := false;
      return Armed(target);
    }

    method Disable(status: Status)
      requires FramesOk() && !softBlanked
      modifies this`presentEnabled, this`presentFailures, this`presentStatus
      ensures Valid() && !presentEnabled
      ensures presentFailures == old(presentFailures) + 1 && presentStatus == status
    {
      presentFailures := presentFailures + 1;
      presentStatus := status;
      presentEnabled := false;
    }

    /** WaitForPrivateScanoutDetachedLocked; `patience` is how many polls fit before the deadline. */
    method WaitDetached() returns (status: Status)
      requires FramesOk()
      modifies this`live, this`answers
      ensures FramesOk() && (status == B_OK || status == B_TIMED_OUT)
      ensures Waited(old(answers), answers, status == B_TIMED_OUT)
      ensures status == B_OK <==> !planeEnabled && live == Foreign
      ensures live == old(live) || live == armed || live == Foreign
    {
      var patience: nat := *;
      while true
        invariant FramesOk()
        invariant live == old(live) || live == armed || live == Foreign
        invariant Waited(old(answers), answers, false)
        decreases patience
      {
        Display();
        if !planeEnabled && live == Foreign { return B_OK; }
        var expired := AskClock(patience);
        if expired { return B_TIMED_OUT; }
        patience := patience - 1;
      }
    }

    /** LatchScanoutLocked: arm a whole frame and wait for the display to show it. */
    method LatchScanout(target: nat) returns (status: Status)
      requires target < 2 && FramesOk() && Whole(target)
      modifies this`armed, this`live, this`activeScanout, this`answers
      ensures FramesOk() && armed == Scanout(target) && (status == B_OK || status == B_TIMED_OUT)
      ensures Waited(old(answers), answers, status == B_TIMED_OUT)
      ensures status == B_OK ==> live == armed && activeScanout == Some(target)
      ensures status != B_OK ==> live != armed && activeScanout == old(activeScanout)
    {
      armed := Scanout(target);
      var patience: nat := *;
      while true
        invariant FramesOk() && armed == Scanout(target) && activeScanout == old(activeScanout)
        invariant Waited(old(answers), answers, false)
        decreases patience
      {
        Display();
        if live == Scanout(target) {
          activeScanout := Some(target);
          return B_OK;
        }
        var expired := AskClock(patience);
        if expired { return B_TIMED_OUT; }
        patience := patience - 1;
      }
    }

    /** BlankDisplay: presentation stops at once, even when the display does not detach in time. */
    method BlankDisplay() returns (status: Status)
      requires Valid()
      modifies this
      ensures Valid() && softBlanked && torn == old(torn)
      ensures old(softBlanked) ==> status == B_OK && answers == old(answers) && live == old(live)
      ensures !old(softBlanked) ==> (status == B_OK <==> !Expired(old(answers), answers))
      ensures !old(softBlanked) && status == B_OK ==>
        && pendingScanout == None && !pendingTimedOut && activeScanout == None && live == Foreign
        && presentFailures == old(presentFailures) && presentStatus == old(presentStatus)
      ensures status != B_OK ==>
        && status == B_TIMED_OUT && presentStatus == status && presentFailures == old(presentFailures) + 1
        && live != Foreign && pendingScanout == old(pendingScanout) && activeScanout == old(activeScanout)
    {
      if softBlanked { return B_OK; }
      presentEnabled := false;
      planeEnabled := false;
      armed := Foreign;
      status := WaitDetached();
      if status == B_OK {
        activeScanout := None;
        pendingScanout := None;
        pendingTimedOut := false;
      } else {
        presentStatus := status;
        presentFailures := presentFailures + 1;
      }
      softBlanked := true;
    }

    /** UnblankDisplay: a new frame is copied once the plane has let go of both scanouts; if the
        display does not show it in time, everything is switched off again. */
    method UnblankDisplay() returns (status: Status)
      requires Valid()
      modifies this
      ensures Valid() && torn == old(torn)
      ensures old(softBlanked) ==> (status == B_OK <==> presentEnabled) && (softBlanked <==> status != B_OK)
      ensures old(softBlanked) ==> (status == B_OK <==> !Expired(old(answers), answers) && CanCopy())
      ensures Expired(old(answers), answers) ==> status == B_TIMED_OUT
      ensures old(softBlanked) && status == B_OK ==>
        && planeEnabled && armed == Scanout(0) && live == armed && activeScanout == Some(0)
        && pendingScanout == None && !pendingTimedOut && presentFailures == old(presentFailures)
      ensures !old(softBlanked) ==> status == B_OK && presentEnabled == old(presentEnabled) && armed == old(armed)
    {
      hide Waited, Expired;
      ghost var before := answers;
      if !softBlanked {
        NothingExpired(before);
        return B_OK;
      }
      status := WaitDetached();
      ghost var detached := answers;
      WaitedIsExpired(before, detached, status == B_TIMED_OUT);
      if status != B_OK { return; }
      status := CopyPresentFrame(0);
      ghost var copied := answers;
      CopyExpiresNothing(before, detached, copied);
      if status != B_OK { return; }
      status := ShowFirstFrame();
      ExpiredJoin(before, copied, answers);
    }

    /** The frame is copied: the plane is switched on, and off again if the display does not show it. */
    method ShowFirstFrame() returns (status: Status)
      requires FramesOk() && Whole(0) && softBlanked && !presentEnabled
      modifies this`planeEnabled, this`armed, this`live, this`activeScanout, this`pendingScanout, this`pendingTimedOut,
               this`presentEnabled, this`softBlanked, this`presentFailures, this`presentStatus, this`answers
      ensures Valid() && (status == B_OK || status == B_TIMED_OUT)
      ensures status == B_OK <==> !Expired(old(answers), answers)
      ensures |answers| >= |old(answers)| && answers[..|old(answers)|] == old(answers)
      ensures (status == B_OK <==> presentEnabled) && (softBlanked <==> status != B_OK)
      ensures status == B_OK ==>
        && planeEnabled && armed == Scanout(0) && live == armed && activeScanout == Some(0)
        && pendingScanout == None && !pendingTimedOut && presentFailures == old(presentFailures)
      ensures status != B_OK ==>
        && presentFailures == old(presentFailures) + 1 && presentStatus == B_TIMED_OUT
        && pendingScanout == (if live == Foreign then None else Some(0))
    {
      hide Expired;
      planeEnabled := true;
      pendingScanout := Some(0);
      Display();
      status := LatchScanout(0);
      ghost var latched := answers;
      WaitedIsExpired(old(answers), latched, status == B_TIMED_OUT);
      if status != B_OK {
        status := SwitchOff();
        ExpiredJoin(old(answers), latched, answers);
        return;
      }
      pendingScanout := None;
      pendingTimedOut := false;
      presentEnabled := true;
      softBlanked := false;
    }

    lemma NothingExpired(answers: seq<Answer>)
      ensures !Expired(answers, answers)
    {
    }

    lemma WaitedIsExpired(before: seq<Answer>, after: seq<Answer>, timedOut: bool)
      requires Waited(before, after, timedOut)
      ensures Expired(before, after) <==> timedOut
      ensures |before| <= |after| && after[..|before|] == before
    {
      if timedOut { assert after[|after| - 1] == Clock(true); }
    }

    lemma ExpiredJoin(before: seq<Answer>, middle: seq<Answer>, after: seq<Answer>)
      requires |before| <= |middle| <= |after| && after[..|middle|] == middle && middle[..|before|] == before
      ensures Expired(before, after) <==> Expired(before, middle) || Expired(middle, after)
    {
      assert forall i :: 0 <= i < |middle| ==> after[i] == middle[i];
    }

    /** The blitter's answer is none of the clock's. */
    lemma CopyExpiresNothing(before: seq<Answer>, detached: seq<Answer>, copied: seq<Answer>)
      requires |before| <= |detached| && detached[..|before|] == before
      requires copied == detached || exists blit :: copied == detached + [Blit(blit)]
      ensures Expired(before, copied) <==> Expired(before, detached)
      ensures |before| <= |copied| && copied[..|before|] == before
    {
      assert copied[..|detached|] == detached;
      assert !Expired(detached, copied);
      ExpiredJoin(before, detached, copied);
    }

    /** The failed end of an unblank. The caller reports the latch timeout, or that of the detach. */
    method SwitchOff() returns (status: Status)
      requires FramesOk() && !presentEnabled && softBlanked
      modifies this`planeEnabled, this`armed, this`live, this`activeScanout, this`pendingScanout,
               this`presentFailures, this`presentStatus, this`answers
      ensures Valid() && status == B_TIMED_OUT
      ensures presentFailures == old(presentFailures) + 1 && presentStatus == B_TIMED_OUT
      ensures pendingScanout == (if live == Foreign then None else old(pendingScanout))
      ensures activeScanout == (if live == Foreign then None else old(activeScanout))
      ensures |answers| >= |old(answers)| && answers[..|old(answers)|] == old(answers)
    {
      planeEnabled := false;
      armed := Foreign;
      status := WaitDetached();
      if status == B_OK {
        activeScanout := None;
        pendingScanout := None;
        status := B_TIMED_OUT;
      }
      presentStatus := status;
      presentFailures := presentFailures + 1;
    }
  }

  /** Any run: the worker, blank and unblank in any order and number, the display latching in
      between. No copy ever touches a scanout that is shown or armed, and what is shown or armed is
      always a whole frame. */
  method AnyRun(shown: nat, usesBcs: bool) returns (device: PresentDevice)
    requires shown < 2
    ensures device.Valid() && !device.torn
  {
    device := new PresentDevice(shown, usesBcs);
    var length: int := *;
    while length > 0
      invariant device.Valid() && !device.torn && fresh(device)
    {
      length := length - 1;
      if * {
        var pass := device.WorkerPass();
      } else if * {
        var status := device.BlankDisplay();
      } else if * {
        var status := device.UnblankDisplay();
      } else {
        device.Display();
      }
    }
  }
}
