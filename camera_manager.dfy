/** The live camera source (`CameraManager`): the device probe, start/stop, and one
    iteration of the capture loop with its reconnect counter.

    The device is an input: each probe says whether camera `i` opens and firstRead a frame, and
    each capture iteration receives what opening and reading the device did (`Tick`). The
    capture thread is modelled by `loopAlive`; one call of `CaptureStep` is one pass of
    `while self.running`. Time is in seconds as `real`. */
module Camera {
  import opened Common
  import opened FrameQueue

  /** `max_reconnect_attempts` */
  const MaxReconnectAttempts: nat := 5
  /** `target_fps` */
  const TargetFps: nat := 60
  /** `reconnect_delay`, in seconds. */
  const ReconnectDelay: real := 1.0
  /** A pause shorter than this is not worth sleeping. */
  const MinSleep: real := 0.001

  /** What probing camera `i` does: whether it opens and whether its first read succeeds. */
  datatype Probe = Probe(opens: bool, firstRead: bool)

  predicate Works(p: Probe) {
    p.opens && p.firstRead
  }

  /** What one capture iteration meets: whether (re)opening the device succeeds, if it has
      to be opened, and the frame the read returns (None when `ret` is false); `Crash` is an
      exception escaping the iteration at stage `at`. */
  datatype Tick = Tick(openOk: bool, frame: Option<Frame>) | Crash(at: Stage)

  /** Where an exception is raised: creating the capture object, setting its properties
      after it opened, or reading from it. A pass that finds the capture open skips the
      first two, so its exception is raised by the read. */
  datatype Stage = Opening | Configuring | Reading

  /** `self.cap`: no capture object, or one that is open or not. */
  datatype Cap = NoCap | Cap(isOpen: bool)

  // ---------------------------------------------------------------------------
  // The reconnect counter

  /** The number of failures since the last success, in a history of outcomes (true: success). */
  function TrailingFailures(events: seq<bool>): (n: nat)
    ensures n <= |events|
    decreases |events|
  {
    if events == [] || events[|events| - 1] then 0 else TrailingFailures(events[..|events| - 1]) + 1
  }

  /** The first camera index from `i` on, below 3, whose probe works. */
  function FirstFrom(probes: seq<Probe>, i: nat): Option<nat>
    decreases 3 - i
  {
    if i >= 3 || i >= |probes| then None
    else if Works(probes[i]) then Some(i)
    else FirstFrom(probes, i + 1)
  }

  /** The camera `_find_available_camera` picks. */
  function FirstWorking(probes: seq<Probe>): Option<nat> {
    FirstFrom(probes, 0)
  }

  /** The pick is the first working index of the three, and none when no probe works. */
  lemma {:induction false} FirstFromIsFirst(probes: seq<Probe>, i: nat)
    requires |probes| == 3 && i <= 3
    ensures var r := FirstFrom(probes, i);
      (r.Some? ==> i <= r.value < 3 && Works(probes[r.value]) && forall j :: i <= j < r.value ==> !Works(probes[j]))
      && (r.None? ==> forall j :: i <= j < 3 ==> !Works(probes[j]))
    decreases 3 - i
  {
    if i < 3 && !Works(probes[i]) {
      FirstFromIsFirst(probes, i + 1);
    }
  }

  lemma FirstWorkingIsFirst(probes: seq<Probe>)
    requires |probes| == 3
    ensures var r := FirstWorking(probes);
      (r.Some? ==> r.value < 3 && Works(probes[r.value]) && forall j :: 0 <= j < r.value ==> !Works(probes[j]))
      && (r.None? ==> forall j :: 0 <= j < 3 ==> !Works(probes[j]))
  {
    FirstFromIsFirst(probes, 0);
  }

  /** A success ends the run of failures. */
  lemma SuccessResets(events: seq<bool>)
    ensures TrailingFailures(events + [true]) == 0
  {
  }

  /** A failure extends the run of failures by one. */
  lemma FailureCounts(events: seq<bool>)
    ensures TrailingFailures(events + [false]) == TrailingFailures(events) + 1
  {
    assert (events + [false])[..|events|] == events;
  }

  /** The counter is exactly the length of the final run of failures. */
  lemma {:induction false} TrailingFailuresRun(events: seq<bool>)
    ensures var n := TrailingFailures(events);
      (forall i :: |events| - n <= i < |events| ==> !events[i])
      && (n < |events| ==> events[|events| - n - 1])
    decreases |events|
  {
    if events != [] && !events[|events| - 1] {
      var front := events[..|events| - 1];
      TrailingFailuresRun(front);
      assert forall i :: 0 <= i < |front| ==> front[i] == events[i];
    }
  }

  /** A success anywhere after the last five outcomes' start means the loop goes on: the
      counter reaches five only after five failures in a row. */
  lemma {:induction false} FiveInARow(events: seq<bool>)
    requires TrailingFailures(events) >= MaxReconnectAttempts
    ensures |events| >= MaxReconnectAttempts
    ensures forall i :: |events| - MaxReconnectAttempts <= i < |events| ==> !events[i]
  {
    TrailingFailuresRun(events);
  }

  /** The pause after a frame: the rest of 1/60 s, if more than 1 ms is left, else none. */
  function SleepTime(elapsed: real): (s: real)
    ensures s == 0.0 || s > MinSleep
    ensures s > 0.0 ==> s + elapsed == 1.0 / TargetFps as real
    ensures s == 0.0 <==> 1.0 / TargetFps as real - elapsed <= MinSleep
  {
    var rest := 1.0 / TargetFps as real - elapsed;
    if rest > MinSleep then rest else 0.0
  }

  class CameraManager {
    /** `active_camera` */
    var activeCamera: Option<nat>
    /** `frame_queue` */
    const slot: FrameSlot
    var running: bool
    /** The capture thread is alive. */
    var loopAlive: bool
    var cap: Cap
    /** `camera_available` */
    var available: bool
    /** `reconnect_attempts` of the running capture loop. */
    var attempts: nat
    /** The successes (true) and failures (false) the running capture loop has counted. */
    ghost var events: seq<bool>
    var lastFrameTime: real

    ghost predicate Valid()
      reads this, slot
    {
      slot.Valid()
      && attempts == TrailingFailures(events)
      && (loopAlive ==> running && available && activeCamera.Some? && attempts < MaxReconnectAttempts)
    }

    constructor()
      ensures Valid() && fresh(slot) && slot.items == []
      ensures activeCamera == None && !running && !loopAlive && cap == NoCap && !available
    {
      activeCamera := None;
      slot := new FrameSlot();
      running := false;
      loopAlive := false;
      cap := NoCap;
      available := false;
      attempts := 0;
      events := [];
      lastFrameTime := 0.0;
    }

    /** `is_active` */
    predicate IsActive()
      reads this
    {
      running && available
    }

    /** While the capture loop runs, the manager reports itself active. */
    lemma ActiveWhileCapturing()
      requires Valid() && loopAlive
      ensures IsActive()
    {
    }

    /** `_find_available_camera`: the first of cameras 0, 1 and 2 that opens and reads. */
    static method FindAvailableCamera(probes: seq<Probe>) returns (idx: Option<nat>)
      requires |probes| == 3
      ensures idx == FirstWorking(probes)
      ensures idx.Some? ==> idx.value < 3 && Works(probes[idx.value])
                            && forall j :: 0 <= j < idx.value ==> !Works(probes[j])
      ensures idx.None? ==> forall j :: 0 <= j < 3 ==> !Works(probes[j])
    {
      var i := 0;
      while i < 3
        invariant 0 <= i <= 3
        invariant forall j :: 0 <= j < i ==> !Works(probes[j])
        invariant FirstFrom(probes, i) == FirstWorking(probes)
      {
        if probes[i].opens && probes[i].firstRead {
          return Some(i);
        }
        i := i + 1;
      }
      idx := None;
    }

    /** `stop_stream`: the flag drops, the thread ends, the capture is released. */
    method StopStream()
      requires Valid()
      modifies this
      ensures Valid()
      ensures !running && !loopAlive && cap == NoCap
      ensures activeCamera == old(activeCamera) && available == old(available)
      ensures attempts == old(attempts) && lastFrameTime == old(lastFrameTime)
    {
      running := false;
      loopAlive := false;
      cap := NoCap;
    }

    /** `start_stream`: probes only when no camera is known; without one the stream stays off. */
    method StartStream(probes: seq<Probe>)
      requires Valid() && |probes| == 3
      modifies this
      ensures Valid()
      ensures old(activeCamera).Some? ==> activeCamera == old(activeCamera)
      ensures old(activeCamera).None? ==> activeCamera == FirstWorking(probes)
      ensures activeCamera.None? ==> !available && !loopAlive
                                     && (old(loopAlive) ==> !running) && (!old(loopAlive) ==> running == old(running))
      ensures activeCamera.Some? ==> available && running && loopAlive && attempts == 0
      // a live loop is stopped and its capture released; a loop that ended keeps its capture
      ensures cap == (if old(loopAlive) then NoCap else old(cap)) && lastFrameTime == old(lastFrameTime)
    {
      if loopAlive {
        StopStream();
      }
      if activeCamera.None? {
        activeCamera := FindAvailableCamera(probes);
      }
      if activeCamera.None? {
        available := false;
        return;
      }
      available := true;
      running := true;
      loopAlive := true;
      attempts := 0;
      events := [];
    }

    /** Counts one failure; five in a row end the loop and mark the camera unavailable. */
    method Fail()
      requires Valid() && loopAlive
      modifies this
      ensures Valid()
      ensures attempts == old(attempts) + 1 && events == old(events) + [false]
      ensures loopAlive <==> attempts < MaxReconnectAttempts
      ensures available <==> loopAlive
      ensures running && activeCamera == old(activeCamera) && cap == old(cap) && lastFrameTime == old(lastFrameTime)
    {
      FailureCounts(events);
      events := events + [false];
      attempts := attempts + 1;
      if attempts >= MaxReconnectAttempts {
        available := false;
        loopAlive := false;
      }
    }

    /** One pass of the `_capture_frames` loop at time `now`; `elapsed` is how long the read and
        the hand-over took. Returns how long the loop then sleeps. */
    method CaptureStep(tick: Tick, now: real, elapsed: real) returns (pause: real)
      requires Valid() && loopAlive
      modifies this, slot
      ensures Valid() && running && activeCamera == old(activeCamera)
      // a failure to open: counted, the capture object kept, no frame
      ensures tick.Tick? && (old(cap) == NoCap || !old(cap).isOpen) && !tick.openOk ==>
        cap == Cap(false) && attempts == old(attempts) + 1 && slot.items == old(slot.items)
        && (loopAlive <==> attempts < MaxReconnectAttempts)
        && (loopAlive ==> pause == ReconnectDelay) && (!loopAlive ==> pause == 0.0)
      // a failed read: counted; the capture is released unless the loop ends
      ensures tick.Tick? && (old(cap) == Cap(true) || tick.openOk) && tick.frame.None? ==>
        attempts == (if old(cap) == Cap(true) then old(attempts) else 0) + 1
        && slot.items == old(slot.items)
        && (loopAlive <==> attempts < MaxReconnectAttempts)
        && (loopAlive ==> cap == NoCap && pause == ReconnectDelay) && (!loopAlive ==> cap == Cap(true) && pause == 0.0)
      // a frame: the counter resets and the slot holds exactly that frame
      ensures tick.Tick? && (old(cap) == Cap(true) || tick.openOk) && tick.frame.Some? ==>
        attempts == 0 && loopAlive && available && cap == Cap(true)
        && slot.items == [tick.frame.value] && pause == SleepTime(elapsed)
      // an exception: the loop sleeps, then counts a failure, after what the pass did before it
      ensures tick.Crash? ==>
        slot.items == old(slot.items) && (loopAlive <==> attempts < MaxReconnectAttempts) && pause == ReconnectDelay
      ensures tick.Crash? && ((old(cap) == Cap(true)) || tick.at == Opening) ==>
        attempts == old(attempts) + 1 && cap == old(cap) && lastFrameTime == old(lastFrameTime)
      ensures tick.Crash? && old(cap) != Cap(true) && tick.at == Configuring ==>
        attempts == old(attempts) + 1 && cap == Cap(true) && lastFrameTime == old(lastFrameTime)
      ensures tick.Crash? && old(cap) != Cap(true) && tick.at == Reading ==>
        attempts == 1 && cap == Cap(true) && lastFrameTime == now
      // a successful (re)open stamps the frame time
      ensures tick.Tick? ==>
        lastFrameTime == (if old(cap) != Cap(true) && tick.openOk then now else old(lastFrameTime))
      ensures !loopAlive ==> !IsActive()
    {
      if tick.Crash? {
        pause := Crashed(tick.at, now);
        return;
      }
      if cap == NoCap || !cap.isOpen {
        var connected := Reopen(tick.openOk, now);
        if !connected {
          // the loop breaks before its sleep once the limit is reached
          return if loopAlive then ReconnectDelay else 0.0;
        }
      }
      pause := ReadFrame(tick.frame, elapsed);
    }

    /** An exception escaping the pass at stage `at`. Without an open capture, one raised
        while setting properties leaves the newly opened capture in place with the counter
        not reset, and one raised by the read follows a successful reopen. */
    method Crashed(at: Stage, now: real) returns (pause: real)
      requires Valid() && loopAlive
      modifies this
      ensures Valid() && running && activeCamera == old(activeCamera) && pause == ReconnectDelay
      ensures loopAlive <==> attempts < MaxReconnectAttempts
      ensures old(cap) == Cap(true) || at == Opening ==>
        attempts == old(attempts) + 1 && cap == old(cap) && lastFrameTime == old(lastFrameTime)
      ensures old(cap) != Cap(true) && at == Configuring ==>
        attempts == old(attempts) + 1 && cap == Cap(true) && lastFrameTime == old(lastFrameTime)
      ensures old(cap) != Cap(true) && at == Reading ==>
        attempts == 1 && cap == Cap(true) && lastFrameTime == now
      ensures !loopAlive ==> !IsActive()
    {
      if cap != Cap(true) && at == Configuring {
        cap := Cap(true);
      } else if cap != Cap(true) && at == Reading {
        var _ := Reopen(true, now);
      }
      Fail();
      pause := ReconnectDelay;
    }

    /** A (re)connection attempt: success resets the counter, a failure counts and keeps the
        unopened capture object. */
    method Reopen(openOk: bool, now: real) returns (connected: bool)
      requires Valid() && loopAlive
      modifies this
      ensures Valid() && running && activeCamera == old(activeCamera) && connected == openOk
      ensures openOk ==> cap == Cap(true) && attempts == 0 && loopAlive && lastFrameTime == now
      ensures !openOk ==>
        cap == Cap(false) && attempts == old(attempts) + 1 && (loopAlive <==> attempts < MaxReconnectAttempts)
        && lastFrameTime == old(lastFrameTime)
      ensures !loopAlive ==> !IsActive()
    {
      cap := Cap(openOk);
      connected := openOk;
      if !openOk {
        Fail();
        return;
      }
      attempts := 0;
      SuccessResets(events);
      events := events + [true];
      lastFrameTime := now;
    }

    /** A read from an open capture: a frame resets the counter and replaces the slot's
        content; no frame counts as a failure and releases the capture unless the loop ends. */
    method ReadFrame(frame: Option<Frame>, elapsed: real) returns (pause: real)
      requires Valid() && loopAlive && cap == Cap(true)
      modifies this, slot
      ensures Valid() && running && activeCamera == old(activeCamera) && lastFrameTime == old(lastFrameTime)
      ensures frame.None? ==>
        attempts == old(attempts) + 1 && slot.items == old(slot.items)
        && (loopAlive <==> attempts < MaxReconnectAttempts)
        && (loopAlive ==> cap == NoCap && pause == ReconnectDelay) && (!loopAlive ==> cap == Cap(true) && pause == 0.0)
      ensures frame.Some? ==>
        attempts == 0 && loopAlive && available && cap == Cap(true)
        && slot.items == [frame.value] && pause == SleepTime(elapsed)
      ensures !loopAlive ==> !IsActive()
    {
      if frame.None? {
        pause := LoseFrame();
        return;
      }
      attempts := 0;
      SuccessResets(events);
      events := events + [true];
      ReplaceFrame(frame.value);
      pause := SleepTime(elapsed);
    }

    /** A failed read: counted, and the capture released unless the loop ends. */
    method LoseFrame() returns (pause: real)
      requires Valid() && loopAlive && cap == Cap(true)
      modifies this
      ensures Valid() && running && activeCamera == old(activeCamera) && lastFrameTime == old(lastFrameTime)
      ensures attempts == old(attempts) + 1 && (loopAlive <==> attempts < MaxReconnectAttempts)
      ensures loopAlive ==> cap == NoCap && pause == ReconnectDelay
      ensures !loopAlive ==> !IsActive() && cap == Cap(true) && pause == 0.0
    {
      Fail();
      if !loopAlive {
        return 0.0;
      }
      cap := NoCap;
      pause := ReconnectDelay;
    }

    /** Drains the slot and puts the new frame: the slot then holds only the newest frame. */
    method ReplaceFrame(frame: Frame)
      requires slot.Valid()
      modifies slot
      ensures slot.Valid() && slot.items == [frame]
    {
      while slot.QSize() >= 1
        invariant slot.Valid()
        decreases |slot.items|
      {
        var _ := slot.GetNowait();
      }
      var ok := slot.PutNowait(frame);
      // the `queue.Full` fallback (drop the oldest, put again) cannot run: the slot was just drained
      assert ok;
    }
  }
}
