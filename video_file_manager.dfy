/** The uploaded-video source (`VideoFileManager`): loading, start/stop, one pass of the
    playback loop, progress and clean-up.

    The file system and the decoder are inputs: whether the file exists, whether it opens,
    the frame rate and frame count it reports, and the frame (or end of stream) each read
    gives. The playback thread is `loopAlive`; `ProcessStep` is one pass of `while self.running`. */
module VideoFile {
  import opened Common
  import opened FrameQueue

  /** The frame rate taken when the file reports none. */
  const DefaultFps: real := 30.0
  /** The frame delay used when the frame rate is not positive. */
  const FallbackDelay: real := 0.033

  /** `cap.get(CAP_PROP_FPS) or 30`: a reported rate of 0 means the default. */
  function EffectiveFps(reported: real): (fps: real)
    ensures fps != 0.0
    ensures reported != 0.0 ==> fps == reported
    ensures reported == 0.0 ==> fps == DefaultFps
  {
    if reported == 0.0 then DefaultFps else reported
  }

  /** `1.0 / fps if fps > 0 else 0.033`: always a positive wait, one frame period when it can be. */
  function FrameDelay(fps: real): (d: real)
    ensures d > 0.0
    ensures fps > 0.0 ==> d * fps == 1.0
    ensures fps <= 0.0 ==> d == FallbackDelay
  {
    if fps > 0.0 then 1.0 / fps else FallbackDelay
  }

  /** `get_progress`: percent of the reported frame count played, 0 when the count is 0. */
  function Progress(current: nat, total: int): (p: real)
    ensures total == 0 ==> p == 0.0
    ensures total > 0 ==> p * total as real == current as real * 100.0
  {
    if total == 0 then 0.0 else (current as real / total as real) * 100.0
  }

  /** Within the reported length, progress is a percentage. */
  lemma ProgressIsPercentage(current: nat, total: int)
    requires 0 < total && current <= total
    ensures 0.0 <= Progress(current, total) <= 100.0
  {
    var p := Progress(current, total);
    assert p * total as real == current as real * 100.0;
    assert current as real * 100.0 <= total as real * 100.0;
  }

  /** A non-empty path is a loaded video (`if not self.video_path`). */
  predicate Loaded(path: Option<string>) {
    path.Some? && path.value != ""
  }

  class VideoFileManager {
    var videoPath: Option<string>
    /** `frame_queue` */
    const slot: FrameSlot
    var running: bool
    /** The playback thread is alive. */
    var loopAlive: bool
    /** The decoder has opened the file. */
    var capOpen: bool
    var fps: real
    var totalFrames: int
    var currentFrame: nat
    /** `frame_delay` of the running loop. */
    var frameDelay: real

    predicate Valid()
      reads this, slot
    {
      slot.Valid() && (loopAlive ==> running) && (capOpen ==> loopAlive)
    }

    constructor()
      ensures Valid() && fresh(slot) && slot.items == []
      ensures videoPath == None && !running && !loopAlive && !capOpen
      ensures fps == DefaultFps && totalFrames == 0 && currentFrame == 0 && frameDelay == FallbackDelay
    {
      videoPath := None;
      slot := new FrameSlot();
      running := false;
      loopAlive := false;
      capOpen := false;
      fps := DefaultFps;
      totalFrames := 0;
      currentFrame := 0;
      frameDelay := FallbackDelay;
    }

    /** `is_active` */
    predicate IsActive()
      reads this
    {
      running && videoPath.Some?
    }

    /** A manager whose playback loop still runs on a loaded file is active; one whose path was
        cleared, or whose playback stopped, is not. */
    lemma ActiveWhilePlaying()
      requires Valid()
      ensures loopAlive && videoPath.Some? ==> IsActive()
      ensures videoPath.None? || !running ==> !IsActive()
    {
    }

    /** `stop_processing`: the flag drops, the thread ends, the slot is emptied. */
    method StopProcessing()
      requires Valid()
      modifies this, slot
      ensures Valid() && !running && !loopAlive && !capOpen && slot.items == []
      ensures videoPath == old(videoPath) && currentFrame == old(currentFrame) && totalFrames == old(totalFrames)
      ensures fps == old(fps) && frameDelay == old(frameDelay)
    {
      running := false;
      loopAlive := false;
      capOpen := false;
      while !slot.IsEmpty()
        invariant slot.Valid() && !running && !loopAlive && !capOpen
        invariant videoPath == old(videoPath) && currentFrame == old(currentFrame)
        invariant totalFrames == old(totalFrames) && fps == old(fps) && frameDelay == old(frameDelay)
        decreases |slot.items|
      {
        var _ := slot.GetNowait();
      }
    }

    /** `load_video`: stops a running playback first. */
    method LoadVideo(path: string) returns (ok: bool)
      requires Valid()
      modifies this, slot
      ensures Valid() && ok && videoPath == Some(path)
      ensures old(running) ==> !running && !loopAlive && !capOpen && slot.items == []
      ensures !old(running) ==> running == old(running) && loopAlive == old(loopAlive) && capOpen == old(capOpen)
                                && slot.items == old(slot.items)
      ensures currentFrame == old(currentFrame) && fps == old(fps) && totalFrames == old(totalFrames)
              && frameDelay == old(frameDelay)
    {
      if running {
        StopProcessing();
      }
      videoPath := Some(path);
      ok := true;
    }

    /** `start_processing`: false stands for the ValueError raised when no file is loaded or
        it does not exist; otherwise playback restarts from frame 0. */
    method StartProcessing(fileExists: bool) returns (ok: bool)
      requires Valid()
      modifies this, slot
      ensures Valid()
      ensures ok <==> Loaded(old(videoPath)) && fileExists
      ensures !ok ==> running == old(running) && loopAlive == old(loopAlive) && capOpen == old(capOpen)
                      && currentFrame == old(currentFrame) && slot.items == old(slot.items)
      // a live playback thread is stopped first, which empties the slot
      ensures ok ==> running && loopAlive && !capOpen && currentFrame == 0
                     && slot.items == (if old(loopAlive) then [] else old(slot.items))
      ensures videoPath == old(videoPath) && fps == old(fps) && totalFrames == old(totalFrames)
              && frameDelay == old(frameDelay)
    {
      if !Loaded(videoPath) || !fileExists {
        return false;
      }
      if loopAlive {
        StopProcessing();
      }
      running := true;
      currentFrame := 0;
      loopAlive := true;
      capOpen := false;
      ok := true;
    }

    /** The start of `_process_frames`: open the file and read its properties. */
    method OpenVideo(openOk: bool, reportedFps: real, frameCount: int)
      requires Valid() && loopAlive && !capOpen
      modifies this
      ensures Valid() && videoPath == old(videoPath) && currentFrame == old(currentFrame)
      ensures !openOk ==> !running && !loopAlive && !capOpen && fps == old(fps) && totalFrames == old(totalFrames)
                          && frameDelay == old(frameDelay)
      ensures openOk ==> capOpen && fps == EffectiveFps(reportedFps) && totalFrames == frameCount
                         && frameDelay == FrameDelay(fps)
    {
      if !openOk {
        running := false;
        loopAlive := false;
        return;
      }
      capOpen := true;
      fps := EffectiveFps(reportedFps);
      totalFrames := frameCount;
      frameDelay := FrameDelay(fps);
    }

    /** One pass of the playback loop: end of stream rewinds; a frame is counted and replaces
        whatever the slot held. Returns how long the loop then waits. */
    method ProcessStep(frame: Option<Frame>) returns (wait: real)
      requires Valid() && capOpen
      modifies this, slot
      ensures Valid() && capOpen && videoPath == old(videoPath) && totalFrames == old(totalFrames) && fps == old(fps)
      ensures running == old(running) && loopAlive == old(loopAlive) && frameDelay == old(frameDelay)
      ensures frame.None? ==> currentFrame == 0 && slot.items == old(slot.items) && wait == 0.0
      ensures frame.Some? ==> currentFrame == old(currentFrame) + 1 && slot.items == [frame.value]
                              && wait == frameDelay
    {
      if frame.None? {
        currentFrame := 0;
        return 0.0;
      }
      currentFrame := currentFrame + 1;
      if !slot.IsEmpty() {
        var _ := slot.GetNowait();
      }
      var _ := slot.PutNowait(frame.value);
      wait := frameDelay;
    }

    /** `get_progress` */
    function GetProgress(): (p: real)
      reads this
      ensures p == Progress(currentFrame, totalFrames)
    {
      Progress(currentFrame, totalFrames)
    }

    /** `cleanup_file`: the path is forgotten only when the file was removed. */
    method CleanupFile(fileExists: bool, removeOk: bool)
      modifies this
      ensures videoPath == (if Loaded(old(videoPath)) && fileExists && removeOk then None else old(videoPath))
      ensures running == old(running) && loopAlive == old(loopAlive) && capOpen == old(capOpen)
      ensures currentFrame == old(currentFrame) && fps == old(fps) && totalFrames == old(totalFrames)
              && frameDelay == old(frameDelay)
    {
      if Loaded(videoPath) && fileExists && removeOk {
        videoPath := None;
      }
    }
  }
}
