/** The HTTP endpoints that drive the two frame sources: mode switching, video upload,
    stopping a video, and the interval of the trends query.

    The detection mode is a field of the application object here; it starts with the value
    given at construction. The camera probes, whether a file exists, whether saving an upload
    and removing a file succeed, and the unique name given to an upload are inputs. Errors are
    the HTTP status the endpoint answers with. */
module Api {
  import opened Common
  import Camera
  import VideoFile
  import NeonDb

  /** The answer of an endpoint: success with the mode, or the error status. */
  datatype Response = Switched(mode: string) | BadRequest | ServerError

  /** The answer of the upload endpoint. */
  datatype UploadResponse = Uploaded(filename: string, filePath: string) | Unsupported | UploadFailed

  /** `allowed_extensions` */
  const AllowedExtensions: set<string> := {".mp4", ".avi", ".mov", ".mkv", ".webm", ".flv", ".wmv"}

  /** `get_analytics_trends` accepts these intervals. */
  const TrendIntervals: set<string> := {"day", "week", "hour"}

  // ---------------------------------------------------------------------------
  // File names

  /** The position of the last `c` in `s`, if any (`str.rfind`). */
  function LastIndex(s: string, c: char): (r: Option<nat>)
    ensures r.Some? ==> r.value < |s| && s[r.value] == c && forall j :: r.value < j < |s| ==> s[j] != c
    ensures r.None? ==> forall j :: 0 <= j < |s| ==> s[j] != c
    decreases |s|
  {
    if s == [] then None
    else if s[|s| - 1] == c then Some(|s| - 1)
    else LastIndex(s[..|s| - 1], c)
  }

  /** `Path(p).name`: the text after the last `/`. */
  function BaseName(p: string): (name: string)
    ensures '/' !in name
    ensures |name| <= |p| && name == p[|p| - |name|..]
  {
    var i := LastIndex(p, '/');
    if i.None? then p else p[i.value + 1..]
  }

  /** `Path(p).suffix`: from the last dot of the name on, when that dot is neither the
      name's first nor its last character; otherwise empty. */
  function Suffix(p: string): (ext: string)
    ensures ext != [] ==> ext[0] == '.' && |ext| >= 2 && '.' !in ext[1..] && '/' !in ext
    ensures ext != [] ==> |ext| < |BaseName(p)| && BaseName(p)[|BaseName(p)| - |ext|..] == ext
  {
    var name := BaseName(p);
    var i := LastIndex(name, '.');
    if i.Some? && 0 < i.value < |name| - 1 then name[i.value..] else []
  }

  /** The upload check: the lower-cased suffix is one of the video extensions. */
  predicate Accepted(filename: string) {
    Lower(Suffix(filename)) in AllowedExtensions
  }

  /** An allowed extension, in any case, is a dot and three or four dot-free characters. */
  lemma AllowedShape(e: string)
    requires Lower(e) in AllowedExtensions
    ensures 4 <= |e| <= 5 && e[0] == '.' && '.' !in e[1..] && '/' !in e
  {
    var l := Lower(e);
    assert l[0] == '.' && forall k :: 1 <= k < |l| ==> l[k] != '.' && l[k] != '/';
    assert forall k :: 0 <= k < |e| ==> (e[k] == '.' <==> l[k] == '.') && (e[k] == '/' <==> l[k] == '/');
  }

  /** A name made of a non-empty stem and a dot-led, dot-free ending has that ending as its suffix. */
  lemma SuffixOf(stem: string, e: string)
    requires '/' !in stem && stem != [] && |e| >= 2 && e[0] == '.' && '.' !in e[1..] && '/' !in e
    ensures Suffix(stem + e) == e
  {
    var p := stem + e;
    assert BaseName(p) == p;
    assert p[|stem|] == '.';
    assert LastIndex(p, '.') == Some(|stem|) by {
      forall j | |stem| < j < |p| ensures p[j] != '.' {
        assert p[j] == e[j - |stem|] && e[j - |stem|] in e[1..];
      }
    }
    assert p[|stem|..] == e;
  }

  /** A file is accepted exactly when its name ends, in any case, with an allowed extension
      that leaves a non-empty stem before it. */
  lemma AcceptedIff(stem: string, e: string)
    requires '/' !in stem && Lower(e) in AllowedExtensions
    ensures Accepted(stem + e) <==> stem != []
  {
    AllowedShape(e);
    if stem != [] {
      SuffixOf(stem, e);
    } else {
      assert stem + e == e;
      BareExtension(e);
      assert Lower([]) == [];
    }
  }

  /** A name that is only a dot-led ending has no suffix (`Path(".mp4").suffix == ""`). */
  lemma BareExtension(e: string)
    requires |e| >= 2 && e[0] == '.' && '.' !in e[1..] && '/' !in e
    ensures Suffix(e) == []
  {
    assert BaseName(e) == e;
    assert LastIndex(e, '.') == Some(0) by {
      forall j | 0 < j < |e| ensures e[j] != '.' {
        assert e[j] in e[1..];
      }
    }
  }

  /** A name whose last extension, lower-cased, is not a video extension is refused. */
  lemma RejectedIff(stem: string, e: string)
    requires '/' !in stem && stem != [] && |e| >= 2 && e[0] == '.' && '.' !in e[1..] && '/' !in e
    ensures Accepted(stem + e) <==> Lower(e) in AllowedExtensions
  {
    SuffixOf(stem, e);
  }

  /** Whatever is accepted ends, in any case, with one of the allowed extensions, after at
      least one other character of its name. */
  lemma AcceptedEndsWithExtension(filename: string)
    requires Accepted(filename)
    ensures exists e :: e in AllowedExtensions && |e| < |filename| && Lower(filename[|filename| - |e|..]) == e
  {
    var ext := Suffix(filename);
    assert |Lower(ext)| == |ext|;
    var name := BaseName(filename);
    assert filename[|filename| - |ext|..] == name[|name| - |ext|..] == ext;
    EndsWithLowered(filename, ext);
  }

  /** A name ending in `ext`, where `ext` lower-cased is an allowed extension, ends in an allowed
      extension up to case. */
  lemma EndsWithLowered(filename: string, ext: string)
    requires Lower(ext) in AllowedExtensions && |ext| < |filename| && filename[|filename| - |ext|..] == ext
    ensures exists e :: e in AllowedExtensions && |e| < |filename| && Lower(filename[|filename| - |e|..]) == e
  {
    var e := Lower(ext);
    assert |e| == |ext|;
    assert e in AllowedExtensions && |e| < |filename| && Lower(filename[|filename| - |e|..]) == e;
  }

  /** Case does not matter. */
  lemma UpperCaseAccepted()
    ensures Accepted("clip.MP4")
  {
    assert LowerChar('M') == 'm' && LowerChar('P') == 'p';
    assert Lower(".MP4") == ".mp4";
    assert "clip.MP4" == "clip" + ".MP4";
    AcceptedIff("clip", ".MP4");
  }

  /** A hidden file named like an extension is not a video. */
  lemma HiddenFileRejected()
    ensures !Accepted(".mp4")
  {
    assert Lower(".mp4") == ".mp4";
    assert ".mp4" == [] + ".mp4";
    AcceptedIff([], ".mp4");
  }

  /** Of several extensions only the last counts. */
  lemma LastExtensionCounts()
    ensures !Accepted("clip.mp4.backup")
  {
    var stem, e := "clip.mp4", ".backup";
    assert "clip.mp4.backup" == stem + e;
    assert '/' !in stem && '.' !in e[1..] && '/' !in e;
    if Lower(e) in AllowedExtensions {
      AllowedShape(e);
      assert false;
    }
    RejectedIff(stem, e);
  }

  // ---------------------------------------------------------------------------
  // Trends

  /** The interval check of the trends endpoint: an unknown interval means `day`. */
  function TrendsInterval(interval: string): (r: string)
    ensures r in TrendIntervals
    ensures interval in TrendIntervals ==> r == interval
    ensures interval !in TrendIntervals ==> r == "day"
  {
    if interval in TrendIntervals then interval else "day"
  }

  /** The database layer's own bucket choice keeps the interval the endpoint passes it. */
  lemma TrendsIntervalReachesQuery(interval: string)
    ensures NeonDb.TruncUnit(TrendsInterval(interval)) == TrendsInterval(interval)
    ensures TrendsInterval(TrendsInterval(interval)) == TrendsInterval(interval)
  {
  }

  // ---------------------------------------------------------------------------
  // The application

  class App {
    /** `mode_state.detection_mode` */
    var mode: string
    const camera: Camera.CameraManager
    const video: VideoFile.VideoFileManager

    ghost predicate Valid()
      reads this, camera, camera.slot, video, video.slot
    {
      camera.Valid() && video.Valid() && camera.slot != video.slot
    }

    constructor(initialMode: string, camera: Camera.CameraManager, video: VideoFile.VideoFileManager)
      requires camera.Valid() && video.Valid() && camera.slot != video.slot
      ensures Valid() && mode == initialMode && this.camera == camera && this.video == video
    {
      mode := initialMode;
      this.camera := camera;
      this.video := video;
    }

    /** `set_mode`. Anything but `live` or `video` is refused and nothing changes. `live` stops
        the video and starts the camera unless it runs. `video` stops a running camera and
        starts a loaded video that is not playing; when its file is gone the start raises,
        the answer is 500 and the mode stays. */
    method SetMode(m: string, probes: seq<Camera.Probe>, fileExists: bool) returns (resp: Response)
      requires Valid() && |probes| == 3
      modifies this, camera, video, video.slot
      ensures Valid()
      ensures m != "live" && m != "video" ==>
        resp == BadRequest && mode == old(mode)
        && unchanged(camera) && unchanged(video) && unchanged(video.slot)
      ensures m == "live" ==>
        resp == Switched("live") && mode == "live"
        && !video.running && !video.loopAlive && video.slot.items == [] && video.videoPath == old(video.videoPath)
        && (old(camera.running) ==> unchanged(camera))
        && (!old(camera.running) && old(camera.activeCamera).Some? ==> camera.activeCamera == old(camera.activeCamera))
        && (!old(camera.running) && old(camera.activeCamera).None? ==> camera.activeCamera == Camera.FirstWorking(probes))
        && (!old(camera.running) ==> (camera.activeCamera.Some? <==> camera.running && camera.available))
      ensures m == "video" ==>
        !camera.running && camera.activeCamera == old(camera.activeCamera) && video.videoPath == old(video.videoPath)
        && (resp != Switched("video") ==> resp == ServerError && mode == old(mode))
        && (resp == Switched("video") ==> mode == "video")
        && (VideoFile.Loaded(old(video.videoPath)) && !old(video.running) ==>
              (resp == Switched("video") <==> fileExists)
              && (fileExists ==> video.running && video.currentFrame == 0))
        && (!(VideoFile.Loaded(old(video.videoPath)) && !old(video.running)) ==>
              resp == Switched("video") && unchanged(video) && unchanged(video.slot))
    {
      if m != "live" && m != "video" {
        return BadRequest;
      }
      if m == "live" {
        video.StopProcessing();
        if !camera.running {
          camera.StartStream(probes);
        }
        mode := "live";
      } else {
        if camera.running {
          camera.StopStream();
        }
        if VideoFile.Loaded(video.videoPath) && !video.running {
          var started := video.StartProcessing(fileExists);
          if !started {
            return ServerError;
          }
        }
        mode := "video";
      }
      resp := Switched(mode);
    }

    /** `upload_video`: a file whose lower-cased suffix is not a video extension is refused
        with 400 and nothing changes; a file that cannot be saved is a 500. A saved file,
        named `uniqueName` plus its suffix in `uploadsDir`, is loaded and played, and the
        mode becomes `video`. */
    method UploadVideo(filename: string, uploadsDir: string, uniqueName: string, saveOk: bool)
        returns (resp: UploadResponse)
      requires Valid()
      modifies this, video, video.slot
      ensures Valid()
      ensures resp.Uploaded? <==> Accepted(filename) && saveOk
      ensures !Accepted(filename) ==> resp == Unsupported
      ensures !resp.Uploaded? ==> mode == old(mode) && unchanged(video) && unchanged(video.slot)
      ensures resp.Uploaded? ==>
        var path := uploadsDir + "/" + uniqueName + Lower(Suffix(filename));
        resp == Uploaded(filename, path) && mode == "video"
        && video.videoPath == Some(path) && video.running && video.loopAlive && video.currentFrame == 0
    {
      var ext := Lower(Suffix(filename));
      if ext !in AllowedExtensions {
        return Unsupported;
      }
      if !saveOk {
        return UploadFailed;
      }
      var path := uploadsDir + "/" + uniqueName + ext;
      PlaySaved(path);
      resp := Uploaded(filename, path);
    }

    /** The saved upload is loaded and played from its first frame, in video mode. */
    method PlaySaved(path: string)
      requires Valid() && path != ""
      modifies this, video, video.slot
      ensures Valid() && mode == "video"
      ensures video.videoPath == Some(path) && video.running && video.loopAlive && video.currentFrame == 0
    {
      var _ := video.LoadVideo(path);
      var started := video.StartProcessing(true);
      assert started;
      mode := "video";
    }

    /** `stop_video`: the video stops and its file is removed; the camera is started only
        when it is not running and no camera is known. The mode is always `live`. */
    method StopVideo(fileExists: bool, removeOk: bool, probes: seq<Camera.Probe>) returns (resp: Response)
      requires Valid() && |probes| == 3
      modifies this, camera, video, video.slot
      ensures Valid()
      ensures resp == Switched("live") && mode == "live"
      ensures !video.running && !video.loopAlive && video.slot.items == []
      ensures video.videoPath == (if VideoFile.Loaded(old(video.videoPath)) && fileExists && removeOk then None
                                  else old(video.videoPath))
      ensures old(camera.running) || old(camera.activeCamera).Some? ==> unchanged(camera)
      ensures !old(camera.running) && old(camera.activeCamera).None? ==>
        camera.activeCamera == Camera.FirstWorking(probes)
        && (camera.activeCamera.Some? <==> camera.running && camera.available)
    {
      video.StopProcessing();
      video.CleanupFile(fileExists, removeOk);
      if !camera.running && camera.activeCamera.None? {
        camera.StartStream(probes);
      }
      mode := "live";
      resp := Switched("live");
    }
  }
}
