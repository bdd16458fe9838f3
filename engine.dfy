/** The player object that owns the backend instance (src/mpvobject.cpp):
    its fields, the requests it sends (options, properties, commands and
    observers, kept as a log), the event drain and the command surface. Its
    event handling is proved to agree with the functions of module Playback. */
module Engine {
  import opened Base
  import opened Text
  import opened Variant
  import Playback
  import Settings

  /** A value handed to the backend, in the format chosen from the dynamic
      value's type: booleans as flags, integers as 64-bit integers, doubles as
      doubles, everything else as its text. */
  datatype Arg = ArgFlag(flag: bool) | ArgInt64(int64: int) | ArgDouble(dbl: Float) | ArgString(text: string)

  /** A command word. `Number` is the decimal text of a double. */
  datatype Word = Text(text: string) | Number(value: Float)

  /** A request sent to the backend. */
  datatype Request =
    | OptionSet(name: string, arg: Arg)
    | PropertySet(name: string, arg: Arg)
    | CommandAsync(words: seq<Word>)
    | Observe(name: string, format: Playback.Format)
    | WakeupCallback

  /** The format `setMpvOption` / `setMpvProperty` pick for a dynamic value. */
  function ArgOf(v: Value): (r: Arg)
    ensures v.VBool? <==> r.ArgFlag?
    ensures v.VInt? <==> r.ArgInt64?
    ensures v.VDouble? <==> r.ArgDouble?
    ensures r.ArgString? ==> r.text == ToString(v)
  {
    match v
    case VBool(b) => ArgFlag(b)
    case VInt(i) => ArgInt64(i)
    case VDouble(d) => ArgDouble(d)
    case _ => ArgString(ToString(v))
  }

  /** The hardware-decoding option for a mode: only "off" disables it. */
  function HwdecOption(mode: string): (r: string)
    ensures r == "no" <==> mode == "off"
    ensures r == "no" || r == "auto-safe"
  {
    if mode == "on" then "auto-safe" else if mode == "off" then "no" else "auto-safe"
  }

  /** The tone-mapping curve, peak detection and colour-space hint an HDR mode selects. */
  datatype HdrProfile = HdrProfile(toneMapping: string, computePeak: string, colorspaceHint: string)

  /** The HDR settings of a mode: "passthrough" clips and detects no peaks,
      "tonemap" uses the hable curve with peak detection and no hint, and
      any other mode leaves curve and detection to the backend. */
  function HdrProfileOf(mode: string): (p: HdrProfile)
    ensures p.toneMapping == "clip" <==> mode == "passthrough"
    ensures p.toneMapping == "hable" <==> mode == "tonemap"
    ensures p.toneMapping == "auto" <==> mode != "passthrough" && mode != "tonemap"
    ensures p.computePeak == "no" <==> mode == "passthrough"
    ensures p.computePeak == "yes" <==> mode == "tonemap"
    ensures p.computePeak == "auto" <==> mode != "passthrough" && mode != "tonemap"
    ensures p.colorspaceHint == "no" <==> mode == "tonemap"
    ensures p.colorspaceHint == "no" || p.colorspaceHint == "yes"
  {
    if mode == "passthrough" then HdrProfile("clip", "no", "yes")
    else if mode == "tonemap" then HdrProfile("hable", "yes", "no")
    else HdrProfile("auto", "auto", "yes")
  }

  /** The options `configureHdrOptions` sets before initialisation, in order. */
  function HdrOptionRequests(mode: string): seq<Request> {
    if mode == "passthrough" then
      [OptionSet("target-trc", ArgString("auto")), OptionSet("target-prim", ArgString("auto")),
       OptionSet("tone-mapping", ArgString("clip")), OptionSet("hdr-compute-peak", ArgString("no")),
       OptionSet("target-colorspace-hint", ArgString("yes"))]
    else if mode == "tonemap" then
      [OptionSet("target-trc", ArgString("auto")), OptionSet("tone-mapping", ArgString("hable")),
       OptionSet("hdr-compute-peak", ArgString("yes")), OptionSet("target-colorspace-hint", ArgString("no"))]
    else
      [OptionSet("target-trc", ArgString("auto")), OptionSet("target-prim", ArgString("auto")),
       OptionSet("tone-mapping", ArgString("auto")), OptionSet("hdr-compute-peak", ArgString("auto")),
       OptionSet("target-colorspace-hint", ArgString("yes"))]
  }

  /** The properties `setHdrMode` sets at run time, in order. */
  function HdrPropertyRequests(mode: string): seq<Request> {
    if mode == "passthrough" then
      [PropertySet("tone-mapping", ArgString("clip")), PropertySet("hdr-compute-peak", ArgString("no")),
       PropertySet("target-colorspace-hint", ArgString("yes"))]
    else if mode == "tonemap" then
      [PropertySet("tone-mapping", ArgString("hable")), PropertySet("hdr-compute-peak", ArgString("yes")),
       PropertySet("target-colorspace-hint", ArgString("no"))]
    else
      [PropertySet("tone-mapping", ArgString("auto")), PropertySet("hdr-compute-peak", ArgString("auto")),
       PropertySet("target-colorspace-hint", ArgString("yes"))]
  }

  /** Switching the mode at run time sets the same tone mapping, peak
      detection and colour-space hint as configuring it at start-up; only
      start-up sets the target transfer, and it sets the target primaries
      for every mode but "tonemap". */
  lemma HdrModeConfigurationsAgree(mode: string)
    ensures var p := HdrProfileOf(mode);
      HdrPropertyRequests(mode) ==
        [PropertySet("tone-mapping", ArgString(p.toneMapping)),
         PropertySet("hdr-compute-peak", ArgString(p.computePeak)),
         PropertySet("target-colorspace-hint", ArgString(p.colorspaceHint))]
    ensures var p := HdrProfileOf(mode);
      && OptionSet("tone-mapping", ArgString(p.toneMapping)) in HdrOptionRequests(mode)
      && OptionSet("hdr-compute-peak", ArgString(p.computePeak)) in HdrOptionRequests(mode)
      && OptionSet("target-colorspace-hint", ArgString(p.colorspaceHint)) in HdrOptionRequests(mode)
    ensures OptionSet("target-trc", ArgString("auto")) == HdrOptionRequests(mode)[0]
    ensures OptionSet("target-prim", ArgString("auto")) in HdrOptionRequests(mode) <==> mode != "tonemap"
  {
    if mode == "passthrough" {
    } else if mode == "tonemap" {
      assert HdrOptionRequests(mode)[1] == OptionSet("tone-mapping", ArgString("hable"));
    } else {
    }
  }

  /** The graphics-API option for a renderer mode: set only for "vulkan" and "opengl". */
  function GpuApiOptions(rendererMode: string): (r: seq<Request>)
    ensures |r| <= 1
    ensures r != [] <==> rendererMode == "vulkan" || rendererMode == "opengl"
    ensures r != [] ==> r[0] == OptionSet("gpu-api", ArgString(rendererMode))
  {
    if rendererMode == "vulkan" then [OptionSet("gpu-api", ArgString("vulkan"))]
    else if rendererMode == "opengl" then [OptionSet("gpu-api", ArgString("opengl"))]
    else []
  }

  /** The logging, output and decoding options that open the start-up configuration. */
  function BaseOptions(hwdecMode: string): seq<Request> {
    [OptionSet("terminal", ArgFlag(false)), OptionSet("msg-level", ArgString("all=warn")),
     OptionSet("vo", ArgString("libmpv")), OptionSet("hwdec", ArgString(HwdecOption(hwdecMode)))]
  }

  /** The audio, subtitle and playback options that close the start-up configuration. */
  const TrailingOptions: seq<Request> :=
    [OptionSet("audio-display", ArgString("no")), OptionSet("sub-auto", ArgString("fuzzy")),
     OptionSet("sub-visibility", ArgFlag(true)), OptionSet("keep-open", ArgString("yes")),
     OptionSet("idle", ArgString("yes"))]

  /** The options set before initialisation, in order. */
  function InitOptions(hwdecMode: string, hdrMode: string, rendererMode: string): seq<Request> {
    BaseOptions(hwdecMode) + HdrOptionRequests(hdrMode) + GpuApiOptions(rendererMode) + TrailingOptions
  }

  /** The observer registrations, in the order of `Playback.Observed`. */
  function ObserveRequests(observed: seq<(string, Playback.Format)>): (r: seq<Request>)
    ensures |r| == |observed|
    ensures forall i :: 0 <= i < |observed| ==> r[i] == Observe(observed[i].0, observed[i].1)
  {
    seq(|observed|, i requires 0 <= i < |observed| => Observe(observed[i].0, observed[i].1))
  }

  /** What `mpv_wait_event` with a zero timeout returns at position `i`: the
      next queued event, or the empty event once the queue is exhausted. */
  function WaitEvent(queue: seq<Playback.Polled>, i: nat): (p: Playback.Polled)
    ensures i < |queue| ==> p == queue[i]
    ensures i >= |queue| ==> p.event.NoEvent?
  {
    if i < |queue| then queue[i] else Playback.Polled(Playback.NoEvent, map[])
  }

  class MpvObject {
    const settings: Settings.SettingsManager
    /** Whether the backend instance exists (`m_mpv` is not null). */
    var handle: bool
    /** Every request sent to the backend, in order. */
    var requests: seq<Request>
    /** Change notifications, in emission order. */
    var signals: seq<Playback.Signal>

    /** Playback position, volume and speed (`m_playing` … `m_speed`). */
    var transport: Playback.Transport
    /** Video stream parameters (`m_videoWidth` … `m_gpuApi`). */
    var video: Playback.VideoParams
    /** HDR classification and metadata (`m_contentIsHdr`, `m_maxCll`, `m_maxFall`). */
    var hdr: Playback.HdrInfo
    /** Tracks, chapters, titles and the A-B loop (`m_audioTracks` … `m_loopB`). */
    var media: Playback.Media
    var lastError: string

    /** The fields as one value. */
    function Model(): Playback.State
      reads this
    {
      Playback.State(handle, transport, video, hdr, media, lastError, signals)
    }

    /** `initializeMpv`. `created` says whether the backend instance could be
        created; `initError` is the backend's message when initialisation
        fails. The options are read from the settings store. */
    constructor(store: Settings.SettingsManager, created: bool, initError: Option<string>)
      ensures settings == store
      ensures !created ==>
        && Model() == Playback.Fresh(false, "Failed to create mpv instance",
                                     [Playback.ErrorOccurred("Failed to create mpv instance")])
        && requests == []
      ensures created && initError.Some? ==>
        && Model() == Playback.Fresh(false, "mpv initialization failed: " + initError.value,
                                     [Playback.ErrorOccurred("mpv initialization failed: " + initError.value)])
        && requests == InitOptions(store.HwdecMode(), store.HdrMode(), store.RendererMode())
      ensures created && initError.None? ==>
        && Model() == Playback.Fresh(true, "", [])
        && requests == InitOptions(store.HwdecMode(), store.HdrMode(), store.RendererMode())
                       + ObserveRequests(Playback.Observed) + [WakeupCallback]
    {
      settings := store;
      handle := created;
      requests := [];
      signals := [];
      var initial := Playback.Fresh(created, "", []);
      transport, video, hdr, media, lastError := initial.transport, initial.video, initial.hdr, initial.media, "";
      new;
      if !created {
        lastError := "Failed to create mpv instance";
        signals := signals + [Playback.ErrorOccurred(lastError)];
        return;
      }
      ghost var options := InitOptions(store.HwdecMode(), store.HdrMode(), store.RendererMode());
      SetInitialOptions();
      assert requests == options && Model() == initial;
      Initialize(initError);
    }

    /** `mpv_initialize` and what follows it: on failure the error is
        recorded and the instance destroyed; on success the observers and the
        wake-up callback are registered. */
    method Initialize(initError: Option<string>)
      requires handle
      modifies this
      ensures initError.Some? ==>
        var message := "mpv initialization failed: " + initError.value;
        && Model() == old(Model()).(handle := false, lastError := message,
                                    signals := old(signals) + [Playback.ErrorOccurred(message)])
        && requests == old(requests)
      ensures initError.None? ==>
        && Model() == old(Model())
        && requests == old(requests) + ObserveRequests(Playback.Observed) + [WakeupCallback]
    {
      if initError.Some? {
        lastError := "mpv initialization failed: " + initError.value;
        signals := signals + [Playback.ErrorOccurred(lastError)];
        handle := false;
        return;
      }
      SetupPropertyObservers();
      requests := requests + [WakeupCallback];
    }

    /** The options `initializeMpv` sets between creating and initialising
        the instance, in four groups: logging, output and decoding; HDR; the
        graphics API; audio, subtitles and playback. */
    method SetInitialOptions()
      requires handle
      modifies this
      ensures requests == old(requests) + InitOptions(settings.HwdecMode(), settings.HdrMode(), settings.RendererMode())
      ensures Model() == old(Model())
    {
      ghost var before := requests;
      SetBaseOptions(settings.HwdecMode());
      ConfigureHdrOptions(settings.HdrMode());
      SetGpuApiOption(settings.RendererMode());
      SetTrailingOptions();
      assert requests == before + BaseOptions(settings.HwdecMode()) + HdrOptionRequests(settings.HdrMode())
                         + GpuApiOptions(settings.RendererMode()) + TrailingOptions;
    }

    method SetBaseOptions(hwdecMode: string)
      requires handle
      modifies this
      ensures requests == old(requests) + BaseOptions(hwdecMode)
      ensures Model() == old(Model())
    {
      SetMpvOption("terminal", VBool(false));
      SetMpvOption("msg-level", VString("all=warn"));
      SetMpvOption("vo", VString("libmpv"));
      if hwdecMode == "on" {
        SetMpvOption("hwdec", VString("auto-safe"));
      } else if hwdecMode == "off" {
        SetMpvOption("hwdec", VString("no"));
      } else {
        SetMpvOption("hwdec", VString("auto-safe"));
      }
    }

    method SetGpuApiOption(rendererMode: string)
      requires handle
      modifies this
      ensures requests == old(requests) + GpuApiOptions(rendererMode)
      ensures Model() == old(Model())
    {
      if rendererMode == "vulkan" {
        SetMpvOption("gpu-api", VString("vulkan"));
      } else if rendererMode == "opengl" {
        SetMpvOption("gpu-api", VString("opengl"));
      }
    }

    method SetTrailingOptions()
      requires handle
      modifies this
      ensures requests == old(requests) + TrailingOptions
      ensures Model() == old(Model())
    {
      SetMpvOption("audio-display", VString("no"));
      SetMpvOption("sub-auto", VString("fuzzy"));
      SetMpvOption("sub-visibility", VBool(true));
      SetMpvOption("keep-open", VString("yes"));
      SetMpvOption("idle", VString("yes"));
    }

    /** `setMpvOption`: nothing without a backend instance. */
    method SetMpvOption(name: string, value: Value)
      modifies this
      ensures handle ==> requests == old(requests) + [OptionSet(name, ArgOf(value))]
      ensures !handle ==> requests == old(requests)
      ensures Model() == old(Model())
    {
      if !handle {
        return;
      }
      requests := requests + [OptionSet(name, ArgOf(value))];
    }

    /** `setMpvProperty`: nothing without a backend instance. */
    method SetMpvProperty(name: string, value: Value)
      modifies this
      ensures handle ==> requests == old(requests) + [PropertySet(name, ArgOf(value))]
      ensures !handle ==> requests == old(requests)
      ensures Model() == old(Model())
    {
      if !handle {
        return;
      }
      requests := requests + [PropertySet(name, ArgOf(value))];
    }

    /** Sends a command without waiting for it; nothing without a backend instance. */
    method CommandAsyncRequest(words: seq<Word>)
      modifies this
      ensures handle ==> requests == old(requests) + [CommandAsync(words)]
      ensures !handle ==> requests == old(requests)
      ensures Model() == old(Model())
    {
      if !handle {
        return;
      }
      requests := requests + [CommandAsync(words)];
    }

    /** `configureHdrOptions`. */
    method ConfigureHdrOptions(mode: string)
      modifies this
      ensures handle ==> requests == old(requests) + HdrOptionRequests(mode)
      ensures !handle ==> requests == old(requests)
      ensures Model() == old(Model())
    {
      if mode == "passthrough" {
        SetMpvOption("target-trc", VString("auto"));
        SetMpvOption("target-prim", VString("auto"));
        SetMpvOption("tone-mapping", VString("clip"));
        SetMpvOption("hdr-compute-peak", VString("no"));
        SetMpvOption("target-colorspace-hint", VString("yes"));
      } else if mode == "tonemap" {
        SetMpvOption("target-trc", VString("auto"));
        SetMpvOption("tone-mapping", VString("hable"));
        SetMpvOption("hdr-compute-peak", VString("yes"));
        SetMpvOption("target-colorspace-hint", VString("no"));
      } else {
        SetMpvOption("target-trc", VString("auto"));
        SetMpvOption("target-prim", VString("auto"));
        SetMpvOption("tone-mapping", VString("auto"));
        SetMpvOption("hdr-compute-peak", VString("auto"));
        SetMpvOption("target-colorspace-hint", VString("yes"));
      }
    }

    /** `setupPropertyObservers`: one observer per entry of `Playback.Observed`, in order. */
    method SetupPropertyObservers()
      modifies this
      ensures requests == old(requests) + ObserveRequests(Playback.Observed)
      ensures Model() == old(Model())
    {
      var i := 0;
      while i < |Playback.Observed|
        invariant 0 <= i <= |Playback.Observed|
        invariant requests == old(requests) + ObserveRequests(Playback.Observed[..i])
        invariant Model() == old(Model())
      {
        var entry := Playback.Observed[i];
        requests := requests + [Observe(entry.0, entry.1)];
        assert ObserveRequests(Playback.Observed[..i + 1]) == ObserveRequests(Playback.Observed[..i]) + [Observe(entry.0, entry.1)];
        i := i + 1;
      }
      assert Playback.Observed[..i] == Playback.Observed;
    }

    // ---- events -------------------------------------------------------

    /** `onMpvEvents`: without an instance nothing happens; otherwise events
        are taken from the queue and handled until the backend reports that
        none is pending. */
    method OnMpvEvents(queue: seq<Playback.Polled>)
      modifies this
      ensures !old(handle) ==> Model() == old(Model())
      ensures old(handle) ==> Model() == Playback.Drain(old(Model()), queue)
      ensures requests == old(requests)
      ensures Playback.Derived(old(Model())) ==> Playback.Derived(Model())
    {
      if !handle {
        return;
      }
      if Playback.Derived(Model()) {
        Playback.DrainPreservesDerived(Model(), queue);
      }
      var i := 0;
      while handle
        invariant 0 <= i <= |queue|
        invariant Playback.Drain(Model(), queue[i..]) == Playback.Drain(old(Model()), queue)
        invariant requests == old(requests)
        invariant handle
        decreases |queue| - i
      {
        var event := WaitEvent(queue, i);
        if event.event.NoEvent? {
          assert Playback.Drain(Model(), queue[i..]) == Model();
          break;
        }
        Playback.StepAppendsSignals(Model(), event);
        HandleMpvEvent(event);
        assert queue[i..][1..] == queue[i + 1..];
        i := i + 1;
      }
    }

    /** `handleMpvEvent`. */
    method HandleMpvEvent(p: Playback.Polled)
      modifies this
      ensures Model() == Playback.Step(old(Model()), p)
      ensures requests == old(requests)
    {
      match p.event
      case PropertyChange(name, data) =>
        HandlePropertyChange(name, data, p.backend);
      case FileLoaded =>
        transport := transport.(playing := true);
        signals := signals + [Playback.PlayingChanged, Playback.FileLoadedSignal];
        UpdateVideoParams(p.backend);
        CheckHdrContent(p.backend);
      case EndFile(reason, errorText) =>
        transport := transport.(playing := false);
        signals := signals + [Playback.PlayingChanged];
        if reason == Playback.EndError {
          lastError := "Playback error: " + errorText;
          signals := signals + [Playback.ErrorOccurred(lastError)];
        }
        signals := signals + [Playback.EndOfFile];
      case LogMessage(_, _, _) =>
      case OtherEvent =>
      case NoEvent =>
    }

    /** The property-change branch of `handleMpvEvent`. */
    method HandlePropertyChange(name: string, data: Playback.PropertyData, backend: Playback.Snapshot)
      modifies this
      ensures Model() == Playback.ApplyProperty(old(Model()), name, data, backend)
      ensures requests == old(requests)
    {
      var handler := Playback.Handler(name);
      if handler.None? || Playback.FormatOf(data) != Playback.PropFormat(handler.value) {
        return;
      }
      match handler.value
      case Pause =>
        var isPaused := data.flag != 0;
        transport := transport.(paused := isPaused, playing := !isPaused && Positive(transport.duration));
        signals := signals + [Playback.PausedChanged, Playback.PlayingChanged];
      case TimePos =>
        transport := transport.(position := data.dbl);
        signals := signals + [Playback.PositionChanged];
      case Duration =>
        transport := transport.(duration := data.dbl);
        signals := signals + [Playback.DurationChanged];
      case PercentPos =>
        transport := transport.(percentPos := data.dbl);
        signals := signals + [Playback.PercentPosChanged];
      case Volume =>
        transport := transport.(volume := Wrap32(data.int64));
        signals := signals + [Playback.VolumeChanged];
      case Mute =>
        transport := transport.(muted := data.flag != 0);
        signals := signals + [Playback.MutedChanged];
      case Speed =>
        transport := transport.(speed := data.dbl);
        signals := signals + [Playback.SpeedChanged];
      case VideoParamsProp =>
        UpdateVideoParams(backend);
      case VideoCodec =>
        video := video.(videoCodec := data.text);
        signals := signals + [Playback.VideoParamsChanged];
      case AudioCodec =>
        video := video.(audioCodec := data.text);
        signals := signals + [Playback.AudioParamsChanged];
      case EstimatedVfFps =>
        video := video.(fps := data.dbl);
        signals := signals + [Playback.VideoParamsChanged];
      case HwdecCurrent =>
        video := video.(hwdecCurrent := data.text);
        signals := signals + [Playback.HwdecChanged];
      case CurrentVo =>
        video := video.(voBackend := data.text);
        signals := signals + [Playback.RendererChanged];
      case GpuApi =>
        video := video.(gpuApi := data.text);
        signals := signals + [Playback.RendererChanged];
      case TrackList =>
        UpdateTracks(backend);
      case Aid =>
        media := media.(currentAudioTrack := Wrap32(data.int64));
        signals := signals + [Playback.CurrentAudioTrackChanged];
      case Sid =>
        media := media.(currentSubtitleTrack := Wrap32(data.int64));
        signals := signals + [Playback.CurrentSubtitleTrackChanged];
      case ChapterList =>
        UpdateChapters(backend);
      case ChapterProp =>
        media := media.(currentChapter := Wrap32(data.int64));
        signals := signals + [Playback.CurrentChapterChanged];
      case Filename =>
        media := media.(filename := data.text);
        signals := signals + [Playback.FilenameChanged];
      case MediaTitle =>
        media := media.(mediaTitle := data.text);
        signals := signals + [Playback.MediaTitleChanged];
      case AbLoopA =>
        media := media.(loopA := data.dbl);
        signals := signals + [Playback.LoopChanged];
      case AbLoopB =>
        media := media.(loopB := data.dbl);
        signals := signals + [Playback.LoopChanged];
    }

    /** `updateVideoParams`. */
    method UpdateVideoParams(backend: Playback.Snapshot)
      modifies this
      ensures Model() == Playback.UpdateVideoParams(old(Model()), backend)
      ensures requests == old(requests)
    {
      if !handle {
        return;
      }
      if "video-params" in backend {
        var params := NodeToVariant(backend["video-params"]);
        if params.VMap? {
          var fields := params.fields;
          var pixelFormat := ToString(Get(fields, "pixelformat", VString("")));
          video := video.(width := ToInt(Get(fields, "dw", VInt(0))), height := ToInt(Get(fields, "dh", VInt(0))),
                          pixelFormat := pixelFormat,
                          primaries := ToString(Get(fields, "primaries", VString(""))),
                          transfer := ToString(Get(fields, "gamma", VString(""))),
                          matrix := ToString(Get(fields, "colormatrix", VString(""))),
                          bitDepth := Playback.BitDepth(pixelFormat));
          signals := signals + [Playback.VideoParamsChanged];
          CheckHdrContent(backend);
        }
      }
    }

    /** `checkHdrContent`. */
    method CheckHdrContent(backend: Playback.Snapshot)
      modifies this
      ensures Model() == Playback.CheckHdrContent(old(Model()), backend)
      ensures requests == old(requests)
    {
      var isHdr := Playback.IsHdrContent(video.transfer, video.primaries);
      if hdr.contentIsHdr != isHdr {
        hdr := hdr.(contentIsHdr := isHdr);
        if "video-params" in backend {
          var params := NodeToVariant(backend["video-params"]);
          if params.VMap? {
            hdr := hdr.(maxCll := ToDouble(Get(params.fields, "max-cll", Playback.Zero)),
                        maxFall := ToDouble(Get(params.fields, "max-luma", Playback.Zero)));
          }
        }
        signals := signals + [Playback.HdrInfoChanged];
      }
    }

    /** `updateTracks`: one pass over the track list. */
    method UpdateTracks(backend: Playback.Snapshot)
      modifies this
      ensures Model() == Playback.UpdateTracks(old(Model()), backend)
      ensures requests == old(requests)
    {
      if !handle {
        return;
      }
      if "track-list" in backend {
        var tracks := NodeToVariant(backend["track-list"]);
        var audio: seq<Value> := [];
        var subs: seq<Value> := [];
        if tracks.VList? {
          var list := tracks.list;
          var i := 0;
          while i < |list|
            invariant 0 <= i <= |list|
            invariant (audio, subs) == Playback.SplitTracks(list[..i])
          {
            var track := list[i];
            assert list[..i + 1][..i] == list[..i];
            if track.VMap? {
              var kind := ToString(Get(track.fields, "type", Invalid));
              if kind == "audio" {
                audio := audio + [track];
              } else if kind == "sub" {
                subs := subs + [track];
              }
            }
            i := i + 1;
          }
          assert list[..i] == list;
        }
        media := media.(audioTracks := audio, subtitleTracks := subs);
        signals := signals + [Playback.TracksChanged];
      }
    }

    /** `updateChapters`. */
    method UpdateChapters(backend: Playback.Snapshot)
      modifies this
      ensures Model() == Playback.UpdateChapters(old(Model()), backend)
      ensures requests == old(requests)
    {
      if !handle {
        return;
      }
      if "chapter-list" in backend {
        var chapterList := NodeToVariant(backend["chapter-list"]);
        var list: seq<Value> := [];
        if chapterList.VList? {
          list := chapterList.list;
        }
        media := media.(chapters := list);
        signals := signals + [Playback.ChaptersChanged];
      }
    }

    // ---- commands -----------------------------------------------------

    /** `loadFile`. */
    method LoadFile(path: string)
      modifies this
      ensures handle ==> requests == old(requests) + [CommandAsync([Text("loadfile"), Text(path)])]
      ensures !handle ==> requests == old(requests)
      ensures Model() == old(Model())
    {
      CommandAsyncRequest([Text("loadfile"), Text(path)]);
    }

    /** `play`: clears the pause flag. */
    method Play()
      modifies this
      ensures handle ==> requests == old(requests) + [PropertySet("pause", ArgFlag(false))]
      ensures !handle ==> requests == old(requests)
      ensures Model() == old(Model())
    {
      SetMpvProperty("pause", VBool(false));
    }

    /** `pause`: sets the pause flag. */
    method Pause()
      modifies this
      ensures handle ==> requests == old(requests) + [PropertySet("pause", ArgFlag(true))]
      ensures !handle ==> requests == old(requests)
      ensures Model() == old(Model())
    {
      SetMpvProperty("pause", VBool(true));
    }

    method Stop()
      modifies this
      ensures handle ==> requests == old(requests) + [CommandAsync([Text("stop")])]
      ensures !handle ==> requests == old(requests)
      ensures Model() == old(Model())
    {
      CommandAsyncRequest([Text("stop")]);
    }

    method TogglePause()
      modifies this
      ensures handle ==> requests == old(requests) + [CommandAsync([Text("cycle"), Text("pause")])]
      ensures !handle ==> requests == old(requests)
      ensures Model() == old(Model())
    {
      CommandAsyncRequest([Text("cycle"), Text("pause")]);
    }

    /** `seek`: relative to the current position. */
    method Seek(seconds: Float)
      modifies this
      ensures handle ==> requests == old(requests) + [CommandAsync([Text("seek"), Number(seconds), Text("relative")])]
      ensures !handle ==> requests == old(requests)
      ensures Model() == old(Model())
    {
      CommandAsyncRequest([Text("seek"), Number(seconds), Text("relative")]);
    }

    method SeekAbsolute(seconds: Float)
      modifies this
      ensures handle ==> requests == old(requests) + [CommandAsync([Text("seek"), Number(seconds), Text("absolute")])]
      ensures !handle ==> requests == old(requests)
      ensures Model() == old(Model())
    {
      CommandAsyncRequest([Text("seek"), Number(seconds), Text("absolute")]);
    }

    method SeekPercent(percent: Float)
      modifies this
      ensures handle ==> requests == old(requests) + [CommandAsync([Text("seek"), Number(percent), Text("absolute-percent")])]
      ensures !handle ==> requests == old(requests)
      ensures Model() == old(Model())
    {
      CommandAsyncRequest([Text("seek"), Number(percent), Text("absolute-percent")]);
    }

    /** `setVolume`: the requested volume is clamped to [0, 150] before it is sent. */
    method SetVolume(vol: int)
      modifies this
      ensures handle ==> requests == old(requests) + [PropertySet("volume", ArgInt64(ClampInt(0, vol, 150)))]
      ensures !handle ==> requests == old(requests)
      ensures Model() == old(Model())
    {
      SetMpvProperty("volume", VInt(ClampInt(0, vol, 150)));
    }

    method SetMuted(muted: bool)
      modifies this
      ensures handle ==> requests == old(requests) + [PropertySet("mute", ArgFlag(muted))]
      ensures !handle ==> requests == old(requests)
      ensures Model() == old(Model())
    {
      SetMpvProperty("mute", VBool(muted));
    }

    /** `setSpeed`: the requested speed is clamped to [0.25, 4] before it is sent. */
    method SetSpeed(speed: Float)
      modifies this
      ensures handle ==> requests == old(requests) + [PropertySet("speed", ArgDouble(QBound(0.25, speed, 4.0)))]
      ensures !handle ==> requests == old(requests)
      ensures Model() == old(Model())
    {
      SetMpvProperty("speed", VDouble(QBound(0.25, speed, 4.0)));
    }

    method SetAudioTrack(id: int)
      modifies this
      ensures handle ==> requests == old(requests) + [PropertySet("aid", ArgInt64(id))]
      ensures !handle ==> requests == old(requests)
      ensures Model() == old(Model())
    {
      SetMpvProperty("aid", VInt(id));
    }

    method SetSubtitleTrack(id: int)
      modifies this
      ensures handle ==> requests == old(requests) + [PropertySet("sid", ArgInt64(id))]
      ensures !handle ==> requests == old(requests)
      ensures Model() == old(Model())
    {
      SetMpvProperty("sid", VInt(id));
    }

    /** `loadSubtitleFile`: adds the file and selects it. */
    method LoadSubtitleFile(path: string)
      modifies this
      ensures handle ==> requests == old(requests) + [CommandAsync([Text("sub-add"), Text(path), Text("select")])]
      ensures !handle ==> requests == old(requests)
      ensures Model() == old(Model())
    {
      CommandAsyncRequest([Text("sub-add"), Text(path), Text("select")]);
    }

    method SetChapter(index: int)
      modifies this
      ensures handle ==> requests == old(requests) + [PropertySet("chapter", ArgInt64(index))]
      ensures !handle ==> requests == old(requests)
      ensures Model() == old(Model())
    {
      SetMpvProperty("chapter", VInt(index));
    }

    method NextChapter()
      modifies this
      ensures handle ==> requests == old(requests) + [CommandAsync([Text("add"), Text("chapter"), Text("1")])]
      ensures !handle ==> requests == old(requests)
      ensures Model() == old(Model())
    {
      CommandAsyncRequest([Text("add"), Text("chapter"), Text("1")]);
    }

    method PreviousChapter()
      modifies this
      ensures handle ==> requests == old(requests) + [CommandAsync([Text("add"), Text("chapter"), Text("-1")])]
      ensures !handle ==> requests == old(requests)
      ensures Model() == old(Model())
    {
      CommandAsyncRequest([Text("add"), Text("chapter"), Text("-1")]);
    }

    method FrameStep()
      modifies this
      ensures handle ==> requests == old(requests) + [CommandAsync([Text("frame-step")])]
      ensures !handle ==> requests == old(requests)
      ensures Model() == old(Model())
    {
      CommandAsyncRequest([Text("frame-step")]);
    }

    method FrameBackStep()
      modifies this
      ensures handle ==> requests == old(requests) + [CommandAsync([Text("frame-back-step")])]
      ensures !handle ==> requests == old(requests)
      ensures Model() == old(Model())
    {
      CommandAsyncRequest([Text("frame-back-step")]);
    }

    /** `setLoopA`: the loop start is the current position. */
    method SetLoopA()
      modifies this
      ensures handle ==> requests == old(requests) + [PropertySet("ab-loop-a", ArgDouble(transport.position))]
      ensures !handle ==> requests == old(requests)
      ensures Model() == old(Model())
    {
      SetMpvProperty("ab-loop-a", VDouble(transport.position));
    }

    /** `setLoopB`: the loop end is the current position. */
    method SetLoopB()
      modifies this
      ensures handle ==> requests == old(requests) + [PropertySet("ab-loop-b", ArgDouble(transport.position))]
      ensures !handle ==> requests == old(requests)
      ensures Model() == old(Model())
    {
      SetMpvProperty("ab-loop-b", VDouble(transport.position));
    }

    /** `clearLoop`: both loop points are set to "no". */
    method ClearLoop()
      modifies this
      ensures handle ==> requests == old(requests) + [PropertySet("ab-loop-a", ArgString("no")), PropertySet("ab-loop-b", ArgString("no"))]
      ensures !handle ==> requests == old(requests)
      ensures Model() == old(Model())
    {
      SetMpvProperty("ab-loop-a", VString("no"));
      SetMpvProperty("ab-loop-b", VString("no"));
    }

    /** `setHdrMode`: stores the mode, then applies its tone mapping at run
        time (stored even without an instance). */
    method SetHdrMode(mode: string)
      modifies this, settings
      ensures settings.HdrMode() == mode
      ensures old(settings.HdrMode()) != mode ==>
        && settings.store == old(settings.store)[Settings.HdrModeKey := VString(mode)]
        && settings.signals == old(settings.signals) + [Settings.HdrModeChanged]
      ensures old(settings.HdrMode()) == mode ==>
        settings.store == old(settings.store) && settings.signals == old(settings.signals)
      ensures handle ==> requests == old(requests) + HdrPropertyRequests(mode)
      ensures !handle ==> requests == old(requests)
      ensures Model() == old(Model())
    {
      settings.SetHdrMode(mode);
      if mode == "passthrough" {
        SetMpvProperty("tone-mapping", VString("clip"));
        SetMpvProperty("hdr-compute-peak", VString("no"));
        SetMpvProperty("target-colorspace-hint", VString("yes"));
      } else if mode == "tonemap" {
        SetMpvProperty("tone-mapping", VString("hable"));
        SetMpvProperty("hdr-compute-peak", VString("yes"));
        SetMpvProperty("target-colorspace-hint", VString("no"));
      } else {
        SetMpvProperty("tone-mapping", VString("auto"));
        SetMpvProperty("hdr-compute-peak", VString("auto"));
        SetMpvProperty("target-colorspace-hint", VString("yes"));
      }
    }

    /** `setHwdecMode`: stores the mode, then switches decoding at run time. */
    method SetHwdecMode(mode: string)
      modifies this, settings
      ensures settings.HwdecMode() == mode
      ensures old(settings.HwdecMode()) != mode ==>
        && settings.store == old(settings.store)[Settings.HwdecModeKey := VString(mode)]
        && settings.signals == old(settings.signals) + [Settings.HwdecModeChanged]
      ensures old(settings.HwdecMode()) == mode ==>
        settings.store == old(settings.store) && settings.signals == old(settings.signals)
      ensures handle ==> requests == old(requests) + [PropertySet("hwdec", ArgString(HwdecOption(mode)))]
      ensures !handle ==> requests == old(requests)
      ensures Model() == old(Model())
    {
      settings.SetHwdecMode(mode);
      if mode == "on" {
        SetMpvProperty("hwdec", VString("auto-safe"));
      } else if mode == "off" {
        SetMpvProperty("hwdec", VString("no"));
      } else {
        SetMpvProperty("hwdec", VString("auto-safe"));
      }
    }

    /** `setRendererMode`: only stores the mode; it takes effect at the next start. */
    method SetRendererMode(mode: string)
      modifies settings
      ensures settings.RendererMode() == mode
      ensures old(settings.RendererMode()) != mode ==>
        && settings.store == old(settings.store)[Settings.RendererModeKey := VString(mode)]
        && settings.signals == old(settings.signals) + [Settings.RendererModeChanged]
      ensures old(settings.RendererMode()) == mode ==>
        settings.store == old(settings.store) && settings.signals == old(settings.signals)
      ensures requests == old(requests) && Model() == old(Model())
    {
      settings.SetRendererMode(mode);
    }

    // ---- queries ------------------------------------------------------

    /** `getMpvProperty`: the converted property value, or an invalid value
        without an instance or when the read fails. */
    function GetMpvProperty(name: string, backend: Playback.Snapshot): (r: Value)
      reads this
      ensures !handle || name !in backend ==> r == Invalid
      ensures handle && name in backend ==> r == NodeToVariant(backend[name])
    {
      if !handle then Invalid
      else if name in backend then NodeToVariant(backend[name])
      else Invalid
    }

    /** `getMpvVersion`: the "mpv-version" property as text, empty without an
        instance or when the read fails. */
    function GetMpvVersion(backend: Playback.Snapshot): (r: string)
      reads this
      ensures !handle || "mpv-version" !in backend ==> r == ""
    {
      if handle && "mpv-version" in backend && backend["mpv-version"].NString? then backend["mpv-version"].str else ""
    }
  }
}
