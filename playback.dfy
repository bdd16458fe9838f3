/** The player's record of the backend (the fields of `MpvObject`,
    src/mpvobject.h) as a value, the events the backend delivers, and the
    effect of one event (`handleMpvEvent`) and of one drain pass
    (`onMpvEvents`) as functions. The class in engine.dfy performs the same
    updates field by field and is proved to agree with `Step` and `Drain`. */
module Playback {
  import opened Base
  import opened Text
  import opened Variant

  // ---- events ----------------------------------------------------------

  /** The declared format of an observed property. */
  datatype Format = FormatNone | FormatString | FormatFlag | FormatInt64 | FormatDouble | FormatNode

  /** The payload of a property-change event, tagged with its format. A null
      string pointer arrives as the empty string. */
  datatype PropertyData =
    | DataNone
    | DataString(text: string)
    | DataFlag(flag: int)
    | DataInt64(int64: int)
    | DataDouble(dbl: Float)
    | DataNode(node: Node)

  function FormatOf(d: PropertyData): Format {
    match d
    case DataNone => FormatNone
    case DataString(_) => FormatString
    case DataFlag(_) => FormatFlag
    case DataInt64(_) => FormatInt64
    case DataDouble(_) => FormatDouble
    case DataNode(_) => FormatNode
  }

  datatype EndReason = EndEof | EndStop | EndQuit | EndError | EndRedirect

  /** A backend event. `errorText` is the backend's message for the error
      code of an ended file. */
  datatype Event =
    | NoEvent
    | PropertyChange(name: string, data: PropertyData)
    | FileLoaded
    | EndFile(reason: EndReason, errorText: string)
    | LogMessage(level: int, prefix: string, text: string)
    | OtherEvent

  /** What reading a property as a node tree returns while one event is being
      handled; a name that is absent is a read that fails. */
  type Snapshot = map<string, Node>

  /** An event together with the property values the backend reports while it is handled. */
  datatype Polled = Polled(event: Event, backend: Snapshot)

  /** The properties the player observes after initialisation, in order (`setupPropertyObservers`). */
  const Observed: seq<(string, Format)> := [
    ("pause", FormatFlag), ("time-pos", FormatDouble), ("duration", FormatDouble),
    ("percent-pos", FormatDouble), ("volume", FormatInt64), ("mute", FormatFlag),
    ("speed", FormatDouble),
    ("video-params", FormatNode), ("video-format", FormatString), ("video-codec", FormatString),
    ("audio-codec", FormatString), ("estimated-vf-fps", FormatDouble), ("container-fps", FormatDouble),
    ("hwdec-current", FormatString), ("current-vo", FormatString), ("gpu-api", FormatString),
    ("track-list", FormatNode), ("aid", FormatInt64), ("sid", FormatInt64),
    ("chapter-list", FormatNode), ("chapter", FormatInt64),
    ("filename", FormatString), ("media-title", FormatString),
    ("ab-loop-a", FormatDouble), ("ab-loop-b", FormatDouble)
  ]

  /** The properties the property-change handler acts on. */
  datatype Prop =
    | Pause
    | TimePos
    | Duration
    | PercentPos
    | Volume
    | Mute
    | Speed
    | VideoParamsProp
    | VideoCodec
    | AudioCodec
    | EstimatedVfFps
    | HwdecCurrent
    | CurrentVo
    | GpuApi
    | TrackList
    | Aid
    | Sid
    | ChapterList
    | ChapterProp
    | Filename
    | MediaTitle
    | AbLoopA
    | AbLoopB

  /** The name under which a property is observed. */
  function PropName(p: Prop): string {
    match p
    case Pause => "pause"
    case TimePos => "time-pos"
    case Duration => "duration"
    case PercentPos => "percent-pos"
    case Volume => "volume"
    case Mute => "mute"
    case Speed => "speed"
    case VideoParamsProp => "video-params"
    case VideoCodec => "video-codec"
    case AudioCodec => "audio-codec"
    case EstimatedVfFps => "estimated-vf-fps"
    case HwdecCurrent => "hwdec-current"
    case CurrentVo => "current-vo"
    case GpuApi => "gpu-api"
    case TrackList => "track-list"
    case Aid => "aid"
    case Sid => "sid"
    case ChapterList => "chapter-list"
    case ChapterProp => "chapter"
    case Filename => "filename"
    case MediaTitle => "media-title"
    case AbLoopA => "ab-loop-a"
    case AbLoopB => "ab-loop-b"
  }

  /** The format the handler for a property expects. */
  function PropFormat(p: Prop): Format {
    match p
    case Pause => FormatFlag
    case TimePos => FormatDouble
    case Duration => FormatDouble
    case PercentPos => FormatDouble
    case Volume => FormatInt64
    case Mute => FormatFlag
    case Speed => FormatDouble
    case VideoParamsProp => FormatNode
    case VideoCodec => FormatString
    case AudioCodec => FormatString
    case EstimatedVfFps => FormatDouble
    case HwdecCurrent => FormatString
    case CurrentVo => FormatString
    case GpuApi => FormatString
    case TrackList => FormatNode
    case Aid => FormatInt64
    case Sid => FormatInt64
    case ChapterList => FormatNode
    case ChapterProp => FormatInt64
    case Filename => FormatString
    case MediaTitle => FormatString
    case AbLoopA => FormatDouble
    case AbLoopB => FormatDouble
  }

  /** The handler a property name selects, if any. */
  function Handler(name: string): Option<Prop> {
    if name == "pause" then Some(Pause)
    else if name == "time-pos" then Some(TimePos)
    else if name == "duration" then Some(Duration)
    else if name == "percent-pos" then Some(PercentPos)
    else if name == "volume" then Some(Volume)
    else if name == "mute" then Some(Mute)
    else if name == "speed" then Some(Speed)
    else if name == "video-params" then Some(VideoParamsProp)
    else if name == "video-codec" then Some(VideoCodec)
    else if name == "audio-codec" then Some(AudioCodec)
    else if name == "estimated-vf-fps" then Some(EstimatedVfFps)
    else if name == "hwdec-current" then Some(HwdecCurrent)
    else if name == "current-vo" then Some(CurrentVo)
    else if name == "gpu-api" then Some(GpuApi)
    else if name == "track-list" then Some(TrackList)
    else if name == "aid" then Some(Aid)
    else if name == "sid" then Some(Sid)
    else if name == "chapter-list" then Some(ChapterList)
    else if name == "chapter" then Some(ChapterProp)
    else if name == "filename" then Some(Filename)
    else if name == "media-title" then Some(MediaTitle)
    else if name == "ab-loop-a" then Some(AbLoopA)
    else if name == "ab-loop-b" then Some(AbLoopB)
    else None
  }

  // ---- state -----------------------------------------------------------

  /** Change notifications, in emission order. */
  datatype Signal =
    | PausedChanged | PlayingChanged | PositionChanged | DurationChanged | PercentPosChanged
    | VolumeChanged | MutedChanged | SpeedChanged
    | VideoParamsChanged | AudioParamsChanged | HwdecChanged | RendererChanged | HdrInfoChanged
    | TracksChanged | CurrentAudioTrackChanged | CurrentSubtitleTrackChanged
    | ChaptersChanged | CurrentChapterChanged
    | FilenameChanged | MediaTitleChanged | LoopChanged
    | FileLoadedSignal | EndOfFile | ErrorOccurred(message: string)

  datatype Transport = Transport(
    playing: bool, paused: bool, position: Float, duration: Float, percentPos: Float,
    volume: int, muted: bool, speed: Float)

  datatype VideoParams = VideoParams(
    width: int, height: int, fps: Float, videoCodec: string, audioCodec: string,
    pixelFormat: string, bitDepth: int, primaries: string, transfer: string, matrix: string,
    hwdecCurrent: string, voBackend: string, gpuApi: string)

  datatype HdrInfo = HdrInfo(contentIsHdr: bool, maxCll: Float, maxFall: Float)

  datatype Media = Media(
    audioTracks: seq<Value>, subtitleTracks: seq<Value>,
    currentAudioTrack: int, currentSubtitleTrack: int,
    chapters: seq<Value>, currentChapter: int,
    filename: string, mediaTitle: string, loopA: Float, loopB: Float)

  /** Everything `MpvObject` records; `handle` says whether a backend instance exists. */
  datatype State = State(
    handle: bool, transport: Transport, video: VideoParams, hdr: HdrInfo, media: Media,
    lastError: string, signals: seq<Signal>)

  /** The field initialisers of src/mpvobject.h, before any event. */
  function Fresh(handle: bool, lastError: string, signals: seq<Signal>): (s: State)
    ensures s.video.bitDepth == 8 && s.media.currentChapter == -1 && s.transport.volume == 100
    ensures Derived(s)
  {
    var s := State(handle,
      Transport(false, false, Num(0.0), Num(0.0), Num(0.0), 100, false, Num(1.0)),
      VideoParams(0, 0, Num(0.0), "", "", "", 8, "", "", "", "", "", ""),
      HdrInfo(false, Num(0.0), Num(0.0)),
      Media([], [], 0, 0, [], -1, "", "", Num(-1.0), Num(-1.0)),
      lastError, signals);
    assert !Contains("", "10le") && !Contains("", "12le") && !Contains("", "16le");
    s
  }

  // ---- classification ----------------------------------------------------

  /** Bit depth from a pixel-format name, tried in the order 10, 12, 16, else 8. */
  function BitDepth(pixelFormat: string): (depth: int)
    ensures depth in {8, 10, 12, 16}
  {
    var pf := Lower(pixelFormat);
    if Contains(pf, "10le") || Contains(pf, "10be") || Contains(pf, "p010") then 10
    else if Contains(pf, "12le") || Contains(pf, "12be") then 12
    else if Contains(pf, "16le") || Contains(pf, "16be") then 16
    else 8
  }

  /** The transfer string names PQ (SMPTE ST 2084) or HLG (ARIB STD-B67). */
  predicate IsPqOrHlg(transfer: string) {
    var t := Lower(transfer);
    Contains(t, "pq") || Contains(t, "smpte-st-2084") || Contains(t, "hlg") || Contains(t, "arib-std-b67")
    || t == "st2084" || t == "smpte2084"
  }

  /** The primaries string names ITU-R BT.2020. */
  predicate IsBt2020(primaries: string) {
    var p := Lower(primaries);
    Contains(p, "bt.2020") || Contains(p, "bt2020") || p == "2020"
  }

  predicate IsHdrContent(transfer: string, primaries: string) {
    IsPqOrHlg(transfer) && IsBt2020(primaries)
  }

  /** The derived fields agree with the strings they are derived from. */
  predicate Derived(s: State) {
    s.video.bitDepth == BitDepth(s.video.pixelFormat)
    && s.hdr.contentIsHdr == IsHdrContent(s.video.transfer, s.video.primaries)
  }

  /** The classifiers ignore ASCII letter case. */
  lemma ClassifiersIgnoreCase(s: string, t: string)
    ensures BitDepth(Upper(s)) == BitDepth(s) && BitDepth(Lower(s)) == BitDepth(s)
    ensures IsHdrContent(Upper(s), Upper(t)) == IsHdrContent(s, t)
    ensures IsHdrContent(Lower(s), Lower(t)) == IsHdrContent(s, t)
  {
    LowerOfUpper(s);
    LowerOfUpper(t);
  }

  lemma ContainsWitness(s: string, sub: string, i: int)
    requires OccursAt(s, sub, i)
    ensures Contains(s, sub)
  {
    ContainsAt(s, sub);
  }

  /** Bit depths for typical pixel formats: the 10-bit software and hardware
      formats, whatever their case; 12 and 16 bits; and a name matching two
      rules, where the 10-bit rule, tried first, wins. */
  lemma BitDepthTenExamples()
    ensures BitDepth("yuv420p10le") == 10 && BitDepth("P010") == 10 && BitDepth("x10le12le") == 10
  {
    var sw, hw, both := "yuv420p10le", "P010", "x10le12le";
    LowerIdentity(sw);
    ContainsWitness(sw, "10le", 7);
    assert Lower(hw) == "p010";
    ContainsWitness("p010", "p010", 0);
    LowerIdentity(both);
    ContainsWitness(both, "10le", 1);
  }

  /** "yuv444p12be" is 12-bit. The text is a parameter fixed by the requires:
      written as a literal in the ensures, it makes the verifier unfold the
      substring searches over the literal and exhaust its resources. */
  lemma BitDepthTwelveExample(s: string)
    requires s == "yuv444p12be"
    ensures BitDepth(s) == 12
  {
    assert Lower(s) == s by { LowerIdentity(s); }
    assert !Contains(s, "10le") by { MissingCharNotContained(s, "10le", 'l'); }
    assert !Contains(s, "10be") by { MissingCharNotContained(s, "10be", '0'); }
    assert !Contains(s, "p010") by { MissingCharNotContained(s, "p010", '0'); }
    assert !Contains(s, "12le") by { MissingCharNotContained(s, "12le", 'l'); }
    assert Contains(s, "12be") by { ContainsWitness(s, "12be", 7); }
  }

  /** "gray16le" is 16-bit. The text is a parameter fixed by the requires:
      written as a literal in the ensures, it makes the verifier unfold the
      substring searches over the literal and exhaust its resources. */
  lemma BitDepthSixteenExample(s: string)
    requires s == "gray16le"
    ensures BitDepth(s) == 16
  {
    assert Lower(s) == s by { LowerIdentity(s); }
    assert !Contains(s, "10le") by { MissingCharNotContained(s, "10le", '0'); }
    assert !Contains(s, "10be") by { MissingCharNotContained(s, "10be", '0'); }
    assert !Contains(s, "p010") by { MissingCharNotContained(s, "p010", '0'); }
    assert !Contains(s, "12le") by { MissingCharNotContained(s, "12le", '2'); }
    assert !Contains(s, "12be") by { MissingCharNotContained(s, "12be", '2'); }
    assert Contains(s, "16le") by { ContainsWitness(s, "16le", 4); }
  }

  lemma BitDepthEightExample()
    ensures BitDepth("yuv420p") == 8
  {
    var s := "yuv420p";
    assert Lower(s) == s by { LowerIdentity(s); }
    assert !Contains(s, "10le") by { MissingCharNotContained(s, "10le", '1'); }
    assert !Contains(s, "10be") by { MissingCharNotContained(s, "10be", '1'); }
    assert !Contains(s, "p010") by { MissingCharNotContained(s, "p010", '1'); }
    assert !Contains(s, "12le") by { MissingCharNotContained(s, "12le", '1'); }
    assert !Contains(s, "12be") by { MissingCharNotContained(s, "12be", '1'); }
    assert !Contains(s, "16le") by { MissingCharNotContained(s, "16le", '1'); }
    assert !Contains(s, "16be") by { MissingCharNotContained(s, "16be", '1'); }
  }

  /** The classifier on typical stream tags: PQ with BT.2020 is HDR; BT.709
      transfer, or BT.601 primaries, is not. */
  lemma HdrExample()
    ensures IsHdrContent("smpte-st-2084", "bt.2020")
  {
    var pq, bt2020 := "smpte-st-2084", "bt.2020";
    LowerIdentity(pq);
    LowerIdentity(bt2020);
    ContainsWitness(pq, "smpte-st-2084", 0);
    ContainsWitness(bt2020, "bt.2020", 0);
  }

  /** A BT.709 transfer is not HDR, even with BT.2020 primaries. The texts are
      parameters fixed by the requires: written as a literal in the ensures,
      it makes the verifier unfold the substring searches over the literal and
      exhaust its resources. */
  lemma SdrTransferExample(bt709: string, bt2020: string)
    requires bt709 == "bt709" && bt2020 == "bt.2020"
    ensures !IsHdrContent(bt709, bt2020)
  {
    LowerIdentity(bt709);
    MissingCharNotContained(bt709, "pq", 'q');
    MissingCharNotContained(bt709, "smpte-st-2084", 's');
    MissingCharNotContained(bt709, "hlg", 'h');
    MissingCharNotContained(bt709, "arib-std-b67", 'a');
  }

  lemma SdrPrimariesExample()
    ensures !IsHdrContent("hlg", "bt601")
  {
    var hlg, bt601 := "hlg", "bt601";
    LowerIdentity(bt601);
    MissingCharNotContained(bt601, "bt.2020", '2');
    MissingCharNotContained(bt601, "bt2020", '2');
  }

  /** "st2084", "smpte2084" and "2020" are recognised only as the whole string
      (in any case), not as a part of it, unlike the other aliases. The texts
      are parameters fixed by the requires: written as a literal in the
      ensures, it makes the verifier unfold the substring searches over the
      literal and exhaust its resources. */
  lemma ExactTransferAliases(st: string, stx: string)
    requires st == "ST2084" && stx == "st2084x"
    ensures IsPqOrHlg(st) && !IsPqOrHlg(stx)
  {
    var l := Lower(st);
    assert l[0] == 's' && l[1] == 't';
    assert l == "st2084";
    LowerIdentity(stx);
    MissingCharNotContained(stx, "pq", 'q');
    MissingCharNotContained(stx, "smpte-st-2084", 'm');
    MissingCharNotContained(stx, "hlg", 'h');
    MissingCharNotContained(stx, "arib-std-b67", 'a');
  }

  lemma ExactPrimariesAlias()
    ensures IsBt2020("2020") && !IsBt2020("rec2020")
  {
    var y, rec := "2020", "rec2020";
    LowerIdentity(y);
    LowerIdentity(rec);
    MissingCharNotContained(rec, "bt.2020", 'b');
    MissingCharNotContained(rec, "bt2020", 'b');
  }

  // ---- updates ---------------------------------------------------------

  /** Reads `name` and converts it; `Some` only when the read succeeds and the
      value is a map (`canConvert<QVariantMap>`). */
  function ReadMap(backend: Snapshot, name: string): (r: Option<map<string, Value>>)
    ensures r.Some? <==> name in backend && NodeToVariant(backend[name]).VMap?
    ensures r.Some? ==> r.value == NodeToVariant(backend[name]).fields
  {
    if name in backend && NodeToVariant(backend[name]).VMap? then Some(NodeToVariant(backend[name]).fields) else None
  }

  /** Reads `name` and converts it; `Some` only when the read succeeds. An
      unsuccessful conversion to a list gives the empty list. */
  function ReadList(backend: Snapshot, name: string): (r: Option<seq<Value>>)
    ensures r.Some? <==> name in backend
    ensures r.Some? && NodeToVariant(backend[name]).VList? ==> r.value == NodeToVariant(backend[name]).list
    ensures r.Some? && !NodeToVariant(backend[name]).VList? ==> r.value == []
  {
    if name !in backend then None
    else match NodeToVariant(backend[name])
      case VList(l) => Some(l)
      case _ => Some([])
  }

  const Zero: Value := VDouble(Num(0.0))

  /** `checkHdrContent`: reclassifies the content. Only when the classification
      flips are the peak levels refreshed (when "video-params" reads as a map)
      and the change announced; the frame-average level is taken from "max-luma". */
  function CheckHdrContent(s: State, backend: Snapshot): (r: State)
    ensures r.hdr.contentIsHdr == IsHdrContent(s.video.transfer, s.video.primaries)
    ensures s.hdr.contentIsHdr == r.hdr.contentIsHdr ==> r == s
    ensures s.hdr.contentIsHdr != r.hdr.contentIsHdr ==>
      && r == s.(hdr := r.hdr, signals := s.signals + [HdrInfoChanged])
      && (ReadMap(backend, "video-params").None? ==> r.hdr.maxCll == s.hdr.maxCll && r.hdr.maxFall == s.hdr.maxFall)
      && (ReadMap(backend, "video-params").Some? ==>
            var m := ReadMap(backend, "video-params").value;
            r.hdr.maxCll == ToDouble(Get(m, "max-cll", Zero)) && r.hdr.maxFall == ToDouble(Get(m, "max-luma", Zero)))
  {
    var isHdr := IsHdrContent(s.video.transfer, s.video.primaries);
    if s.hdr.contentIsHdr == isHdr then s
    else
      var hdr := match ReadMap(backend, "video-params")
        case Some(m) => HdrInfo(isHdr, ToDouble(Get(m, "max-cll", Zero)), ToDouble(Get(m, "max-luma", Zero)))
        case None => s.hdr.(contentIsHdr := isHdr);
      s.(hdr := hdr, signals := s.signals + [HdrInfoChanged])
  }

  /** The video fields taken from a "video-params" map, with the bit depth derived. */
  function VideoFromMap(v: VideoParams, m: map<string, Value>): (r: VideoParams)
    ensures r.bitDepth == BitDepth(r.pixelFormat)
    ensures r.fps == v.fps && r.videoCodec == v.videoCodec && r.audioCodec == v.audioCodec
    ensures r.hwdecCurrent == v.hwdecCurrent && r.voBackend == v.voBackend && r.gpuApi == v.gpuApi
    ensures "gamma" in m && m["gamma"].VString? ==> r.transfer == m["gamma"].s
    ensures "primaries" in m && m["primaries"].VString? ==> r.primaries == m["primaries"].s
    ensures "pixelformat" in m && m["pixelformat"].VString? ==> r.pixelFormat == m["pixelformat"].s
    ensures "pixelformat" !in m ==> r.pixelFormat == "" && r.bitDepth == 8
    ensures "colormatrix" in m && m["colormatrix"].VString? ==> r.matrix == m["colormatrix"].s
    ensures "dw" in m && m["dw"].VInt? && IsInt32(m["dw"].i) ==> r.width == m["dw"].i
    ensures "dh" in m && m["dh"].VInt? && IsInt32(m["dh"].i) ==> r.height == m["dh"].i
    ensures "dw" !in m ==> r.width == 0
    ensures "dh" !in m ==> r.height == 0
    ensures IsInt32(r.width) && IsInt32(r.height)
  {
    var pf := ToString(Get(m, "pixelformat", VString("")));
    assert pf == "" ==> !Contains(pf, "10le") && !Contains(pf, "12le") && !Contains(pf, "16le");
    v.(width := ToInt(Get(m, "dw", VInt(0))), height := ToInt(Get(m, "dh", VInt(0))),
       pixelFormat := pf,
       primaries := ToString(Get(m, "primaries", VString(""))),
       transfer := ToString(Get(m, "gamma", VString(""))),
       matrix := ToString(Get(m, "colormatrix", VString(""))),
       bitDepth := BitDepth(pf))
  }

  /** `updateVideoParams`: when "video-params" reads as a map, refreshes the
      video fields from it, announces them and reclassifies the content;
      otherwise changes nothing. */
  function UpdateVideoParams(s: State, backend: Snapshot): (r: State)
    ensures !s.handle || ReadMap(backend, "video-params").None? ==> r == s
    ensures s.handle && ReadMap(backend, "video-params").Some? ==>
      && Derived(r)
      && |r.signals| > |s.signals|
      && r.video == VideoFromMap(s.video, ReadMap(backend, "video-params").value)
      && r.signals[..|s.signals| + 1] == s.signals + [VideoParamsChanged]
    ensures r.handle == s.handle && r.transport == s.transport && r.media == s.media && r.lastError == s.lastError
  {
    if !s.handle then s
    else match ReadMap(backend, "video-params")
      case None => s
      case Some(m) =>
        var s1 := s.(video := VideoFromMap(s.video, m), signals := s.signals + [VideoParamsChanged]);
        var r := CheckHdrContent(s1, backend);
        assert r.signals[..|s.signals| + 1] == s1.signals;
        r
  }

  /** One pass over the track list, appending each map whose "type" is
      "audio" to the first list and each whose type is "sub" to the second. */
  function SplitTracks(list: seq<Value>): (r: (seq<Value>, seq<Value>))
  {
    if list == [] then ([], [])
    else
      var (audio, subs) := SplitTracks(list[..|list| - 1]);
      var t := list[|list| - 1];
      if t.VMap? && ToString(Get(t.fields, "type", Invalid)) == "audio" then (audio + [t], subs)
      else if t.VMap? && ToString(Get(t.fields, "type", Invalid)) == "sub" then (audio, subs + [t])
      else (audio, subs)
  }

  /** The entries of `list` that are maps with "type" equal to `kind`, in order. */
  function OfType(list: seq<Value>, kind: string): (r: seq<Value>)
    ensures |r| <= |list|
  {
    if list == [] then []
    else
      var t := list[0];
      (if t.VMap? && ToString(Get(t.fields, "type", Invalid)) == kind then [t] else []) + OfType(list[1..], kind)
  }

  /** Filtering keeps only entries of the list that are maps of that type. */
  lemma {:induction false} OfTypeKeepsOnlyKind(list: seq<Value>, kind: string)
    ensures forall t :: t in OfType(list, kind) ==> t in list && t.VMap? && ToString(Get(t.fields, "type", Invalid)) == kind
  {
    if list != [] {
      OfTypeKeepsOnlyKind(list[1..], kind);
      assert forall t :: t in list[1..] ==> t in list;
    }
  }

  lemma {:induction false} OfTypeAppend(a: seq<Value>, b: seq<Value>, kind: string)
    ensures OfType(a + b, kind) == OfType(a, kind) + OfType(b, kind)
  {
    if a == [] {
      assert a + b == b;
    } else {
      var t := a[0];
      var head := if t.VMap? && ToString(Get(t.fields, "type", Invalid)) == kind then [t] else [];
      assert (a + b)[0] == t && (a + b)[1..] == a[1..] + b;
      assert OfType(a + b, kind) == head + OfType(a[1..] + b, kind);
      OfTypeAppend(a[1..], b, kind);
      assert OfType(a, kind) == head + OfType(a[1..], kind);
    }
  }

  /** The single pass sorts the tracks exactly as filtering by each type
      separately would: audio tracks to the first list, subtitles to the
      second, both in input order, everything else dropped. */
  lemma {:induction false} SplitTracksByType(list: seq<Value>)
    ensures SplitTracks(list).0 == OfType(list, "audio")
    ensures SplitTracks(list).1 == OfType(list, "sub")
  {
    if list != [] {
      var init := list[..|list| - 1];
      var t := list[|list| - 1];
      SplitTracksByType(init);
      assert list == init + [t];
      assert [t][1..] == [];
      assert OfType([t], "audio") == if t.VMap? && ToString(Get(t.fields, "type", Invalid)) == "audio" then [t] else [];
      assert OfType([t], "sub") == if t.VMap? && ToString(Get(t.fields, "type", Invalid)) == "sub" then [t] else [];
      OfTypeAppend(init, [t], "audio");
      OfTypeAppend(init, [t], "sub");
    }
  }

  /** `updateTracks`: when "track-list" can be read, both track lists are
      replaced by the audio and subtitle entries of the new list (empty when it
      is not a list) and the change is announced; otherwise nothing changes. */
  function UpdateTracks(s: State, backend: Snapshot): (r: State)
    ensures !s.handle || "track-list" !in backend ==> r == s
    ensures s.handle && "track-list" in backend ==>
      var list := ReadList(backend, "track-list").value;
      && r.media.audioTracks == OfType(list, "audio")
      && r.media.subtitleTracks == OfType(list, "sub")
      && r == s.(media := r.media, signals := s.signals + [TracksChanged])
      && r.media.(audioTracks := s.media.audioTracks, subtitleTracks := s.media.subtitleTracks) == s.media
  {
    if !s.handle then s
    else match ReadList(backend, "track-list")
      case None => s
      case Some(list) =>
        var (audio, subs) := SplitTracks(list);
        SplitTracksByType(list);
        s.(media := s.media.(audioTracks := audio, subtitleTracks := subs), signals := s.signals + [TracksChanged])
  }

  /** `updateChapters`: when "chapter-list" can be read, the chapter list is
      replaced by it (empty when it is not a list) and the change is announced;
      the current chapter is kept. */
  function UpdateChapters(s: State, backend: Snapshot): (r: State)
    ensures !s.handle || "chapter-list" !in backend ==> r == s
    ensures s.handle && "chapter-list" in backend ==>
      && r.media.chapters == ReadList(backend, "chapter-list").value
      && r == s.(media := s.media.(chapters := r.media.chapters), signals := s.signals + [ChaptersChanged])
  {
    if !s.handle then s
    else match ReadList(backend, "chapter-list")
      case None => s
      case Some(list) => s.(media := s.media.(chapters := list), signals := s.signals + [ChaptersChanged])
  }

  /** The property-change branch of `handleMpvEvent`: the property's name
      selects a handler, which runs only when the payload has the format the
      property is observed with. */
  function ApplyProperty(s: State, name: string, data: PropertyData, backend: Snapshot): State {
    match Handler(name)
    case None => s
    case Some(p) => if FormatOf(data) == PropFormat(p) then Apply(s, p, data, backend) else s
  }

  /** The handler for property `p`, given a payload of the expected format. */
  function Apply(s: State, p: Prop, data: PropertyData, backend: Snapshot): State
    requires FormatOf(data) == PropFormat(p)
  {
    var t := s.transport;
    var v := s.video;
    var m := s.media;
    match p
    case Pause =>
      var paused := data.flag != 0;
      s.(transport := t.(paused := paused, playing := !paused && Positive(t.duration)),
         signals := s.signals + [PausedChanged, PlayingChanged])
    case TimePos => s.(transport := t.(position := data.dbl), signals := s.signals + [PositionChanged])
    case Duration => s.(transport := t.(duration := data.dbl), signals := s.signals + [DurationChanged])
    case PercentPos => s.(transport := t.(percentPos := data.dbl), signals := s.signals + [PercentPosChanged])
    case Volume => s.(transport := t.(volume := Wrap32(data.int64)), signals := s.signals + [VolumeChanged])
    case Mute => s.(transport := t.(muted := data.flag != 0), signals := s.signals + [MutedChanged])
    case Speed => s.(transport := t.(speed := data.dbl), signals := s.signals + [SpeedChanged])
    case VideoParamsProp => UpdateVideoParams(s, backend)
    case VideoCodec => s.(video := v.(videoCodec := data.text), signals := s.signals + [VideoParamsChanged])
    case AudioCodec => s.(video := v.(audioCodec := data.text), signals := s.signals + [AudioParamsChanged])
    case EstimatedVfFps => s.(video := v.(fps := data.dbl), signals := s.signals + [VideoParamsChanged])
    case HwdecCurrent => s.(video := v.(hwdecCurrent := data.text), signals := s.signals + [HwdecChanged])
    case CurrentVo => s.(video := v.(voBackend := data.text), signals := s.signals + [RendererChanged])
    case GpuApi => s.(video := v.(gpuApi := data.text), signals := s.signals + [RendererChanged])
    case TrackList => UpdateTracks(s, backend)
    case Aid => s.(media := m.(currentAudioTrack := Wrap32(data.int64)), signals := s.signals + [CurrentAudioTrackChanged])
    case Sid => s.(media := m.(currentSubtitleTrack := Wrap32(data.int64)), signals := s.signals + [CurrentSubtitleTrackChanged])
    case ChapterList => UpdateChapters(s, backend)
    case ChapterProp => s.(media := m.(currentChapter := Wrap32(data.int64)), signals := s.signals + [CurrentChapterChanged])
    case Filename => s.(media := m.(filename := data.text), signals := s.signals + [FilenameChanged])
    case MediaTitle => s.(media := m.(mediaTitle := data.text), signals := s.signals + [MediaTitleChanged])
    case AbLoopA => s.(media := m.(loopA := data.dbl), signals := s.signals + [LoopChanged])
    case AbLoopB => s.(media := m.(loopB := data.dbl), signals := s.signals + [LoopChanged])
  }

  /** `handleMpvEvent`: the effect of one event. A loaded file always sets
      playing and refreshes the video parameters; an ended file clears playing
      and records an error only when the file ended in error; log messages and
      other events change nothing. */
  function Step(s: State, p: Polled): State {
    match p.event
    case NoEvent => s
    case PropertyChange(name, data) => ApplyProperty(s, name, data, p.backend)
    case FileLoaded =>
      var s1 := s.(transport := s.transport.(playing := true),
                   signals := s.signals + [PlayingChanged, FileLoadedSignal]);
      CheckHdrContent(UpdateVideoParams(s1, p.backend), p.backend)
    case EndFile(reason, errorText) =>
      var s1 := s.(transport := s.transport.(playing := false), signals := s.signals + [PlayingChanged]);
      var s2 :=
        if reason == EndError then
          var message := "Playback error: " + errorText;
          s1.(lastError := message, signals := s1.signals + [ErrorOccurred(message)])
        else s1;
      s2.(signals := s2.signals + [EndOfFile])
    case LogMessage(_, _, _) => s
    case OtherEvent => s
  }

  /** `onMpvEvents` after its handle check: events are handled in order until
      the backend reports that none is pending. */
  function Drain(s: State, queue: seq<Polled>): State
    decreases |queue|
  {
    if queue == [] || queue[0].event.NoEvent? then s else Drain(Step(s, queue[0]), queue[1..])
  }

  predicate NoEmptyPoll(queue: seq<Polled>) {
    forall i :: 0 <= i < |queue| ==> !queue[i].event.NoEvent?
  }

  // ---- properties of single events -------------------------------------

  /** The value the player holds for a property, for those whose payload is stored as it arrives. */
  function Mirror(s: State, p: Prop): Value {
    var t := s.transport;
    var v := s.video;
    var m := s.media;
    match p
    case Pause => VBool(t.paused)
    case TimePos => VDouble(t.position)
    case Duration => VDouble(t.duration)
    case PercentPos => VDouble(t.percentPos)
    case Volume => VInt(t.volume)
    case Mute => VBool(t.muted)
    case Speed => VDouble(t.speed)
    case VideoCodec => VString(v.videoCodec)
    case AudioCodec => VString(v.audioCodec)
    case EstimatedVfFps => VDouble(v.fps)
    case HwdecCurrent => VString(v.hwdecCurrent)
    case CurrentVo => VString(v.voBackend)
    case GpuApi => VString(v.gpuApi)
    case Aid => VInt(m.currentAudioTrack)
    case Sid => VInt(m.currentSubtitleTrack)
    case ChapterProp => VInt(m.currentChapter)
    case Filename => VString(m.filename)
    case MediaTitle => VString(m.mediaTitle)
    case AbLoopA => VDouble(m.loopA)
    case AbLoopB => VDouble(m.loopB)
    case _ => Invalid
  }

  /** The properties whose handler re-reads the backend instead of storing the payload. */
  predicate Composite(p: Prop) {
    p == VideoParamsProp || p == TrackList || p == ChapterList
  }

  /** How a scalar payload is stored: a flag as a boolean, a 64-bit integer
      truncated to the C++ `int`. */
  function Stored(d: PropertyData): Value {
    match d
    case DataString(text) => VString(text)
    case DataFlag(f) => VBool(f != 0)
    case DataInt64(i) => VInt(Wrap32(i))
    case DataDouble(x) => VDouble(x)
    case _ => Invalid
  }

  /** The fields no scalar property writes (except `playing`, which "pause" also sets). */
  function Unmirrored(s: State): (bool, bool, VideoParams, HdrInfo, seq<Value>, seq<Value>, seq<Value>, string) {
    (s.handle, s.transport.playing,
     s.video.(videoCodec := "", audioCodec := "", fps := NaN, hwdecCurrent := "", voBackend := "", gpuApi := ""),
     s.hdr, s.media.audioTracks, s.media.subtitleTracks, s.media.chapters, s.lastError)
  }

  /** A property handler stores its payload in the property's own field and
      leaves everything else the player observes as it was; it appends one
      notification ("pause" also recomputes `playing` and notifies it). */
  lemma ScalarPropertyUpdatesItsField(s: State, name: string, p: Prop, data: PropertyData, backend: Snapshot, other: Prop)
    requires Handler(name) == Some(p) && FormatOf(data) == PropFormat(p) && !Composite(p)
    ensures var r := ApplyProperty(s, name, data, backend);
      && Mirror(r, p) == Stored(data)
      && (other != p ==> Mirror(r, other) == Mirror(s, other))
      && (p != Pause ==> Unmirrored(r) == Unmirrored(s) && |r.signals| == |s.signals| + 1)
      && (p == Pause ==> Unmirrored(r) == Unmirrored(s).(1 := r.transport.playing) && |r.signals| == |s.signals| + 2)
      && r.signals[..|s.signals|] == s.signals
  {
    match p
    case Pause =>
    case TimePos =>
    case Duration =>
    case PercentPos =>
    case Volume =>
    case Mute =>
    case Speed =>
    case VideoCodec =>
    case AudioCodec =>
    case EstimatedVfFps =>
    case HwdecCurrent =>
    case CurrentVo =>
    case GpuApi =>
    case Aid =>
    case Sid =>
    case ChapterProp =>
    case Filename =>
    case MediaTitle =>
    case AbLoopA =>
    case AbLoopB =>
  }

  /** A property whose name selects no handler, or whose payload has another
      format than its handler expects, changes nothing. */
  lemma UnhandledPropertyIgnored(s: State, name: string, data: PropertyData, backend: Snapshot)
    requires Handler(name).None? || FormatOf(data) != PropFormat(Handler(name).value)
    ensures ApplyProperty(s, name, data, backend) == s
  {
  }

  /** Every handled property is observed with the format its handler expects;
      "video-format" and "container-fps" are observed but have no handler. */
  lemma ObservedButUnhandled(p: Prop)
    ensures (PropName(p), PropFormat(p)) in Observed
    ensures ("video-format", FormatString) in Observed && Handler("video-format").None?
    ensures ("container-fps", FormatDouble) in Observed && Handler("container-fps").None?
  {
  }

  /** After a pause change, playing holds exactly when not paused and the duration is positive. */
  lemma PauseDerivesPlaying(s: State, flag: int, backend: Snapshot)
    ensures var r := Step(s, Polled(PropertyChange("pause", DataFlag(flag)), backend));
      && r.transport.paused == (flag != 0)
      && r.transport.playing == (!r.transport.paused && Positive(r.transport.duration))
      && r.signals == s.signals + [PausedChanged, PlayingChanged]
  {
  }

  /** A loaded file sets playing whatever the pause state and duration are, so
      afterwards the player may report playing while paused; the video fields
      are refreshed and the classification agrees with them. */
  lemma FileLoadedPlays(s: State, backend: Snapshot)
    ensures var r := Step(s, Polled(FileLoaded, backend));
      && r.transport == s.transport.(playing := true)
      && r.media == s.media && r.lastError == s.lastError && r.handle == s.handle
      && |r.signals| >= |s.signals| + 2
      && r.signals[..|s.signals| + 2] == s.signals + [PlayingChanged, FileLoadedSignal]
      && r.hdr.contentIsHdr == IsHdrContent(r.video.transfer, r.video.primaries)
  {
    var s1 := s.(transport := s.transport.(playing := true), signals := s.signals + [PlayingChanged, FileLoadedSignal]);
    var s2 := UpdateVideoParams(s1, backend);
    var r := CheckHdrContent(s2, backend);
    assert r.signals[..|s1.signals|] == s1.signals;
  }

  /** An ended file clears playing; only an error ending records and announces
      "Playback error: " followed by the backend's message; the end is always
      announced last. */
  lemma EndFileStops(s: State, reason: EndReason, errorText: string, backend: Snapshot)
    ensures var r := Step(s, Polled(EndFile(reason, errorText), backend));
      && r.transport == s.transport.(playing := false)
      && r.video == s.video && r.hdr == s.hdr && r.media == s.media
      && (reason == EndError ==>
            r.lastError == "Playback error: " + errorText
            && r.signals == s.signals + [PlayingChanged, ErrorOccurred(r.lastError), EndOfFile])
      && (reason != EndError ==>
            r.lastError == s.lastError && r.signals == s.signals + [PlayingChanged, EndOfFile])
  {
  }

  /** Log messages, events the handler does not know, and the empty event change nothing. */
  lemma InertEvents(s: State, level: int, prefix: string, text: string, backend: Snapshot)
    ensures Step(s, Polled(LogMessage(level, prefix, text), backend)) == s
    ensures Step(s, Polled(OtherEvent, backend)) == s
    ensures Step(s, Polled(NoEvent, backend)) == s
  {
  }

  /** Every event keeps the bit depth and the HDR classification in agreement
      with the pixel format and colour strings they are derived from. */
  lemma StepPreservesDerived(s: State, p: Polled)
    requires Derived(s)
    ensures Derived(Step(s, p))
  {
    match p.event
    case PropertyChange(name, data) =>
      if Handler(name).Some? && FormatOf(data) == PropFormat(Handler(name).value) {
        ApplyPreservesDerived(s, Handler(name).value, data, p.backend);
      }
    case FileLoaded =>
      var s1 := s.(transport := s.transport.(playing := true),
                   signals := s.signals + [PlayingChanged, FileLoadedSignal]);
      assert Derived(s1);
      var s2 := UpdateVideoParams(s1, p.backend);
      assert s2.video.bitDepth == BitDepth(s2.video.pixelFormat);
    case _ =>
  }

  lemma ApplyPreservesDerived(s: State, q: Prop, data: PropertyData, backend: Snapshot)
    requires Derived(s) && FormatOf(data) == PropFormat(q)
    ensures Derived(Apply(s, q, data, backend))
  {
    match q
    case VideoParamsProp =>
    case TrackList =>
    case ChapterList =>
    case _ =>
      var r := Apply(s, q, data, backend);
      assert r.video.pixelFormat == s.video.pixelFormat && r.video.bitDepth == s.video.bitDepth;
      assert r.video.transfer == s.video.transfer && r.video.primaries == s.video.primaries;
      assert r.hdr == s.hdr;
  }

  /** Every property handler only appends notifications and keeps the instance. */
  lemma ApplyAppendsSignals(s: State, p: Prop, data: PropertyData, backend: Snapshot)
    requires FormatOf(data) == PropFormat(p)
    ensures Apply(s, p, data, backend).handle == s.handle
    ensures |Apply(s, p, data, backend).signals| >= |s.signals|
    ensures Apply(s, p, data, backend).signals[..|s.signals|] == s.signals
  {
    var r := Apply(s, p, data, backend);
    if p == Pause {
      assert r.signals == s.signals + [PausedChanged, PlayingChanged];
    } else if p.VideoParamsProp? || p.TrackList? || p.ChapterList? {
    } else {
      assert |r.signals| == |s.signals| + 1 && r.signals[..|s.signals|] == s.signals;
    }
  }

  /** Every event only appends notifications, and none creates or destroys the instance. */
  lemma StepAppendsSignals(s: State, p: Polled)
    ensures Step(s, p).handle == s.handle
    ensures |Step(s, p).signals| >= |s.signals|
    ensures Step(s, p).signals[..|s.signals|] == s.signals
  {
    match p.event
    case FileLoaded => FileLoadedPlays(s, p.backend);
    case PropertyChange(name, data) =>
      if Handler(name).Some? && FormatOf(data) == PropFormat(Handler(name).value) {
        ApplyAppendsSignals(s, Handler(name).value, data, p.backend);
      }
    case _ =>
  }

  // ---- properties of drain passes ----------------------------------------

  /** Events are handled one after another: draining a prefix that contains no
      empty poll, then the rest, is draining the whole. */
  lemma {:induction false} DrainConcat(s: State, q1: seq<Polled>, q2: seq<Polled>)
    requires NoEmptyPoll(q1)
    ensures Drain(s, q1 + q2) == Drain(Drain(s, q1), q2)
    decreases |q1|
  {
    if q1 != [] {
      assert (q1 + q2)[0] == q1[0];
      assert (q1 + q2)[1..] == q1[1..] + q2;
      DrainConcat(Step(s, q1[0]), q1[1..], q2);
    } else {
      assert q1 + q2 == q2;
    }
  }

  /** A pass ends at the first empty poll: later events wait for the next pass. */
  lemma DrainStopsAtEmptyPoll(s: State, q1: seq<Polled>, backend: Snapshot, q2: seq<Polled>)
    requires NoEmptyPoll(q1)
    ensures Drain(s, q1 + [Polled(NoEvent, backend)] + q2) == Drain(s, q1)
  {
    assert q1 + [Polled(NoEvent, backend)] + q2 == q1 + ([Polled(NoEvent, backend)] + q2);
    DrainConcat(s, q1, [Polled(NoEvent, backend)] + q2);
  }

  /** A pass over log messages alone changes nothing. */
  lemma {:induction false} DrainOfLogMessages(s: State, queue: seq<Polled>)
    requires forall i :: 0 <= i < |queue| ==> queue[i].event.LogMessage?
    ensures Drain(s, queue) == s
    decreases |queue|
  {
    if queue != [] {
      DrainOfLogMessages(s, queue[1..]);
    }
  }

  /** The derived fields stay in agreement across a whole pass. */
  lemma {:induction false} DrainPreservesDerived(s: State, queue: seq<Polled>)
    requires Derived(s)
    ensures Derived(Drain(s, queue))
    decreases |queue|
  {
    if queue != [] && !queue[0].event.NoEvent? {
      StepPreservesDerived(s, queue[0]);
      DrainPreservesDerived(Step(s, queue[0]), queue[1..]);
    }
  }

  /** The "video-params" node of a PQ / BT.2020 stream decoded to P010. */
  function HdrVideoParams(): Node {
    NMap([Entry("gamma", NString("pq")), Entry("primaries", NString("bt.2020")),
          Entry("pixelformat", NString("p010"))])
  }

  lemma HdrVideoParamsRead(backend: Snapshot)
    requires "video-params" in backend && backend["video-params"] == HdrVideoParams()
    ensures ReadMap(backend, "video-params").Some?
    ensures var m := ReadMap(backend, "video-params").value;
      "gamma" in m && "primaries" in m && "pixelformat" in m &&
      m["gamma"] == VString("pq") && m["primaries"] == VString("bt.2020") && m["pixelformat"] == VString("p010")
  {
    var n := HdrVideoParams();
    NodeToVariantPreservesStructure(n);
    assert LastWithKey(n.entries, 0, 3) && LastWithKey(n.entries, 1, 3) && LastWithKey(n.entries, 2, 3);
  }

  /** Whatever the state, re-reading these parameters yields 10 bits and HDR. */
  lemma HdrVideoParamsApplied(s: State, backend: Snapshot)
    requires s.handle
    requires "video-params" in backend && backend["video-params"] == HdrVideoParams()
    ensures var r := UpdateVideoParams(s, backend);
      r.video.bitDepth == 10 && r.hdr.contentIsHdr
      && r.video.transfer == "pq" && r.video.primaries == "bt.2020" && r.video.pixelFormat == "p010"
  {
    HdrVideoParamsRead(backend);
    HdrExamplePq();
    assert BitDepth("p010") == 10 by { LowerIdentity("p010"); ContainsWitness("p010", "p010", 0); }
  }

  /** A video-params change re-reads the parameters, whatever its payload. */
  lemma VideoParamsEventRereads(s: State, n: Node, backend: Snapshot)
    ensures Step(s, Polled(PropertyChange("video-params", DataNode(n)), backend)) == UpdateVideoParams(s, backend)
  {
    assert Handler("video-params") == Some(VideoParamsProp);
  }

  lemma DrainTwo(s: State, e1: Polled, e2: Polled)
    requires !e1.event.NoEvent? && !e2.event.NoEvent?
    ensures Drain(s, [e1, e2]) == Step(Step(s, e1), e2)
  {
    assert [e1, e2][1..] == [e2];
    assert [e2][1..] == [];
    var s1 := Step(s, e1);
    assert Drain(s, [e1, e2]) == Drain(s1, [e2]);
    assert Drain(s1, [e2]) == Drain(Step(s1, e2), []);
  }

  /** The file-loaded event followed by a video-params change: playing, the
      video parameters as re-read from the backend, and the playing-changed
      and file-loaded notifications first. */
  lemma FileLoadedThenVideoParams(s: State, e1: Polled, e2: Polled)
    requires e1.event == FileLoaded
    requires e2.event.PropertyChange? && e2.event.name == "video-params" && e2.event.data.DataNode?
    requires e2.backend == e1.backend
    ensures var s1, r := Step(s, e1), Drain(s, [e1, e2]);
      && s1.handle == s.handle
      && r.transport.playing
      && r.video == UpdateVideoParams(s1, e1.backend).video
      && r.hdr == UpdateVideoParams(s1, e1.backend).hdr
      && |r.signals| >= |s.signals| + 2
      && r.signals[..|s.signals| + 2] == s.signals + [PlayingChanged, FileLoadedSignal]
  {
    DrainTwo(s, e1, e2);
    var s1 := Step(s, e1);
    var r := Step(s1, e2);
    assert s1.handle == s.handle && s1.transport.playing && |s1.signals| >= |s.signals| + 2
           && s1.signals[..|s.signals| + 2] == s.signals + [PlayingChanged, FileLoadedSignal] by {
      FileLoadedPlays(s, e1.backend);
    }
    assert r == UpdateVideoParams(s1, e1.backend) by {
      VideoParamsEventRereads(s1, e2.event.data.node, e1.backend);
    }
    assert r.signals[..|s1.signals|] == s1.signals by {
      StepAppendsSignals(s1, e2);
    }
    assert r.signals[..|s.signals| + 2] == s1.signals[..|s.signals| + 2];
  }

  /** A file whose stream is PQ / BT.2020 in P010: after the file-loaded event
      and the video-params change, the player reports 10 bits, HDR content and
      playing, and the first notifications are playing-changed and file-loaded. */
  lemma HdrFileEndToEnd(s: State, backend: Snapshot)
    requires s.handle
    requires "video-params" in backend && backend["video-params"] == HdrVideoParams()
    ensures var r := Drain(s, [Polled(FileLoaded, backend),
                               Polled(PropertyChange("video-params", DataNode(HdrVideoParams())), backend)]);
      && r.video.bitDepth == 10 && r.hdr.contentIsHdr && r.transport.playing
      && r.video.transfer == "pq" && r.video.primaries == "bt.2020" && r.video.pixelFormat == "p010"
      && |r.signals| >= |s.signals| + 2
      && r.signals[..|s.signals| + 2] == s.signals + [PlayingChanged, FileLoadedSignal]
  {
    var e1 := Polled(FileLoaded, backend);
    FileLoadedThenVideoParams(s, e1, Polled(PropertyChange("video-params", DataNode(HdrVideoParams())), backend));
    HdrVideoParamsApplied(Step(s, e1), backend);
  }

  lemma HdrExamplePq()
    ensures IsHdrContent("pq", "bt.2020")
  {
    LowerIdentity("pq");
    LowerIdentity("bt.2020");
    ContainsWitness("pq", "pq", 0);
    ContainsWitness("bt.2020", "bt.2020", 0);
  }
}
