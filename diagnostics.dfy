/** The HDR output assessment (src/hdrdiagnostics.cpp): what the player
    reports about how HDR content reaches the display, and the advice it
    derives. The player object is optional (the diagnostics may run before
    one exists); the desktop and kernel probes are inputs. */
module Diagnostics {
  import opened Base
  import opened Text
  import opened Variant
  import Playback
  import Engine

  /** What the assessment reads from the player: the HDR classification, the
      active hardware decoder, the video height and the current values of the
      "tone-mapping" and "hdr-compute-peak" properties. */
  datatype PlayerView = PlayerView(
    contentIsHdr: bool, hwdecCurrent: string, videoHeight: int,
    toneMapping: Value, computePeak: Value)

  /** The view of a player object, with property reads answered by `backend`. */
  function ViewOf(player: Engine.MpvObject, backend: Playback.Snapshot): PlayerView
    reads player
  {
    PlayerView(player.hdr.contentIsHdr, player.video.hwdecCurrent, player.video.height,
               player.GetMpvProperty("tone-mapping", backend), player.GetMpvProperty("hdr-compute-peak", backend))
  }

  // ---- output mode ------------------------------------------------------

  datatype OutputMode = Unknown | Sdr | Passthrough | ToneMapped | PassthroughAuto

  /** The text reported for each mode. */
  function Label(m: OutputMode): string {
    match m
    case Unknown => "Unknown"
    case Sdr => "SDR"
    case Passthrough => "Passthrough"
    case ToneMapped => "Tone-mapped"
    case PassthroughAuto => "Passthrough (auto)"
  }

  /** Distinct modes are reported with distinct texts. */
  lemma LabelsDistinct(a: OutputMode, b: OutputMode)
    requires a != b
    ensures Label(a) != Label(b)
  {
  }

  /** Tone-mapping values that mean no tone mapping. */
  predicate PassthroughCurve(tm: string) {
    tm == "clip" || tm == "no" || tm == ""
  }

  /** Tone-mapping values that name a curve. */
  predicate NamedCurve(tm: string) {
    tm == "hable" || tm == "mobius" || tm == "reinhard" || tm == "bt.2390" || tm == "gamma" || tm == "linear"
  }

  /** The peak-detection test of the "auto" branch: the text "yes", or any
      value that converts to true. */
  predicate PeakDetection(peak: Value) {
    ToString(peak) == "yes" || ToBool(peak)
  }

  /** The lower-cased text of the tone-mapping property. */
  function Curve(v: PlayerView): string {
    Lower(ToString(v.toneMapping))
  }

  /** `determinOutputMode`. */
  function DetermineOutputMode(view: Option<PlayerView>): (mode: OutputMode)
    ensures view.None? ==> mode == Unknown
    ensures view.Some? && !view.value.contentIsHdr ==> mode == Sdr
    ensures mode == Sdr ==> view.Some? && !view.value.contentIsHdr
  {
    if view.None? then Unknown
    else if !view.value.contentIsHdr then Sdr
    else
      var tm := Curve(view.value);
      if PassthroughCurve(tm) then Passthrough
      else if NamedCurve(tm) then ToneMapped
      else if tm == "auto" then (if PeakDetection(view.value.computePeak) then ToneMapped else PassthroughAuto)
      else Unknown
  }

  /** For HDR content the mode is decided by the tone-mapping curve alone,
      except for "auto", where peak detection decides; a curve the player
      does not know gives Unknown. */
  lemma OutputModeOfHdrContent(v: PlayerView)
    requires v.contentIsHdr
    ensures DetermineOutputMode(Some(v)) == Passthrough <==> PassthroughCurve(Curve(v))
    ensures DetermineOutputMode(Some(v)) == ToneMapped <==>
      NamedCurve(Curve(v)) || (Curve(v) == "auto" && PeakDetection(v.computePeak))
    ensures DetermineOutputMode(Some(v)) == PassthroughAuto <==>
      Curve(v) == "auto" && !PeakDetection(v.computePeak)
    ensures DetermineOutputMode(Some(v)) == Unknown <==>
      !PassthroughCurve(Curve(v)) && !NamedCurve(Curve(v)) && Curve(v) != "auto"
  {
  }

  /** Reads of peak detection as the backend reports it: "yes", "no" and
      "auto" are all non-empty strings other than "0" and "false", so the
      "auto" curve is reported as tone-mapped for each of them. */
  lemma PeakDetectionOfBackendStrings()
    ensures PeakDetection(VString("yes")) && PeakDetection(VString("no")) && PeakDetection(VString("auto"))
  {
    var yes, no, auto := "yes", "no", "auto";
    LowerIdentity(no);
    LowerIdentity(auto);
    assert Lower(no) == no && no[0] == 'n' && |no| == 2;
    assert Lower(auto) == auto && auto[0] == 'a';
  }

  /** With the modes the player itself configures, only "passthrough" is
      diagnosed as passthrough: "tonemap" selects a named curve, and the
      default mode's "auto" curve with peak detection "auto" reads as
      tone-mapped. */
  lemma ConfiguredModesDiagnosis(mode: string, v: PlayerView)
    requires v.contentIsHdr
    requires v.toneMapping == VString(Engine.HdrProfileOf(mode).toneMapping)
    requires v.computePeak == VString(Engine.HdrProfileOf(mode).computePeak)
    ensures mode == "passthrough" ==> DetermineOutputMode(Some(v)) == Passthrough
    ensures mode != "passthrough" ==> DetermineOutputMode(Some(v)) == ToneMapped
  {
    var tm := Engine.HdrProfileOf(mode).toneMapping;
    LowerIdentity(tm);
    assert Curve(v) == tm;
    if mode == "passthrough" {
      assert PassthroughCurve(tm);
    } else if mode == "tonemap" {
      assert tm == "hable";
      assert !PassthroughCurve(tm) by { assert tm[0] == 'h'; }
    } else {
      assert tm == "auto";
      assert !PassthroughCurve(tm) && !NamedCurve(tm) by { assert tm[0] == 'a' && |tm| == 4; }
      PeakDetectionOfBackendStrings();
    }
  }

  // ---- display capability and compact status ---------------------------

  /** `checkDisplayHdrCapability`, with the desktop's HDR setting and the
      kernel's HDR metadata state as inputs: no probe result is trusted as
      confirmation. */
  function CheckDisplayHdrCapability(kdeState: string, drmState: string): (r: string)
    ensures r == "Unknown"
  {
    if kdeState == "enabled" then "Unknown"
    else if drmState == "active" then "Unknown"
    else "Unknown"
  }

  /** `getCompactStatus`. */
  function GetCompactStatus(view: Option<PlayerView>, kdeState: string, drmState: string): (status: map<string, string>)
    ensures status.Keys == {"contentHdr", "outputMode", "displayHdr"}
    ensures view.None? ==> status == map["contentHdr" := "N/A", "outputMode" := "N/A", "displayHdr" := "N/A"]
    ensures view.Some? ==>
      && status["contentHdr"] == (if view.value.contentIsHdr then "Yes" else "No")
      && status["outputMode"] == Label(DetermineOutputMode(view))
      && status["displayHdr"] == "Unknown"
  {
    if view.None? then
      map["contentHdr" := "N/A", "outputMode" := "N/A", "displayHdr" := "N/A"]
    else
      var contentHdr := view.value.contentIsHdr;
      var outputMode := if contentHdr then Label(DetermineOutputMode(view)) else "SDR";
      map["contentHdr" := (if contentHdr then "Yes" else "No"), "outputMode" := outputMode,
          "displayHdr" := CheckDisplayHdrCapability(kdeState, drmState)]
  }

  // ---- report text ------------------------------------------------------

  /** The heading line of a report section. */
  function SectionHeader(title: string): string {
    "\n--- " + title + " ---\n"
  }

  /** The lines of a section, each followed by a line break. */
  function Joined(lines: seq<string>): string {
    if lines == [] then "" else Joined(lines[..|lines| - 1]) + lines[|lines| - 1] + "\n"
  }

  /** `formatSection`. */
  method FormatSection(title: string, lines: seq<string>) returns (result: string)
    ensures result == SectionHeader(title) + Joined(lines)
  {
    result := "\n--- " + title + " ---\n";
    for i := 0 to |lines|
      invariant result == SectionHeader(title) + Joined(lines[..i])
    {
      assert lines[..i + 1][..i] == lines[..i];
      result := result + lines[i] + "\n";
    }
    assert lines[..|lines|] == lines;
  }

  /** Joining distributes over concatenation: the lines come out in order. */
  lemma {:induction false} JoinedAppend(a: seq<string>, b: seq<string>)
    ensures Joined(a + b) == Joined(a) + Joined(b)
    decreases |b|
  {
    if b == [] {
      assert a + b == a;
    } else {
      var b' := b[..|b| - 1];
      assert (a + b)[..|a + b| - 1] == a + b';
      JoinedAppend(a, b');
    }
  }

  function CountChar(s: string, c: char): nat {
    if s == [] then 0 else (if s[0] == c then 1 else 0) + CountChar(s[1..], c)
  }

  lemma {:induction false} CountCharAppend(s: string, t: string, c: char)
    ensures CountChar(s + t, c) == CountChar(s, c) + CountChar(t, c)
    decreases |s|
  {
    if s != [] {
      assert (s + t)[1..] == s[1..] + t;
      CountCharAppend(s[1..], t, c);
    } else {
      assert s + t == t;
    }
  }

  lemma {:induction false} CountCharAbsent(s: string, c: char)
    requires c !in s
    ensures CountChar(s, c) == 0
    decreases |s|
  {
    if s != [] {
      CountCharAbsent(s[1..], c);
    }
  }

  /** A section whose title and lines hold no line breaks occupies exactly
      one row per line after a blank row and the heading row. */
  lemma {:induction false} SectionRows(title: string, lines: seq<string>)
    requires '\n' !in title
    requires forall i :: 0 <= i < |lines| ==> '\n' !in lines[i]
    ensures CountChar(Joined(lines), '\n') == |lines|
    ensures CountChar(SectionHeader(title) + Joined(lines), '\n') == |lines| + 2
    decreases |lines|
  {
    if lines != [] {
      var init := lines[..|lines| - 1];
      SectionRows(title, init);
      var last := lines[|lines| - 1];
      CountCharAppend(Joined(init) + last, "\n", '\n');
      CountCharAppend(Joined(init), last, '\n');
      CountCharAbsent(last, '\n');
    }
    CountCharAppend(SectionHeader(title), Joined(lines), '\n');
    var dashes := " ---\n";
    CountCharAppend("\n--- " + title, dashes, '\n');
    CountCharAppend("\n--- ", title, '\n');
    CountCharAbsent(title, '\n');
    assert SectionHeader(title) == "\n--- " + title + dashes;
  }

  // ---- suggestions ------------------------------------------------------

  datatype Suggestion =
    | InitializeHint | PassthroughModeHint | KdeDisplaySettingsHint | FullscreenHint
    | HdrHwdecHint | FourKHwdecHint | KdeHdrHint | OptimalHint

  /** The line shown for each suggestion. */
  function SuggestionText(s: Suggestion): string {
    match s
    case InitializeHint => "- Initialize video playback to get diagnostics"
    case PassthroughModeHint => "- For HDR passthrough, set HDR mode to 'Passthrough preferred' in Settings"
    case KdeDisplaySettingsHint => "- Ensure KDE Display Settings has HDR enabled"
    case FullscreenHint => "- Try fullscreen mode - HDR passthrough may work better"
    case HdrHwdecHint => "- Enable hardware decoding for better HDR performance"
    case FourKHwdecHint => "- Consider enabling hardware decoding for 4K content"
    case KdeHdrHint => "- Enable HDR in KDE System Settings > Display > HDR"
    case OptimalHint => "- Current configuration appears optimal for this content"
  }

  // The rules of `generateSuggestions`, one predicate each.

  /** HDR content that is not being passed through to the display. */
  predicate PassthroughRule(v: PlayerView) {
    var mode := DetermineOutputMode(Some(v));
    v.contentIsHdr && mode != Passthrough && mode != PassthroughAuto
  }

  predicate FullscreenRule(v: PlayerView, isFullscreen: bool) {
    v.contentIsHdr && !isFullscreen
  }

  predicate HdrHwdecRule(v: PlayerView) {
    v.contentIsHdr && v.hwdecCurrent == ""
  }

  predicate FourKHwdecRule(v: PlayerView) {
    v.hwdecCurrent == "" && v.videoHeight >= 2160
  }

  predicate KdeHdrRule(v: PlayerView, kdeState: string) {
    v.contentIsHdr && kdeState != "enabled"
  }

  /** No rule of `generateSuggestions` applies to this player state. */
  predicate NothingToSuggest(v: PlayerView, isFullscreen: bool, kdeState: string) {
    && !PassthroughRule(v)
    && !FullscreenRule(v, isFullscreen)
    && !HdrHwdecRule(v)
    && !FourKHwdecRule(v)
    && !KdeHdrRule(v, kdeState)
  }

  /** The hints the rules of `generateSuggestions` produce, in order. */
  function Hints(v: PlayerView, isFullscreen: bool, kdeState: string): seq<Suggestion> {
    (if PassthroughRule(v) then [PassthroughModeHint, KdeDisplaySettingsHint] else [])
    + (if FullscreenRule(v, isFullscreen) then [FullscreenHint] else [])
    + (if HdrHwdecRule(v) then [HdrHwdecHint] else [])
    + (if FourKHwdecRule(v) then [FourKHwdecHint] else [])
    + (if KdeHdrRule(v, kdeState) then [KdeHdrHint] else [])
  }

  /** The list `generateSuggestions` returns. */
  function Suggestions(view: Option<PlayerView>, isFullscreen: bool, kdeState: string): (r: seq<Suggestion>)
    ensures |r| > 0
  {
    if view.None? then [InitializeHint]
    else if Hints(view.value, isFullscreen, kdeState) == [] then [OptimalHint]
    else Hints(view.value, isFullscreen, kdeState)
  }

  /** `generateSuggestions`, with the window's fullscreen state and the
      desktop's HDR setting as inputs. */
  method GenerateSuggestions(view: Option<PlayerView>, isFullscreen: bool, kdeState: string)
    returns (suggestions: seq<Suggestion>)
    ensures suggestions == Suggestions(view, isFullscreen, kdeState)
  {
    if view.None? {
      return [InitializeHint];
    }
    var v := view.value;
    var outputMode := DetermineOutputMode(view);
    ghost var a, b, c, d, e := HintParts(v, isFullscreen, kdeState);
    assert PassthroughRule(v) <==> v.contentIsHdr && outputMode != Passthrough && outputMode != PassthroughAuto;
    suggestions := [];
    if v.contentIsHdr {
      if outputMode != Passthrough && outputMode != PassthroughAuto {
        suggestions := suggestions + [PassthroughModeHint, KdeDisplaySettingsHint];
      }
      assert suggestions == a;
      if !isFullscreen {
        suggestions := suggestions + [FullscreenHint];
      }
      assert suggestions == a + b;
      if v.hwdecCurrent == "" {
        suggestions := suggestions + [HdrHwdecHint];
      }
    }
    assert suggestions == a + b + c;
    if v.hwdecCurrent == "" && v.videoHeight >= 2160 {
      suggestions := suggestions + [FourKHwdecHint];
    }
    assert suggestions == a + b + c + d;
    if v.contentIsHdr && kdeState != "enabled" {
      suggestions := suggestions + [KdeHdrHint];
    }
    assert suggestions == Hints(v, isFullscreen, kdeState);
    if suggestions == [] {
      suggestions := [OptimalHint];
    }
  }

  /** The hints split into the five rules' contributions. */
  lemma HintParts(v: PlayerView, isFullscreen: bool, kdeState: string)
    returns (a: seq<Suggestion>, b: seq<Suggestion>, c: seq<Suggestion>, d: seq<Suggestion>, e: seq<Suggestion>)
    ensures Hints(v, isFullscreen, kdeState) == a + b + c + d + e
    ensures a == if PassthroughRule(v) then [PassthroughModeHint, KdeDisplaySettingsHint] else []
    ensures b == if FullscreenRule(v, isFullscreen) then [FullscreenHint] else []
    ensures c == if HdrHwdecRule(v) then [HdrHwdecHint] else []
    ensures d == if FourKHwdecRule(v) then [FourKHwdecHint] else []
    ensures e == if KdeHdrRule(v, kdeState) then [KdeHdrHint] else []
  {
    a := if PassthroughRule(v) then [PassthroughModeHint, KdeDisplaySettingsHint] else [];
    b := if FullscreenRule(v, isFullscreen) then [FullscreenHint] else [];
    c := if HdrHwdecRule(v) then [HdrHwdecHint] else [];
    d := if FourKHwdecRule(v) then [FourKHwdecHint] else [];
    e := if KdeHdrRule(v, kdeState) then [KdeHdrHint] else [];
  }

  /** Each hint appears exactly when its rule applies; the rules never ask
      for initialisation or report an optimal set-up. */
  lemma HintRules(v: PlayerView, isFullscreen: bool, kdeState: string)
    ensures var hints := Hints(v, isFullscreen, kdeState);
      && (PassthroughModeHint in hints <==> PassthroughRule(v))
      && (KdeDisplaySettingsHint in hints <==> PassthroughRule(v))
      && (FullscreenHint in hints <==> FullscreenRule(v, isFullscreen))
      && (HdrHwdecHint in hints <==> HdrHwdecRule(v))
      && (FourKHwdecHint in hints <==> FourKHwdecRule(v))
      && (KdeHdrHint in hints <==> KdeHdrRule(v, kdeState))
      && InitializeHint !in hints && OptimalHint !in hints
  {
    var a, b, c, d, e := HintParts(v, isFullscreen, kdeState);
    assert PassthroughModeHint in a + b + c + d + e <==> PassthroughRule(v) by { InParts(PassthroughModeHint, a, b, c, d, e); }
    assert KdeDisplaySettingsHint in a + b + c + d + e <==> PassthroughRule(v) by { InParts(KdeDisplaySettingsHint, a, b, c, d, e); }
    assert FullscreenHint in a + b + c + d + e <==> FullscreenRule(v, isFullscreen) by { InParts(FullscreenHint, a, b, c, d, e); }
    assert HdrHwdecHint in a + b + c + d + e <==> HdrHwdecRule(v) by { InParts(HdrHwdecHint, a, b, c, d, e); }
    assert FourKHwdecHint in a + b + c + d + e <==> FourKHwdecRule(v) by { InParts(FourKHwdecHint, a, b, c, d, e); }
    assert KdeHdrHint in a + b + c + d + e <==> KdeHdrRule(v, kdeState) by { InParts(KdeHdrHint, a, b, c, d, e); }
    assert InitializeHint !in a + b + c + d + e by { InParts(InitializeHint, a, b, c, d, e); }
    assert OptimalHint !in a + b + c + d + e by { InParts(OptimalHint, a, b, c, d, e); }
  }

  /** Membership in a concatenation of five lists. */
  lemma InParts<T>(x: T, a: seq<T>, b: seq<T>, c: seq<T>, d: seq<T>, e: seq<T>)
    ensures x in a + b + c + d + e <==> x in a || x in b || x in c || x in d || x in e
  {
  }

  /** No hint is produced exactly when no rule applies. */
  lemma NoHints(v: PlayerView, isFullscreen: bool, kdeState: string)
    ensures Hints(v, isFullscreen, kdeState) == [] <==> NothingToSuggest(v, isFullscreen, kdeState)
  {
    var a, b, c, d, e := HintParts(v, isFullscreen, kdeState);
    assert |a + b + c + d + e| == |a| + |b| + |c| + |d| + |e|;
  }

  /** The list is never empty; without a player it is the single
      initialisation hint; otherwise it is the rules' hints, or the "optimal"
      line alone exactly when no rule applies. */
  lemma SuggestionRules(view: Option<PlayerView>, isFullscreen: bool, kdeState: string)
    ensures var suggestions := Suggestions(view, isFullscreen, kdeState);
      && |suggestions| > 0
      && (view.None? ==> suggestions == [InitializeHint])
      && (view.Some? ==> InitializeHint !in suggestions)
      && (OptimalHint in suggestions ==> suggestions == [OptimalHint])
      && (view.Some? ==>
            && (suggestions == [OptimalHint] <==> NothingToSuggest(view.value, isFullscreen, kdeState))
            && (!NothingToSuggest(view.value, isFullscreen, kdeState) ==> suggestions == Hints(view.value, isFullscreen, kdeState)))
  {
    if view.Some? {
      HintRules(view.value, isFullscreen, kdeState);
      NoHints(view.value, isFullscreen, kdeState);
    }
  }
}
