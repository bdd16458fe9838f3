# Absokino player core in Dafny

A model of the core of Absokino, a Qt/QML video player built on libmpv, and
proofs about it. It covers:

- **The player object** (`MpvObject`):
  - its playback, video, HDR and media fields;
  - the requests it sends to the backend (options, properties, asynchronous
    commands, property observers), kept as a request log;
  - the event drain and the property-change dispatcher;
  - the `mpv_node` to `QVariant` marshaller;
  - the bit-depth and HDR classifiers;
  - the command surface with its clamps and mode-to-option tables.
- **The HDR diagnostics:**
  - the output-mode decision tree, the compact status and the display-capability answer;
  - the report section builder and the suggestion list.
- **The track and chapter list models.**
- **The recent-files list:** the most-recently-used list with move-to-front,
  de-duplication and a cap of fifty entries.
- **The persistent settings store.**
- **The application controller.**

The backend is not executed:

- Every value libmpv would report while an event is handled is an input
  (`Playback.Snapshot`: property name to `mpv_node`).
- Every call into libmpv becomes an entry in `Engine.MpvObject.requests`.
- File-system answers, the clock, and the desktop and kernel HDR probes
  are parameters.
- Qt notifications are recorded in plain `signals` logs, in emission order.

Modules:

- **Base:** `Option`; `Float` (a double that may be NaN); `Rendered` (display
  text whose decimal digits are not modelled); Qt's `qBound`; the
  `static_cast<int>` wrap-around.
- **Text:** ASCII case mapping, substring search, decimal text of integers
  and its parser.
- **Variant:** `mpv_node`, `QVariant`, `nodeToVariant`, and the Qt
  conversions `toMap`, `toString`, `toInt`, `toBool`, `toDouble` and `toSize`.
- **Playback:** the player's state as a value. It has one function per
  handler and `Step`/`Drain` for `handleMpvEvent`/`onMpvEvents`. The
  classifiers and the lemmas about event handling live here.
- **Engine:** the class `MpvObject`. Its methods update fields in place. Each
  method is proved to agree with the Playback function for the same handler,
  or to append exactly the expected requests to the log.
- **Diagnostics:** `HdrDiagnostics`.
- **Tracks:** `TrackModel`.
- **Chapters:** `ChapterModel`.
- **Clock:** the `formatTime` shared by the chapter model and the controller.
- **RecentFiles:** `RecentFilesModel`.
- **Settings:** `SettingsManager`.
- **Controller:** `PlayerController`.

The model keeps these behaviours of the code as they are written:

- **HDR aliases** (src/mpvobject.cpp:405-410): the transfer names
  "st2084"/"smpte2084" and the primaries name "2020" count only as the
  whole string, while the other names count as substrings.
- **Volume clamp** (src/mpvobject.cpp:633-636): `MpvObject::setVolume`
  clamps to 150 whether or not volume boost is allowed; the 100 limit
  lives only in `SettingsManager::setVolume`.
- **Peak detection** (src/hdrdiagnostics.cpp:222-226): the "auto"
  tone-mapping branch also accepts any value `QVariant::toBool` reads as
  true, so a peak-detection value of "no" or "auto" reads as tone-mapped.
- **Frame-average level** (src/mpvobject.cpp:426): it is read from the
  "max-luma" key.
- **Playing on load** (src/mpvobject.cpp:326-332): a loaded file sets
  `playing` whatever the pause and duration state.

## Model

| member | source | states |
|---|---|---|
| Base.QBound | src/mpvobject.cpp:645 | `qBound(lo, x, hi)` on doubles lies in [lo, hi], is `x` when `x` already lies there, and is `lo` for NaN |
| Base.ClampInt | src/settingsmanager.cpp:79 | integer `qBound`: within bounds, identity inside them, the violated bound outside |
| Base.Wrap32 | src/mpvobject.cpp:264 | `static_cast<int>` of a 64-bit value: a 32-bit value congruent to the input modulo 2^32, the input itself when it fits |
| Text.Upper | src/trackmodel.cpp:90 | ASCII upper-casing keeps the length and maps each character |
| Text.LowerOfUpper | src/mpvobject.cpp:402-403 | lower-casing after upper-casing is lower-casing, so case-insensitive matching ignores either mapping |
| Text.IntRoundTrip | src/trackmodel.cpp:92 | the decimal text `arg` produces for an integer parses back to that integer |
| Variant.NodeToVariant | src/mpvobject.cpp:22-51 | the value of a backend node; `NodeToVariantPreservesStructure` states it: strings, flags, integers and doubles kept, arrays converted item by item in order, maps keyed by their entries with the last entry of a key winning, any other format invalid |
| Variant.NodeToVariantPreservesStructure | src/mpvobject.cpp:22-51 | each scalar node becomes the same scalar; an array a list of the same length and order; a map a map with exactly the entries' keys, each holding the last entry with that key (`insert` overwrites); an unknown format the invalid value |
| Variant.ArrayToListShape | src/mpvobject.cpp:33-39 | the array loop yields one converted element per item, in order |
| Variant.EntriesToMapKeys | src/mpvobject.cpp:40-47 | the keys of the map built by the insert loop are the keys of the entries |
| Variant.EntriesToMapValues | src/mpvobject.cpp:40-47 | a key maps to the conversion of the last entry carrying it |
| Variant.Get | src/mpvobject.cpp:370-375 | `QVariantMap::value(key, fallback)`: the stored value, else the fallback |
| Variant.ToMap | src/mpvobject.cpp:369 | `toMap`: the map itself, else the empty map |
| Variant.ToInt | src/mpvobject.cpp:370-371 | `toInt` always yields a 32-bit value |
| Variant.ToDouble | src/mpvobject.cpp:425-426 | `toDouble` keeps a double, NaN included, and turns anything else into a number |
| Variant.ToSize | src/settingsmanager.cpp:109 | `toSize` returns a stored size unchanged |
| Variant.ToBool | src/hdrdiagnostics.cpp:224 | `QVariant::toBool`: a string is true unless it is empty, "0" or "false" in any case; `ConversionsRoundTrip` states that a stored flag reads back, and `Diagnostics.PeakDetectionOfBackendStrings` that "yes", "no" and "auto" all read as true |
| Variant.ToString | src/hdrdiagnostics.cpp:224 | `QVariant::toString`: `ConversionsRoundTrip` states that a stored string reads back as itself and that a 32-bit integer's text reads back as that integer |
| Variant.ConversionsRoundTrip | src/settingsmanager.cpp:19-131 | what a setter stores (string, in-range integer, boolean, size) its getter reads back, and an integer written as text reads back as that integer |
| Playback.Fresh | src/mpvobject.h:227-272 | the field initialisers: bit depth 8, current chapter -1, volume 100, and derived fields consistent |
| Playback.BitDepth | src/mpvobject.cpp:378-387 | the bit depth is one of 8, 10, 12, 16 |
| Playback.IsPqOrHlg | src/mpvobject.cpp:402-407 | the transfer names PQ or HLG; `ClassifiersIgnoreCase`, `ExactTransferAliases`, `HdrExample` and `SdrTransferExample` state that case is ignored, that "st2084" counts only as the whole text, and which typical tags qualify |
| Playback.IsBt2020 | src/mpvobject.cpp:409-410 | the primaries name BT.2020; `ExactPrimariesAlias` and `SdrPrimariesExample` state that "2020" counts only as the whole text and that BT.601 does not qualify |
| Playback.IsHdrContent | src/mpvobject.cpp:412 | HDR iff both classifiers hold; `HdrExample`, `HdrExamplePq`, `SdrTransferExample` and `SdrPrimariesExample` fix it on typical tags, and `Derived` (kept by `StepPreservesDerived`) ties `contentIsHdr` to it |
| Playback.ClassifiersIgnoreCase | src/mpvobject.cpp:378-412 | bit depth and HDR classification are unchanged by upper- or lower-casing their inputs |
| Playback.BitDepthTenExamples | src/mpvobject.cpp:379-380 | "yuv420p10le" and "P010" are 10-bit, and the 10-bit test wins over the 12-bit test |
| Playback.BitDepthTwelveExample | src/mpvobject.cpp:381-382 | "yuv444p12be" is 12-bit |
| Playback.BitDepthSixteenExample | src/mpvobject.cpp:383-384 | "gray16le" is 16-bit |
| Playback.BitDepthEightExample | src/mpvobject.cpp:385-386 | a format with none of the markers, "yuv420p", is 8-bit |
| Playback.HdrExample | src/mpvobject.cpp:405-412 | PQ transfer with BT.2020 primaries is HDR |
| Playback.HdrExamplePq | src/mpvobject.cpp:405-412 | the bare "pq" tag with "bt.2020" is HDR |
| Playback.SdrTransferExample | src/mpvobject.cpp:405-412 | a BT.709 transfer is not HDR even with BT.2020 primaries |
| Playback.SdrPrimariesExample | src/mpvobject.cpp:409-412 | HLG with BT.601 primaries is not HDR: both conditions are needed |
| Playback.ExactTransferAliases | src/mpvobject.cpp:407 | "ST2084" matches the whole-string alias after lower-casing; "st2084x" matches no transfer test |
| Playback.ExactPrimariesAlias | src/mpvobject.cpp:409-410 | "2020" is BT.2020 only as the whole string; "rec2020" is not |
| Playback.ReadMap | src/mpvobject.cpp:364-369 | a property read succeeds as a map exactly when the backend reports it and it converts to a map |
| Playback.ReadList | src/mpvobject.cpp:439-447 | a failed read gives nothing; a value that is not a list gives the empty list |
| Playback.CheckHdrContent | src/mpvobject.cpp:395-432 | the classification is recomputed; when it does not flip the state is untouched; when it flips the peak levels are re-read from "max-cll" and "max-luma" (kept if the read fails) and one HDR notification is appended |
| Playback.VideoFromMap | src/mpvobject.cpp:369-387 | the map's width ("dw"), height ("dh"), pixel format, primaries, transfer ("gamma") and matrix ("colormatrix") are stored, 0 when a size is missing and always 32-bit; the bit depth agrees with the pixel format; the codec and renderer fields are kept |
| Playback.UpdateVideoParams | src/mpvobject.cpp:359-393 | without an instance or a map nothing changes; otherwise the video fields come from the map, the derived fields agree, and the video notification precedes any HDR one |
| Playback.OfTypeKeepsOnlyKind | src/mpvobject.cpp:446-457 | every filtered entry is an input entry that is a map with that "type" |
| Playback.SplitTracksByType | src/mpvobject.cpp:446-459 | the single pass puts exactly the "audio" maps in the first list and the "sub" maps in the second, each in input order, and drops the rest |
| Playback.UpdateTracks | src/mpvobject.cpp:434-464 | a failed read changes nothing; otherwise both lists are replaced by the filtered entries, one notification is appended, and all else is kept |
| Playback.UpdateChapters | src/mpvobject.cpp:466-483 | a failed read changes nothing; otherwise the chapter list is replaced (empty for a non-list) and only that changes |
| Playback.ApplyProperty | src/mpvobject.cpp:245-323 | the property-change switch; `ScalarPropertyUpdatesItsField` states each handler's field, `UnhandledPropertyIgnored` that unknown names and wrong formats change nothing, and `ApplyPreservesDerived`/`ApplyAppendsSignals` what every handler keeps |
| Playback.ScalarPropertyUpdatesItsField | src/mpvobject.cpp:249-321 | a handled scalar property of the right format stores its payload in its own field, leaves every other mirrored field and every unmirrored field alone (pause also sets playing), and appends one notification (two for pause) |
| Playback.UnhandledPropertyIgnored | src/mpvobject.cpp:245-323 | an unknown name, or a payload of another format, leaves the whole state unchanged |
| Playback.ObservedButUnhandled | src/mpvobject.cpp:183-221 | every handled property is observed with its handler's format; "video-format" and "container-fps" are observed but have no handler |
| Playback.Step | src/mpvobject.cpp:242-357 | one event handled; `PauseDerivesPlaying`, `FileLoadedPlays`, `EndFileStops` and `InertEvents` state each event kind, and `StepPreservesDerived`/`StepAppendsSignals` what every event keeps |
| Playback.PauseDerivesPlaying | src/mpvobject.cpp:249-253 | after a pause change, playing holds iff not paused and the duration is positive |
| Playback.FileLoadedPlays | src/mpvobject.cpp:326-332 | a loaded file sets playing whatever the pause and duration state, then re-reads the video parameters |
| Playback.EndFileStops | src/mpvobject.cpp:334-344 | an ended file clears playing; the last error changes, and an error is announced, only when the end reason is an error |
| Playback.InertEvents | src/mpvobject.cpp:346-355 | log messages, unknown events and the empty event change nothing |
| Playback.StepPreservesDerived | src/mpvobject.cpp:242-357 | every event keeps bit depth and HDR flag in agreement with the strings they are derived from |
| Playback.ApplyPreservesDerived | src/mpvobject.cpp:245-323 | every property handler keeps the derived fields in agreement |
| Playback.ApplyAppendsSignals | src/mpvobject.cpp:245-323 | property handlers keep the instance and only append notifications |
| Playback.StepAppendsSignals | src/mpvobject.cpp:242-357 | no event creates or destroys the instance, and events only append notifications |
| Playback.Drain | src/mpvobject.cpp:229-240 | the event loop; `DrainStopsAtEmptyPoll` states that it stops at the first empty event, `DrainConcat` that it composes over a split queue, `DrainPreservesDerived` that the derived fields stay consistent |
| Playback.DrainConcat | src/mpvobject.cpp:233-239 | draining events one after another is sequential composition while no empty poll intervenes |
| Playback.DrainStopsAtEmptyPoll | src/mpvobject.cpp:235-237 | the drain stops at the first empty event; later events wait for the next wake-up |
| Playback.DrainOfLogMessages | src/mpvobject.cpp:346-352 | a drain over log messages alone changes nothing |
| Playback.DrainPreservesDerived | src/mpvobject.cpp:229-240 | a whole drain keeps the derived fields in agreement |
| Playback.HdrVideoParamsRead | src/mpvobject.cpp:364-375 | a PQ / BT.2020 / P010 parameter node reads as a map with those strings |
| Playback.HdrVideoParamsApplied | src/mpvobject.cpp:359-393 | re-reading those parameters gives 10 bits and HDR content, whatever the earlier state |
| Playback.VideoParamsEventRereads | src/mpvobject.cpp:272-273 | a "video-params" change re-reads the parameters, whatever its payload |
| Playback.DrainTwo | src/mpvobject.cpp:233-239 | a two-event queue is handled as the two steps in order |
| Playback.FileLoadedThenVideoParams | src/mpvobject.cpp:326-332 | after the file-loaded event and a video-params change, the player is playing, its video and HDR fields are those re-read from the backend, and its first new notifications are playing-changed then file-loaded |
| Playback.HdrFileEndToEnd | src/mpvobject.cpp:326-432 | after a queue holding the file-loaded event and then a "video-params" change for a PQ / BT.2020 / P010 stream is drained, the player is playing, 10-bit and HDR with those parameters, and the first notifications it sent are playing-changed then file-loaded |
| Engine.ArgOf | src/mpvobject.cpp:499-511 | booleans go as flags, integers as 64-bit integers, doubles as doubles, anything else as its text |
| Engine.HwdecOption | src/mpvobject.cpp:102-109 | hardware decoding is "no" exactly for mode "off", otherwise "auto-safe" |
| Engine.HdrProfileOf | src/mpvobject.cpp:160-180 | "passthrough" selects the clip curve without peak detection, "tonemap" the hable curve with peak detection and without the colour-space hint, every other mode "auto" for both and the hint on; each value iff its mode |
| Engine.HdrModeConfigurationsAgree | src/mpvobject.cpp:715-733 | run-time and start-up HDR configuration set the same tone mapping, peak detection and hint; only start-up sets target-trc, and it sets target-prim in every mode but "tonemap" |
| Engine.GpuApiOptions | src/mpvobject.cpp:118-126 | a graphics-API option is set only for "vulkan" and "opengl", naming that API |
| Engine.ObserveRequests | src/mpvobject.cpp:183-221 | one observer registration per observed property, in order |
| Engine.WaitEvent | src/mpvobject.cpp:234 | a zero-timeout wait returns the next queued event, or the empty event once none is left |
| Engine.MpvObject.constructor | src/mpvobject.cpp:79-156 | a failed creation records its error and sends nothing; a failed initialisation records its error after the options; success sends the options, the observers and the wake-up callback |
| Engine.MpvObject.Initialize | src/mpvobject.cpp:140-155 | initialisation failure drops the instance and records "mpv initialization failed: …"; success registers observers and the callback |
| Engine.MpvObject.SetInitialOptions | src/mpvobject.cpp:93-137 | the start-up options are logged in source order, read from the settings store |
| Engine.MpvObject.SetBaseOptions | src/mpvobject.cpp:93-109 | logging, video output and hardware-decoding options |
| Engine.MpvObject.SetGpuApiOption | src/mpvobject.cpp:118-126 | the graphics-API option for the renderer mode |
| Engine.MpvObject.SetTrailingOptions | src/mpvobject.cpp:129-137 | audio, subtitle and playback options |
| Engine.MpvObject.SetMpvOption | src/mpvobject.cpp:492-516 | one option request in the chosen format, nothing without an instance, no field changes |
| Engine.MpvObject.SetMpvProperty | src/mpvobject.cpp:518-542 | one property request in the chosen format, nothing without an instance |
| Engine.MpvObject.ConfigureHdrOptions | src/mpvobject.cpp:158-181 | the HDR option table for the mode, in order |
| Engine.MpvObject.SetupPropertyObservers | src/mpvobject.cpp:183-221 | one observer per observed property, in order |
| Engine.MpvObject.OnMpvEvents | src/mpvobject.cpp:229-240 | without an instance nothing happens; otherwise the state becomes the drain of the queue, no request is sent, and derived fields stay consistent |
| Engine.MpvObject.HandleMpvEvent | src/mpvobject.cpp:242-357 | the fields change exactly as `Playback.Step` says and no request is sent |
| Engine.MpvObject.HandlePropertyChange | src/mpvobject.cpp:245-323 | the fields change exactly as `Playback.ApplyProperty` says |
| Engine.MpvObject.UpdateVideoParams | src/mpvobject.cpp:359-393 | the fields change exactly as `Playback.UpdateVideoParams` says |
| Engine.MpvObject.CheckHdrContent | src/mpvobject.cpp:395-432 | the fields change exactly as `Playback.CheckHdrContent` says |
| Engine.MpvObject.UpdateTracks | src/mpvobject.cpp:434-464 | the loop over the track list yields `Playback.UpdateTracks` |
| Engine.MpvObject.UpdateChapters | src/mpvobject.cpp:466-483 | the fields change exactly as `Playback.UpdateChapters` says |
| Engine.MpvObject.LoadFile | src/mpvobject.cpp:576-583 | one asynchronous "loadfile path" command, nothing without an instance |
| Engine.MpvObject.Play | src/mpvobject.cpp:585-588 | sets the pause property to false |
| Engine.MpvObject.Pause | src/mpvobject.cpp:590-593 | sets the pause property to true |
| Engine.MpvObject.Stop | src/mpvobject.cpp:595-600 | one "stop" command, nothing without an instance |
| Engine.MpvObject.TogglePause | src/mpvobject.cpp:602-607 | one "cycle pause" command |
| Engine.MpvObject.Seek | src/mpvobject.cpp:609-615 | one relative seek command |
| Engine.MpvObject.SeekAbsolute | src/mpvobject.cpp:617-623 | one absolute seek command |
| Engine.MpvObject.SeekPercent | src/mpvobject.cpp:625-631 | one absolute-percent seek command |
| Engine.MpvObject.SetVolume | src/mpvobject.cpp:633-636 | the volume sent is clamped to [0, 150] |
| Engine.MpvObject.SetMuted | src/mpvobject.cpp:638-641 | sets the mute flag |
| Engine.MpvObject.SetSpeed | src/mpvobject.cpp:643-646 | the speed sent is clamped to [0.25, 4] |
| Engine.MpvObject.SetAudioTrack | src/mpvobject.cpp:648-651 | sets "aid" |
| Engine.MpvObject.SetSubtitleTrack | src/mpvobject.cpp:653-656 | sets "sid" |
| Engine.MpvObject.LoadSubtitleFile | src/mpvobject.cpp:658-664 | one "sub-add path select" command |
| Engine.MpvObject.SetChapter | src/mpvobject.cpp:666-669 | sets "chapter" |
| Engine.MpvObject.NextChapter | src/mpvobject.cpp:671-676 | one "add chapter 1" command |
| Engine.MpvObject.PreviousChapter | src/mpvobject.cpp:678-683 | one "add chapter -1" command |
| Engine.MpvObject.FrameStep | src/mpvobject.cpp:685-690 | one "frame-step" command |
| Engine.MpvObject.FrameBackStep | src/mpvobject.cpp:692-697 | one "frame-back-step" command |
| Engine.MpvObject.SetLoopA | src/mpvobject.cpp:699-702 | the loop start is set to the current position |
| Engine.MpvObject.SetLoopB | src/mpvobject.cpp:704-707 | the loop end is set to the current position |
| Engine.MpvObject.ClearLoop | src/mpvobject.cpp:709-713 | both loop points are set to "no", in order |
| Engine.MpvObject.SetHdrMode | src/mpvobject.cpp:715-733 | the settings change exactly as `SettingsManager::setHdrMode` changes them (key written and notified only when the mode differs, nothing else touched), then the run-time HDR property table for the mode is sent |
| Engine.MpvObject.SetHwdecMode | src/mpvobject.cpp:735-746 | the settings change exactly as `SettingsManager::setHwdecMode` changes them, then "hwdec" is set to "no" for "off" and "auto-safe" otherwise |
| Engine.MpvObject.SetRendererMode | src/mpvobject.cpp:748-752 | the settings change exactly as `SettingsManager::setRendererMode` changes them; no request is sent and no player field changes |
| Engine.MpvObject.GetMpvProperty | src/mpvobject.cpp:544-560 | the converted property, or the invalid value without an instance or when the read fails |
| Engine.MpvObject.GetMpvVersion | src/mpvobject.cpp:562-573 | the empty string without an instance or when the read fails |
| Diagnostics.LabelsDistinct | src/hdrdiagnostics.cpp:195-231 | the five output-mode texts are pairwise distinct, so the string comparisons decide the mode |
| Diagnostics.DetermineOutputMode | src/hdrdiagnostics.cpp:195-204 | "Unknown" without a player; "SDR" exactly for non-HDR content, whatever the tone mapping |
| Diagnostics.OutputModeOfHdrContent | src/hdrdiagnostics.cpp:206-230 | for HDR content: "clip"/"no"/empty give Passthrough; a named curve gives Tone-mapped; "auto" gives Tone-mapped iff peak detection reads "yes" or true, else Passthrough (auto); any other curve gives Unknown |
| Diagnostics.PeakDetectionOfBackendStrings | src/hdrdiagnostics.cpp:224 | "yes", "no" and "auto" all count as peak detection, because `toBool` is true for them |
| Diagnostics.ConfiguredModesDiagnosis | src/hdrdiagnostics.cpp:206-230 | with the settings the player itself applies, only "passthrough" mode is diagnosed as passthrough; the default mode reads as tone-mapped |
| Diagnostics.CheckDisplayHdrCapability | src/hdrdiagnostics.cpp:262-284 | "Unknown" on every path, whatever the probes report |
| Diagnostics.GetCompactStatus | src/hdrdiagnostics.cpp:233-260 | exactly three keys; all "N/A" without a player; otherwise "Yes"/"No", the output-mode text (which is "SDR" for non-HDR content) and "Unknown" |
| Diagnostics.FormatSection | src/hdrdiagnostics.cpp:185-193 | the loop yields the heading followed by every line and a line break, in order |
| Diagnostics.JoinedAppend | src/hdrdiagnostics.cpp:189-191 | joining lists of lines distributes over concatenation |
| Diagnostics.SectionRows | src/hdrdiagnostics.cpp:185-193 | a section whose title and lines hold no line break has exactly one line break per line plus two |
| Diagnostics.GenerateSuggestions | src/hdrdiagnostics.cpp:370-417 | the appending method yields `Suggestions`: the initialisation hint without a player, the rules' hints in order, or the optimal line when none fires |
| Diagnostics.HintParts | src/hdrdiagnostics.cpp:383-410 | the rule hints are the concatenation of the five rules' contributions, in source order |
| Diagnostics.HintRules | src/hdrdiagnostics.cpp:383-410 | each hint appears iff its rule holds (4K hint iff hwdec empty and height >= 2160; KDE hint iff HDR and KDE state not "enabled"; …), never the initialisation or optimal line |
| Diagnostics.NoHints | src/hdrdiagnostics.cpp:383-414 | no rule hint exactly when no rule applies |
| Diagnostics.Suggestions | src/hdrdiagnostics.cpp:370-417 | never empty; `SuggestionRules`, `HintRules` and `NoHints` state which hints appear and when the optimal line does |
| Diagnostics.SuggestionRules | src/hdrdiagnostics.cpp:370-417 | the list is never empty; without a player it is exactly the initialisation line; with one it is exactly the optimal line iff no rule applies, else the rule hints |
| Tracks.TitleFallback | src/trackmodel.cpp:87-94 | a track's title is its own, else its upper-cased language, else "Track <id>"; never empty |
| Tracks.TrackOf | src/trackmodel.cpp:78-94 | a row takes id, language and selected flag from the entry and always has a title |
| Tracks.RowsOf | src/trackmodel.cpp:70-97 | one row per entry, in order |
| Tracks.MatchingAppend | src/trackmodel.cpp:70-76 | filtering by type distributes over concatenation |
| Tracks.RebuiltIsFilter | src/trackmodel.cpp:65-101 | the rebuilt rows are exactly the rows of the entries whose type is the model's, in input order |
| Tracks.RebuiltTitles | src/trackmodel.cpp:87-94 | every rebuilt row has a non-empty title |
| Tracks.Reselected | src/trackmodel.cpp:107-114 | each flag becomes "id equals the current track"; length, order and every other field are unchanged |
| Tracks.NoticesAreFlips | src/trackmodel.cpp:109-113 | a row is notified exactly when its selection flag flips |
| Tracks.ReselectIdempotent | src/trackmodel.cpp:103-115 | selecting the same track again changes nothing and notifies nothing |
| Tracks.NoticesOnlyRows | src/trackmodel.cpp:107-114 | every notification names an existing row, and rows are notified in increasing order |
| Tracks.LabelOf | src/trackmodel.cpp:121-127 | a matching row's label: upper-cased language, else title, else "Track <id>"; never empty |
| Tracks.Label | src/trackmodel.cpp:117-131 | the label is never empty |
| Tracks.LabelFirstMatch | src/trackmodel.cpp:117-131 | the first row with the id decides the label; with none it is "Audio" for an audio model and "Off" otherwise |
| Tracks.TrackModel.constructor | src/trackmodel.h:58 | no rows, no type, current track 0 |
| Tracks.TrackModel.Data | src/trackmodel.cpp:16-42 | out-of-range rows and unknown roles give the invalid value; in range, each of the seven roles gives its own field of the row |
| Tracks.TrackModel.SetTrackType | src/trackmodel.cpp:57-63 | the type is stored; rows kept; notified only when it differs |
| Tracks.TrackModel.UpdateTracks | src/trackmodel.cpp:65-101 | the loop leaves exactly `Rebuilt(list, type)`, discarding earlier rows, then a reset and a count notification |
| Tracks.TrackModel.SetCurrentTrack | src/trackmodel.cpp:103-115 | the in-place loop leaves exactly `Reselected`, notifying exactly the flipped rows in row order |
| Tracks.TrackModel.TrackLabel | src/trackmodel.cpp:117-131 | never empty; "Audio"/"Off" when no row has the id |
| Clock.WholeSeconds | src/chaptermodel.cpp:101 | the whole seconds of a non-negative time, truncated |
| Clock.ClockFields | src/chaptermodel.cpp:102-104 | minutes and seconds are below 60 and hours, minutes and seconds give back the total |
| Clock.FormatTime | src/chaptermodel.cpp:95-116 | "--:--" for NaN or negative times; any other time gives text that reads back as its truncated whole seconds |
| Clock.ClockText | src/playercontroller.cpp:76-90 | the text of a count of seconds reads back, as canonical clock text, as that count |
| Clock.LongFormRoundTrip | src/chaptermodel.cpp:106-110 | "H:MM:SS" with positive hours and zero-padded fields reads back as its seconds |
| Clock.ShortFormRoundTrip | src/chaptermodel.cpp:111-115 | "M:SS" with zero-padded seconds reads back as its seconds |
| Clock.LongFormText | src/chaptermodel.cpp:106-110 | the count made up of positive hours and minutes and seconds below 60 is written as those hours, then the minutes and seconds zero-padded to two digits |
| Clock.ShortFormText | src/chaptermodel.cpp:111-115 | the count made up of minutes and seconds below 60 is written as those minutes, then the seconds zero-padded to two digits |
| Clock.ClockTextUnique | src/chaptermodel.cpp:102-115 | a text reads back as a count iff it is that count's clock text: "H:MM:SS" without a leading zero on the hours from one hour on, "M:SS" below, every field after a colon two digits below 60 |
| Clock.ClockRoundTrip | src/chaptermodel.cpp:95-116 | "--:--" exactly for NaN or negative times; any other time reads back as its truncated whole seconds |
| Clock.ClockExamples | src/chaptermodel.cpp:102-115 | 45 seconds read "0:45" and 3725 seconds read "1:02:05" |
| Chapters.ChapterOf | src/chaptermodel.cpp:81-86 | a row carries the position it was built at |
| Chapters.ChaptersOf | src/chaptermodel.cpp:79-89 | one row per entry, numbered by position |
| Chapters.DisplayTitle | src/chaptermodel.cpp:29 | the stored title, else "Chapter <index + 1>"; never empty |
| Chapters.NoticesMatchChanges | src/chaptermodel.cpp:58-68 | with rows numbered by position, the rows notified are exactly the rows whose current flag changes, and they lie in range |
| Chapters.ChapterModel.constructor | src/chaptermodel.h:51 | no rows and current chapter -1 |
| Chapters.ChapterModel.Data | src/chaptermodel.cpp:17-39 | out-of-range rows and unknown roles give nothing; the index, the start time, the title with its fallback, current iff the index is the current chapter, and the time as clock text |
| Chapters.ChapterModel.SetCurrentChapter | src/chaptermodel.cpp:52-72 | the same chapter does nothing; otherwise stored, the old and new rows that exist notified, then the chapter notification |
| Chapters.ChapterModel.UpdateChapters | src/chaptermodel.cpp:74-93 | the loop leaves one row per entry numbered by position, keeps the current chapter, then reset and count notifications |
| Chapters.CurrentRowIsCurrentChapter | src/chaptermodel.cpp:35 | after an update the row reading as current is the one at the current chapter's position |
| RecentFiles.FirstIndex | src/recentfilesmodel.cpp:79-86 | the position of the first entry with the path, or none when no entry has it |
| RecentFiles.WithoutShape | src/recentfilesmodel.cpp:110-122 | removing drops exactly one entry when the path is present and none otherwise, keeps the rest, and leaves no entry for the path in a list without duplicates |
| RecentFiles.AddedShape | src/recentfilesmodel.cpp:78-104 | after adding, the file heads a list of at most 50 entries, followed by the others in their old order minus its earlier entry; a list without duplicate paths stays so |
| RecentFiles.LastIndexOf | src/recentfilesmodel.cpp:45 | `lastIndexOf('.')`: the last position of the dot, or -1 when there is none |
| RecentFiles.DisplayName | src/recentfilesmodel.cpp:42-50 | the shown name is a prefix of the file name, either the whole name or cut just before a '.'; `DisplayNameStripsExtension` states which |
| RecentFiles.DisplayNameStripsExtension | src/recentfilesmodel.cpp:42-50 | a name with an extension shows without it; a name without a dot, or with only a leading dot, shows whole |
| RecentFiles.FormatFileSize | src/recentfilesmodel.cpp:184-195 | plain text exactly below 1024 bytes; "GB" exactly from 1 GiB on |
| RecentFiles.ByteSizeRoundTrip | src/recentfilesmodel.cpp:186-187 | below 1024 bytes the text is the number followed by " B", and the number reads back |
| RecentFiles.RecentFilesModel.constructor | src/recentfilesmodel.cpp:146-170 | starts from the loaded list, which holds at most 50 entries |
| RecentFiles.RecentFilesModel.AddFile | src/recentfilesmodel.cpp:71-108 | a missing or non-regular file changes nothing; otherwise the list becomes `Added` and it is saved and counted |
| RecentFiles.RecentFilesModel.RemoveFirst | src/recentfilesmodel.cpp:79-86 | the search loop removes the first entry with the path and reports whether it found one |
| RecentFiles.RecentFilesModel.RemoveFile | src/recentfilesmodel.cpp:110-122 | removes only the first match; saved and counted only when there was one |
| RecentFiles.RecentFilesModel.ClearAll | src/recentfilesmodel.cpp:124-136 | the list becomes empty; an empty list is neither saved nor counted |
| RecentFiles.RecentFilesModel.GetPath | src/recentfilesmodel.cpp:138-144 | the entry's path, or "" out of range |
| Settings.MaxVolume | src/settingsmanager.cpp:78 | 150 exactly when boost is allowed, else 100 |
| Settings.SettingsManager.constructor | src/settingsmanager.cpp:13-17 | starts from what the store holds, with no notification |
| Settings.SettingsManager.HdrMode | src/settingsmanager.cpp:19-22 | "auto" when unset |
| Settings.SettingsManager.HwdecMode | src/settingsmanager.cpp:32-35 | "auto" when unset |
| Settings.SettingsManager.RendererMode | src/settingsmanager.cpp:45-48 | "auto" when unset |
| Settings.SettingsManager.FullscreenBehavior | src/settingsmanager.cpp:58-61 | "no_ui" when unset |
| Settings.SettingsManager.Volume | src/settingsmanager.cpp:71-74 | 100 when unset; always a 32-bit value |
| Settings.SettingsManager.AllowVolumeBoost | src/settingsmanager.cpp:86-89 | false when unset |
| Settings.SettingsManager.WindowSize | src/settingsmanager.cpp:107-110 | 1280 x 720 when unset |
| Settings.SettingsManager.WindowMaximized | src/settingsmanager.cpp:120-123 | false when unset |
| Settings.SettingsManager.SetHdrMode | src/settingsmanager.cpp:24-30 | reads back the new mode; writes its key and notifies only when the reading differs, else nothing changes |
| Settings.SettingsManager.SetHwdecMode | src/settingsmanager.cpp:37-43 | the same for the decoding mode |
| Settings.SettingsManager.SetRendererMode | src/settingsmanager.cpp:50-56 | the same for the renderer mode |
| Settings.SettingsManager.SetFullscreenBehavior | src/settingsmanager.cpp:63-69 | the same for the fullscreen behaviour |
| Settings.SettingsManager.SetVolume | src/settingsmanager.cpp:76-84 | reads back the value clamped to [0, 100], or [0, 150] with boost; the volume limit holds after it; written and notified only on change |
| Settings.SettingsManager.SetAllowVolumeBoost | src/settingsmanager.cpp:91-105 | the flag reads back; turning boost off lowers a volume above 100 to exactly 100 even if boost was already off; other volumes are kept; other keys untouched; notifications in source order |
| Settings.SettingsManager.SetWindowSize | src/settingsmanager.cpp:112-118 | reads back the size; written and notified only on change |
| Settings.SettingsManager.SetWindowMaximized | src/settingsmanager.cpp:125-131 | reads back the flag; written and notified only on change |
| Controller.FormatBitrate | src/playercontroller.cpp:93-106 | empty exactly for a rate that is not positive; Mbps from 10^6, kbps from 1000, else bps; the shown value times the unit's scale is the rate; NaN shows in bps |
| Controller.PlayerController.constructor | src/playercontroller.h:57-59 | no player attached, not fullscreen, library hidden |
| Controller.PlayerController.SetMpvObject | src/playercontroller.h:35 | attaches the player and changes nothing else |
| Controller.PlayerController.SetFullscreen | src/playercontroller.cpp:25-31 | stored; notified only when it differs |
| Controller.PlayerController.SetLibraryVisible | src/playercontroller.cpp:33-39 | stored; notified only when it differs |
| Controller.PlayerController.SetInitialFile | src/playercontroller.cpp:41-45 | stored and notified, even when unchanged |
| Controller.PlayerController.OpenFile | src/playercontroller.cpp:47-50 | only asks for the file dialog |
| Controller.PlayerController.OpenFileUrl | src/playercontroller.cpp:52-68 | an empty path does nothing at all; otherwise the file is added to the recent list (saved and counted when it is an existing regular file), the attached player is asked to load it, and the opening is announced |

## Left out

- Threads and wake-up callbacks (`onWakeup`, `onUpdate`, queued connections): the drain is modelled as sequential processing of a given event queue.
- libmpv itself: its answers are inputs (`Snapshot`, the event queue, the creation and initialisation outcome), and its calls are log entries.
- The renderer (src/mpvrenderer.cpp) and the application wiring (src/main.cpp): GPU and Qt plumbing with no state of the core.
- The D-Bus, sysfs and environment probes of the diagnostics: their results are parameters. `generateReport` is layout and float printing, so only `formatSection` is modelled.
- QSettings persistence (`sync`, `load`, `save`) and QFileInfo: the stored map, the loaded recent list and the file facts are inputs. `RecentFilesModel::load` is represented only by the constructor's input.
- Date formatting of the recent files' last-played role and the remaining `data` roles of the recent-files model (path, file name): plain field reads.
- `rowCount` and `roleNames` of the list models: constant tables.
- Row-level model notifications (`beginRemoveRows`, `beginInsertRows`) of the recent-files model: only the saves and count notifications are recorded.
- Decimal digits of doubles (file sizes from 1 KB, bitrates, seek arguments): rendered values carry the number, the decimals and the unit instead of text.
- IEEE infinities and rounding: a double is a real number or NaN.
- `QString::toLower`/`toUpper` are modelled on ASCII letters only.
- Clock.FormatTime: does not model the `static_cast<int>` overflow for times of 2^31 seconds or more.
- Variant.ToInt: `QString::toInt` also accepts a leading '+' and surrounding white space; the model reads such strings as 0. Only the optional minus sign and plain digits are modelled.
- `QVariant` conversions of doubles to text or integers, and of fractional strings to doubles, are not modelled. Such values read as empty text or zero.
- Settings.SettingsManager.SetAllowVolumeBoost: the volume limit is promised after turning boost off, or when it held before; a call that turns boost on with a volume already above 150 is not covered.
- Engine.MpvObject.GetMpvVersion: states only the empty cases. The returned text is the string node when the read yields one.
- `url.toLocalFile()` in `openFileUrl`: the local path is the input.
