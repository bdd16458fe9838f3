/** The persistent settings store (src/settingsmanager.cpp): a key/value map
    whose getters supply defaults for unset keys and whose setters write and
    notify only when the value read back would change. */
module Settings {
  import opened Base
  import opened Variant

  const HdrModeKey := "playback/hdrMode"
  const HwdecModeKey := "playback/hwdecMode"
  const RendererModeKey := "playback/rendererMode"
  const FullscreenBehaviorKey := "ui/fullscreenBehavior"
  const VolumeKey := "playback/volume"
  const AllowVolumeBoostKey := "playback/allowVolumeBoost"
  const WindowSizeKey := "ui/windowSize"
  const WindowMaximizedKey := "ui/windowMaximized"

  datatype SettingsSignal =
    | HdrModeChanged | HwdecModeChanged | RendererModeChanged | FullscreenBehaviorChanged
    | VolumeChanged | AllowVolumeBoostChanged | WindowSizeChanged | WindowMaximizedChanged

  /** The greatest volume a setter accepts: 150 with boost allowed, else 100. */
  function MaxVolume(boost: bool): (r: int)
    ensures r == 100 || r == 150
    ensures r == 150 <==> boost
  {
    if boost then 150 else 100
  }

  class SettingsManager {
    /** The stored keys and values; what the store held at start-up is an input. */
    var store: map<string, Value>
    /** Change notifications, in emission order. */
    var signals: seq<SettingsSignal>

    constructor(stored: map<string, Value>)
      ensures store == stored && signals == []
    {
      store := stored;
      signals := [];
    }

    function HdrMode(): (r: string)
      reads this
      ensures HdrModeKey !in store ==> r == "auto"
    {
      ToString(Get(store, HdrModeKey, VString("auto")))
    }

    function HwdecMode(): (r: string)
      reads this
      ensures HwdecModeKey !in store ==> r == "auto"
    {
      ToString(Get(store, HwdecModeKey, VString("auto")))
    }

    function RendererMode(): (r: string)
      reads this
      ensures RendererModeKey !in store ==> r == "auto"
    {
      ToString(Get(store, RendererModeKey, VString("auto")))
    }

    function FullscreenBehavior(): (r: string)
      reads this
      ensures FullscreenBehaviorKey !in store ==> r == "no_ui"
    {
      ToString(Get(store, FullscreenBehaviorKey, VString("no_ui")))
    }

    function Volume(): (r: int)
      reads this
      ensures IsInt32(r)
      ensures VolumeKey !in store ==> r == 100
    {
      ToInt(Get(store, VolumeKey, VInt(100)))
    }

    function AllowVolumeBoost(): (r: bool)
      reads this
      ensures AllowVolumeBoostKey !in store ==> !r
    {
      ToBool(Get(store, AllowVolumeBoostKey, VBool(false)))
    }

    function WindowSize(): (r: (int, int))
      reads this
      ensures WindowSizeKey !in store ==> r == (1280, 720)
    {
      ToSize(Get(store, WindowSizeKey, VSize(1280, 720)))
    }

    function WindowMaximized(): (r: bool)
      reads this
      ensures WindowMaximizedKey !in store ==> !r
    {
      ToBool(Get(store, WindowMaximizedKey, VBool(false)))
    }

    /** Without boost the stored volume does not exceed 100. */
    predicate VolumeWithinLimit()
      reads this
    {
      Volume() <= MaxVolume(AllowVolumeBoost())
    }

    method SetHdrMode(mode: string)
      modifies this
      ensures HdrMode() == mode
      ensures old(HdrMode()) != mode ==>
        store == old(store)[HdrModeKey := VString(mode)] && signals == old(signals) + [HdrModeChanged]
      ensures old(HdrMode()) == mode ==> store == old(store) && signals == old(signals)
    {
      if HdrMode() != mode {
        store := store[HdrModeKey := VString(mode)];
        signals := signals + [HdrModeChanged];
      }
    }

    method SetHwdecMode(mode: string)
      modifies this
      ensures HwdecMode() == mode
      ensures old(HwdecMode()) != mode ==>
        store == old(store)[HwdecModeKey := VString(mode)] && signals == old(signals) + [HwdecModeChanged]
      ensures old(HwdecMode()) == mode ==> store == old(store) && signals == old(signals)
    {
      if HwdecMode() != mode {
        store := store[HwdecModeKey := VString(mode)];
        signals := signals + [HwdecModeChanged];
      }
    }

    method SetRendererMode(mode: string)
      modifies this
      ensures RendererMode() == mode
      ensures old(RendererMode()) != mode ==>
        store == old(store)[RendererModeKey := VString(mode)] && signals == old(signals) + [RendererModeChanged]
      ensures old(RendererMode()) == mode ==> store == old(store) && signals == old(signals)
    {
      if RendererMode() != mode {
        store := store[RendererModeKey := VString(mode)];
        signals := signals + [RendererModeChanged];
      }
    }

    method SetFullscreenBehavior(behavior: string)
      modifies this
      ensures FullscreenBehavior() == behavior
      ensures old(FullscreenBehavior()) != behavior ==>
        store == old(store)[FullscreenBehaviorKey := VString(behavior)]
        && signals == old(signals) + [FullscreenBehaviorChanged]
      ensures old(FullscreenBehavior()) == behavior ==> store == old(store) && signals == old(signals)
    {
      if FullscreenBehavior() != behavior {
        store := store[FullscreenBehaviorKey := VString(behavior)];
        signals := signals + [FullscreenBehaviorChanged];
      }
    }

    /** Stores the volume clamped to [0, 100], or to [0, 150] when boost is allowed. */
    method SetVolume(vol: int)
      modifies this
      ensures Volume() == ClampInt(0, vol, MaxVolume(AllowVolumeBoost()))
      ensures AllowVolumeBoost() == old(AllowVolumeBoost())
      ensures VolumeWithinLimit()
      ensures old(Volume()) != Volume() ==>
        store == old(store)[VolumeKey := VInt(Volume())] && signals == old(signals) + [VolumeChanged]
      ensures old(Volume()) == Volume() ==> store == old(store) && signals == old(signals)
    {
      var maxVolume := if AllowVolumeBoost() then 150 else 100;
      var v := ClampInt(0, vol, maxVolume);
      if Volume() != v {
        store := store[VolumeKey := VInt(v)];
        signals := signals + [VolumeChanged];
      }
    }

    /** Records the boost flag; turning boost off (even when it already was)
        lowers a stored volume above 100 to exactly 100. */
    method SetAllowVolumeBoost(allow: bool)
      modifies this
      ensures AllowVolumeBoost() == allow
      ensures !allow || old(VolumeWithinLimit()) ==> VolumeWithinLimit()
      ensures !allow && old(Volume()) > 100 ==> Volume() == 100
      ensures allow || old(Volume()) <= 100 ==> Volume() == old(Volume())
      ensures signals ==
        old(signals)
        + (if old(AllowVolumeBoost()) != allow then [AllowVolumeBoostChanged] else [])
        + (if !allow && old(Volume()) > 100 then [VolumeChanged] else [])
      ensures forall k :: k != VolumeKey && k != AllowVolumeBoostKey ==>
        (k in store <==> k in old(store)) && (k in store ==> store[k] == old(store)[k])
    {
      if AllowVolumeBoost() != allow {
        store := store[AllowVolumeBoostKey := VBool(allow)];
        signals := signals + [AllowVolumeBoostChanged];
      }
      if !allow {
        var currentVolume := ToInt(Get(store, VolumeKey, VInt(100)));
        if currentVolume > 100 {
          store := store[VolumeKey := VInt(100)];
          signals := signals + [VolumeChanged];
        }
      }
    }

    method SetWindowSize(width: int, height: int)
      modifies this
      ensures WindowSize() == (width, height)
      ensures old(WindowSize()) != (width, height) ==>
        store == old(store)[WindowSizeKey := VSize(width, height)] && signals == old(signals) + [WindowSizeChanged]
      ensures old(WindowSize()) == (width, height) ==> store == old(store) && signals == old(signals)
    {
      if WindowSize() != (width, height) {
        store := store[WindowSizeKey := VSize(width, height)];
        signals := signals + [WindowSizeChanged];
      }
    }

    method SetWindowMaximized(maximized: bool)
      modifies this
      ensures WindowMaximized() == maximized
      ensures old(WindowMaximized()) != maximized ==>
        store == old(store)[WindowMaximizedKey := VBool(maximized)] && signals == old(signals) + [WindowMaximizedChanged]
      ensures old(WindowMaximized()) == maximized ==> store == old(store) && signals == old(signals)
    {
      if WindowMaximized() != maximized {
        store := store[WindowMaximizedKey := VBool(maximized)];
        signals := signals + [WindowMaximizedChanged];
      }
    }
  }
}
