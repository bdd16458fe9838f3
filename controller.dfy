/** The application-level controller (src/playercontroller.cpp): window
    state flags, the file to open at start-up, opening a file into the
    player and the recent-files list, and the bitrate text of the
    statistics overlay. Its `formatTime` is `Clock.FormatTime`. */
module Controller {
  import opened Base
  import Engine
  import RecentFiles

  /** Notifications, in emission order. `RequestOpenFile` asks the user
      interface to show a file dialog. */
  datatype ControllerSignal =
    | FullscreenChanged | LibraryVisibleChanged | InitialFileChanged
    | FileOpened(path: string) | RequestOpenFile

  /** `formatBitrate`: nothing for a rate that is not positive, else the
      rate in Mbps with one decimal, in kbps, or in bps. A NaN rate fails
      every comparison and is shown in bps. */
  function FormatBitrate(bps: Float): (r: Rendered)
    ensures r == Plain("") <==> bps.Num? && bps.val <= 0.0
    ensures bps.Num? && bps.val > 0.0 ==> r.Fixed? && r.value.Num?
    ensures bps.Num? && bps.val > 0.0 ==>
      && (r.unit == "Mbps" <==> bps.val >= 1000000.0)
      && (r.unit == "kbps" <==> 1000.0 <= bps.val < 1000000.0)
      && (r.unit == "bps" <==> bps.val < 1000.0)
    ensures bps.Num? && bps.val > 0.0 ==>
      r.value.val * (if r.unit == "Mbps" then 1000000.0 else if r.unit == "kbps" then 1000.0 else 1.0) == bps.val
    ensures bps.NaN? ==> r == Fixed(NaN, 0, "bps")
  {
    if bps.Num? && bps.val <= 0.0 then Plain("")
    else if bps.Num? && bps.val >= 1000000.0 then Fixed(Num(bps.val / 1000000.0), 1, "Mbps")
    else if bps.Num? && bps.val >= 1000.0 then Fixed(Num(bps.val / 1000.0), 0, "kbps")
    else Fixed(bps, 0, "bps")
  }

  class PlayerController {
    /** The recent-files list (`RecentFilesModel::instance()`). */
    const recent: RecentFiles.RecentFilesModel
    /** The player, once `setMpvObject` has attached one. */
    var mpv: Engine.MpvObject?
    var isFullscreen: bool
    var libraryVisible: bool
    var initialFile: string
    var signals: seq<ControllerSignal>

    constructor(recentFiles: RecentFiles.RecentFilesModel)
      ensures recent == recentFiles && mpv == null
      ensures !isFullscreen && !libraryVisible && initialFile == "" && signals == []
    {
      recent := recentFiles;
      mpv := null;
      isFullscreen := false;
      libraryVisible := false;
      initialFile := "";
      signals := [];
    }

    method SetMpvObject(player: Engine.MpvObject?)
      modifies this
      ensures mpv == player
      ensures isFullscreen == old(isFullscreen) && libraryVisible == old(libraryVisible)
      ensures initialFile == old(initialFile) && signals == old(signals)
    {
      mpv := player;
    }

    method SetFullscreen(fullscreen: bool)
      modifies this
      ensures isFullscreen == fullscreen
      ensures mpv == old(mpv) && libraryVisible == old(libraryVisible) && initialFile == old(initialFile)
      ensures signals == old(signals) + (if old(isFullscreen) != fullscreen then [FullscreenChanged] else [])
    {
      if isFullscreen != fullscreen {
        isFullscreen := fullscreen;
        signals := signals + [FullscreenChanged];
      }
    }

    method SetLibraryVisible(visible: bool)
      modifies this
      ensures libraryVisible == visible
      ensures mpv == old(mpv) && isFullscreen == old(isFullscreen) && initialFile == old(initialFile)
      ensures signals == old(signals) + (if old(libraryVisible) != visible then [LibraryVisibleChanged] else [])
    {
      if libraryVisible != visible {
        libraryVisible := visible;
        signals := signals + [LibraryVisibleChanged];
      }
    }

    /** Stores the file and notifies, even when it is the same file. */
    method SetInitialFile(file: string)
      modifies this
      ensures initialFile == file
      ensures mpv == old(mpv) && isFullscreen == old(isFullscreen) && libraryVisible == old(libraryVisible)
      ensures signals == old(signals) + [InitialFileChanged]
    {
      initialFile := file;
      signals := signals + [InitialFileChanged];
    }

    /** `openFile`: asks the user interface for a file dialog. */
    method OpenFile()
      modifies this
      ensures mpv == old(mpv) && isFullscreen == old(isFullscreen)
      ensures libraryVisible == old(libraryVisible) && initialFile == old(initialFile)
      ensures signals == old(signals) + [RequestOpenFile]
    {
      signals := signals + [RequestOpenFile];
    }

    /** `openFileUrl`, given the URL's local path, what the file system
        reports about it and the current time. An empty path does nothing;
        otherwise the file goes to the recent list, the attached player is
        asked to load it, and the opening is announced. */
    method OpenFileUrl(path: string, info: RecentFiles.FileInfo, now: int)
      modifies this, recent, mpv
      ensures mpv == old(mpv) && isFullscreen == old(isFullscreen)
      ensures libraryVisible == old(libraryVisible) && initialFile == old(initialFile)
      ensures path == "" ==>
        && signals == old(signals)
        && recent.files == old(recent.files) && recent.signals == old(recent.signals)
        && (mpv != null ==> mpv.requests == old(mpv.requests))
      ensures path != "" ==>
        && signals == old(signals) + [FileOpened(path)]
        && recent.files == (if info.present && info.isFile
                            then RecentFiles.Added(old(recent.files), RecentFiles.RecentFile(path, info.fileName, info.size, now))
                            else old(recent.files))
        && recent.signals == old(recent.signals)
             + (if info.present && info.isFile then [RecentFiles.Saved, RecentFiles.CountChanged] else [])
        && (mpv != null ==>
              mpv.requests == old(mpv.requests)
                + (if mpv.handle then [Engine.CommandAsync([Engine.Text("loadfile"), Engine.Text(path)])] else []))
      ensures mpv != null ==> mpv.Model() == old(mpv.Model())
    {
      if path == "" {
        return;
      }
      recent.AddFile(path, info, now);
      if mpv != null {
        mpv.LoadFile(path);
      }
      signals := signals + [FileOpened(path)];
    }
  }
}
