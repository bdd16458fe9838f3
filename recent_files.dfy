/** The most-recently-used list of the library drawer
    (src/recentfilesmodel.cpp): the newest file first, no path twice when
    added through `addFile`, and at most fifty entries. The file system
    answers (existence, name, size) and the clock are inputs. */
module RecentFiles {
  import opened Base
  import opened Text

  /** `MaxRecentFiles`. */
  const MaxRecentFiles := 50

  /** What `QFileInfo` reports about a path. */
  datatype FileInfo = FileInfo(present: bool, isFile: bool, fileName: string, size: int)

  /** One entry (`RecentFilesModel::RecentFile`); `lastPlayed` is a time stamp. */
  datatype RecentFile = RecentFile(path: string, fileName: string, size: int, lastPlayed: int)

  /** Notifications: the list was written to the settings store, and the count. */
  datatype RecentSignal = Saved | CountChanged

  /** The position of the first entry with `path`, if any. */
  function FirstIndex(files: seq<RecentFile>, path: string): (r: Option<nat>)
    ensures r.Some? ==> r.value < |files| && files[r.value].path == path
    ensures r.Some? ==> forall j :: 0 <= j < r.value ==> files[j].path != path
    ensures r.None? ==> forall j :: 0 <= j < |files| ==> files[j].path != path
  {
    if files == [] then None
    else if files[0].path == path then Some(0)
    else match FirstIndex(files[1..], path)
      case None => None
      case Some(i) => Some(i + 1)
  }

  /** The list without its first entry for `path`; unchanged when there is none. */
  function Without(files: seq<RecentFile>, path: string): (r: seq<RecentFile>) {
    match FirstIndex(files, path)
    case None => files
    case Some(i) => files[..i] + files[i + 1..]
  }

  /** The list cut down to its first fifty entries. */
  function Capped(files: seq<RecentFile>): (r: seq<RecentFile>) {
    if |files| > MaxRecentFiles then files[..MaxRecentFiles] else files
  }

  /** The list after a successful `addFile`. */
  function Added(files: seq<RecentFile>, file: RecentFile): (r: seq<RecentFile>) {
    Capped([file] + Without(files, file.path))
  }

  /** No path occurs twice. */
  predicate DistinctPaths(files: seq<RecentFile>) {
    forall i, j :: 0 <= i < j < |files| ==> files[i].path != files[j].path
  }

  /** Removing the first entry for a path drops exactly one entry when the
      path is present, keeps the others in order, and leaves no entry for
      that path in a list without duplicates. */
  lemma WithoutShape(files: seq<RecentFile>, path: string)
    ensures FirstIndex(files, path).None? ==> Without(files, path) == files
    ensures FirstIndex(files, path).Some? ==> |Without(files, path)| == |files| - 1
    ensures forall f :: f in Without(files, path) ==> f in files
    ensures DistinctPaths(files) ==> DistinctPaths(Without(files, path))
    ensures DistinctPaths(files) ==> forall f :: f in Without(files, path) ==> f.path != path
  {
    match FirstIndex(files, path)
    case None =>
    case Some(i) =>
      var r := Without(files, path);
      assert forall k :: 0 <= k < |r| ==> r[k] == if k < i then files[k] else files[k + 1];
  }

  /** After adding, the new file heads a list of at most fifty entries,
      followed by the earlier entries in their old order, its own earlier
      entry removed; a list without duplicate paths stays without. */
  lemma AddedShape(files: seq<RecentFile>, file: RecentFile)
    ensures var r := Added(files, file);
      && 0 < |r| <= MaxRecentFiles && r[0] == file
      && r[1..] == Without(files, file.path)[..|r| - 1]
      && (DistinctPaths(files) ==> DistinctPaths(r))
  {
    var r := Added(files, file);
    var rest := Without(files, file.path);
    WithoutShape(files, file.path);
    assert r[1..] == rest[..|r| - 1];
    if DistinctPaths(files) {
      forall i, j | 0 <= i < j < |r|
        ensures r[i].path != r[j].path
      {
        assert r[j] == rest[j - 1];
        assert rest[j - 1] in rest;
        if i > 0 {
          assert r[i] == rest[i - 1];
        }
      }
    }
  }

  /** The `DisplayNameRole` text: the file name without the part from its
      last '.', unless that dot is the first character. */
  function DisplayName(fileName: string): (r: string)
    ensures |r| <= |fileName| && r == fileName[..|r|]
    ensures r == fileName || (|r| > 0 && fileName[|r|] == '.')
  {
    var dot := LastIndexOf(fileName, '.');
    if dot > 0 then fileName[..dot] else fileName
  }

  /** `QString::lastIndexOf(c)`: the last position holding `c`, or -1. */
  function LastIndexOf(s: string, c: char): (r: int)
    ensures -1 <= r < |s|
    ensures r >= 0 ==> s[r] == c && forall j :: r < j < |s| ==> s[j] != c
    ensures r == -1 ==> c !in s
  {
    if s == [] then -1
    else if s[|s| - 1] == c then |s| - 1
    else LastIndexOf(s[..|s| - 1], c)
  }

  /** A name with an extension is shown without it; a name without a dot,
      or whose only dot leads it (a hidden file), is shown whole. */
  lemma DisplayNameStripsExtension(stem: string, ext: string)
    requires stem != "" && '.' !in ext
    ensures DisplayName(stem + "." + ext) == stem
    ensures '.' !in stem ==> DisplayName(stem) == stem
    ensures '.' !in stem ==> DisplayName("." + stem) == "." + stem
  {
    var name := stem + "." + ext;
    var dot := LastIndexOf(name, '.');
    assert name[|stem|] == '.';
    forall j | |stem| < j < |name|
      ensures name[j] != '.'
    {
      assert name[j] == ext[j - |stem| - 1];
    }
    assert dot == |stem|;
    assert name[..dot] == stem;
    if '.' !in stem {
      var hidden := "." + stem;
      assert forall j :: 0 < j < |hidden| ==> hidden[j] == stem[j - 1];
      assert LastIndexOf(hidden, '.') == 0;
    }
  }

  /** `formatFileSize`: whole bytes below 1 KB, else KB, MB or GB with one,
      one and two decimals. */
  function FormatFileSize(bytes: int): (r: Rendered)
    ensures bytes < 1024 <==> r.Plain?
    ensures r.Fixed? ==> (r.unit == "GB" <==> bytes >= 1024 * 1024 * 1024)
  {
    if bytes < 1024 then Plain(IntToDec(bytes) + " B")
    else if bytes < 1024 * 1024 then Fixed(Num(bytes as real / 1024.0), 1, "KB")
    else if bytes < 1024 * 1024 * 1024 then Fixed(Num(bytes as real / (1024.0 * 1024.0)), 1, "MB")
    else Fixed(Num(bytes as real / (1024.0 * 1024.0 * 1024.0)), 2, "GB")
  }

  /** A size below 1 KB reads back from its text: the number, then " B". */
  lemma ByteSizeRoundTrip(bytes: int)
    requires bytes < 1024
    ensures var t := FormatFileSize(bytes).text;
      |t| > 2 && t[|t| - 2..] == " B" && IsInteger(t[..|t| - 2]) && ParseInt(t[..|t| - 2]) == bytes
  {
    var digits := IntToDec(bytes);
    var t := digits + " B";
    assert t[..|t| - 2] == digits && t[|t| - 2..] == " B";
    IntRoundTrip(bytes);
  }

  class RecentFilesModel {
    var files: seq<RecentFile>
    var signals: seq<RecentSignal>

    /** The list `load` read from the settings store, which holds at most fifty entries. */
    constructor(loaded: seq<RecentFile>)
      requires |loaded| <= MaxRecentFiles
      ensures files == loaded && signals == []
    {
      files := loaded;
      signals := [];
    }

    /** `addFile(path)` at time `now`, given what the file system reports
        about `path`: only an existing regular file is added. */
    method AddFile(path: string, info: FileInfo, now: int)
      modifies this
      ensures !info.present || !info.isFile ==> files == old(files) && signals == old(signals)
      ensures info.present && info.isFile ==>
        && files == Added(old(files), RecentFile(path, info.fileName, info.size, now))
        && signals == old(signals) + [Saved, CountChanged]
    {
      if !info.present || !info.isFile {
        return;
      }
      var _ := RemoveFirst(path);
      var file := RecentFile(path, info.fileName, info.size, now);
      files := [file] + files;
      ghost var full := files;
      while |files| > MaxRecentFiles
        invariant |files| >= MaxRecentFiles || files == full
        invariant |files| <= |full| && files == full[..|files|]
        invariant signals == old(signals)
        decreases |files|
      {
        files := files[..|files| - 1];
      }
      assert files == Capped(full);
      signals := signals + [Saved, CountChanged];
    }

    /** The search-and-remove loop shared by `addFile` and `removeFile`:
        drops the first entry for `path`, if any; says whether it found one. */
    method RemoveFirst(path: string) returns (found: bool)
      modifies this
      ensures found <==> FirstIndex(old(files), path).Some?
      ensures files == Without(old(files), path) && signals == old(signals)
    {
      var i := 0;
      while i < |files|
        invariant 0 <= i <= |files| && files == old(files) && signals == old(signals)
        invariant forall j :: 0 <= j < i ==> files[j].path != path
      {
        if files[i].path == path {
          files := files[..i] + files[i + 1..];
          return true;
        }
        i := i + 1;
      }
      return false;
    }

    /** `removeFile`: drops the first entry for `path`; without one nothing
        changes and nothing is saved. */
    method RemoveFile(path: string)
      modifies this
      ensures files == Without(old(files), path)
      ensures signals == old(signals) + (if FirstIndex(old(files), path).Some? then [Saved, CountChanged] else [])
    {
      var found := RemoveFirst(path);
      if found {
        signals := signals + [Saved, CountChanged];
      }
    }

    /** `clearAll`: empties a non-empty list; an empty one is left alone. */
    method ClearAll()
      modifies this
      ensures files == []
      ensures signals == old(signals) + (if old(files) != [] then [Saved, CountChanged] else [])
    {
      if files == [] {
        return;
      }
      files := [];
      signals := signals + [Saved, CountChanged];
    }

    /** `getPath`: the entry's path, or the empty string out of range. */
    function GetPath(index: int): (r: string)
      reads this
      ensures 0 <= index < |files| ==> r == files[index].path
      ensures !(0 <= index < |files|) ==> r == ""
    {
      if 0 <= index < |files| then files[index].path else ""
    }
  }
}
