/** The chapter list model (src/chaptermodel.cpp): one row per chapter the
    backend reports, numbered by position, and the current chapter whose
    row reads as current. */
module Chapters {
  import opened Base
  import opened Text
  import opened Variant
  import Clock

  /** One row (`ChapterModel::Chapter`). */
  datatype Chapter = Chapter(index: int, title: string, time: Float)

  datatype ChapterRole = IndexRole | TitleRole | TimeRole | TimeStringRole | CurrentRole | OtherRole

  /** Notifications: model resets, the count, a row whose "current" flag
      changed (`dataChanged` for `CurrentRole`), and the current chapter. */
  datatype ChapterSignal = ModelReset | CountChanged | CurrentChanged(row: int) | CurrentChapterChanged

  /** The row built from the entry at position `index`. */
  function ChapterOf(v: Value, index: int): (c: Chapter)
    ensures c.index == index
  {
    var fields := ToMap(v);
    Chapter(index, ToString(Get(fields, "title", Invalid)), ToDouble(Get(fields, "time", Invalid)))
  }

  /** The rows `updateChapters` builds: one per entry, numbered from 0. */
  function ChaptersOf(list: seq<Value>): (r: seq<Chapter>)
    ensures |r| == |list|
    ensures forall i :: 0 <= i < |list| ==> r[i] == ChapterOf(list[i], i)
  {
    seq(|list|, i requires 0 <= i < |list| => ChapterOf(list[i], i))
  }

  /** Every row's index is its position. */
  predicate Numbered(chapters: seq<Chapter>) {
    forall i :: 0 <= i < |chapters| ==> chapters[i].index == i
  }

  /** The title shown for a row: its own, else "Chapter <index + 1>". */
  function DisplayTitle(c: Chapter): (r: string)
    ensures r != ""
    ensures c.title != "" ==> r == c.title
  {
    if c.title == "" then "Chapter " + IntToDec(c.index + 1) else c.title
  }

  /** The rows a change of the current chapter from `from` to `to` notifies:
      each of the two that lies within the `count` rows. */
  function CurrentNotices(count: int, from: int, to: int): seq<ChapterSignal> {
    (if 0 <= from < count then [CurrentChanged(from)] else [])
    + (if 0 <= to < count then [CurrentChanged(to)] else [])
  }

  /** With rows numbered by position, the rows notified when the current
      chapter moves are exactly the rows whose "current" flag changes. */
  lemma NoticesMatchChanges(chapters: seq<Chapter>, from: int, to: int)
    requires Numbered(chapters)
    requires from != to
    ensures forall row :: 0 <= row < |chapters| ==>
      (CurrentChanged(row) in CurrentNotices(|chapters|, from, to) <==>
       (chapters[row].index == from) != (chapters[row].index == to))
    ensures forall s :: s in CurrentNotices(|chapters|, from, to) ==>
      s.CurrentChanged? && 0 <= s.row < |chapters|
  {
  }

  class ChapterModel {
    var chapters: seq<Chapter>
    var currentChapter: int
    var signals: seq<ChapterSignal>

    /** An empty list and no current chapter (-1). */
    constructor()
      ensures chapters == [] && currentChapter == -1 && signals == []
    {
      chapters := [];
      currentChapter := -1;
      signals := [];
    }

    /** `data`: the role's value of a row, and nothing for a row out of range. */
    function Data(row: int, role: ChapterRole): (r: Value)
      reads this
      ensures !(0 <= row < |chapters|) ==> r == Invalid
      ensures 0 <= row < |chapters| && role == TitleRole ==> r == VString(DisplayTitle(chapters[row]))
      ensures 0 <= row < |chapters| && role == CurrentRole ==> r == VBool(chapters[row].index == currentChapter)
      ensures 0 <= row < |chapters| && role == TimeStringRole ==> r == VString(Clock.FormatTime(chapters[row].time))
      ensures 0 <= row < |chapters| && role == IndexRole ==> r == VInt(chapters[row].index)
      ensures 0 <= row < |chapters| && role == TimeRole ==> r == VDouble(chapters[row].time)
      ensures role == OtherRole ==> r == Invalid
    {
      if !(0 <= row < |chapters|) then Invalid
      else
        var c := chapters[row];
        match role
        case IndexRole => VInt(c.index)
        case TitleRole => VString(DisplayTitle(c))
        case TimeRole => VDouble(c.time)
        case TimeStringRole => VString(Clock.FormatTime(c.time))
        case CurrentRole => VBool(c.index == currentChapter)
        case OtherRole => Invalid
    }

    /** `setCurrentChapter`: records a different chapter and notifies the
        old and new rows that exist; the same chapter again does nothing. */
    method SetCurrentChapter(chapter: int)
      modifies this
      ensures currentChapter == chapter && chapters == old(chapters)
      ensures old(currentChapter) == chapter ==> signals == old(signals)
      ensures old(currentChapter) != chapter ==>
        signals == old(signals) + CurrentNotices(|chapters|, old(currentChapter), chapter) + [CurrentChapterChanged]
    {
      if currentChapter != chapter {
        var oldChapter := currentChapter;
        currentChapter := chapter;
        if oldChapter >= 0 && oldChapter < |chapters| {
          signals := signals + [CurrentChanged(oldChapter)];
        }
        if chapter >= 0 && chapter < |chapters| {
          signals := signals + [CurrentChanged(chapter)];
        }
        signals := signals + [CurrentChapterChanged];
      }
    }

    /** `updateChapters`: replaces the rows, numbering them by position; the
        current chapter is kept. */
    method UpdateChapters(list: seq<Value>)
      modifies this
      ensures chapters == ChaptersOf(list) && Numbered(chapters)
      ensures currentChapter == old(currentChapter)
      ensures signals == old(signals) + [ModelReset, CountChanged]
    {
      chapters := [];
      var idx := 0;
      while idx < |list|
        invariant 0 <= idx <= |list|
        invariant chapters == ChaptersOf(list[..idx])
        invariant currentChapter == old(currentChapter) && signals == old(signals)
      {
        var fields := ToMap(list[idx]);
        var chapter := Chapter(idx, ToString(Get(fields, "title", Invalid)), ToDouble(Get(fields, "time", Invalid)));
        assert ChaptersOf(list[..idx + 1]) == ChaptersOf(list[..idx]) + [chapter];
        chapters := chapters + [chapter];
        idx := idx + 1;
      }
      assert list[..|list|] == list;
      signals := signals + [ModelReset, CountChanged];
    }
  }

  /** After `updateChapters` the rows reading as current are exactly the
      row at the current chapter's position, if that lies in range. */
  lemma CurrentRowIsCurrentChapter(m: ChapterModel, row: int)
    requires Numbered(m.chapters) && 0 <= row < |m.chapters|
    ensures m.Data(row, CurrentRole) == VBool(row == m.currentChapter)
  {
  }
}
