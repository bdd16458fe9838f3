/** The list model behind the audio and subtitle track menus
    (src/trackmodel.cpp): the backend's track list filtered by one track
    type, a display title for every entry, and a selection flag per row. */
module Tracks {
  import opened Text
  import opened Variant

  /** One row (`TrackModel::Track`). */
  datatype Track = Track(
    id: int, title: string, lang: string, codec: string,
    isDefault: bool, isExternal: bool, selected: bool)

  /** The roles `data` answers; any other role number is `OtherRole`. */
  datatype TrackRole = IdRole | TitleRole | LangRole | CodecRole | DefaultRole | ExternalRole | SelectedRole | OtherRole

  /** Notifications: model resets, the count, the type, and a row whose
      selection flag changed (`dataChanged` for `SelectedRole`). */
  datatype TrackSignal = ModelReset | CountChanged | TrackTypeChanged | SelectionChanged(row: int)

  /** `map.value(key)` of the entry converted with `toMap`. */
  function Field(v: Value, key: string): Value {
    Get(ToMap(v), key, Invalid)
  }

  /** The entry's "type" equals `kind`. An entry that is not a map has the
      empty type, so it is kept by a model whose type is still empty. */
  predicate HasType(v: Value, kind: string) {
    ToString(Field(v, "type")) == kind
  }

  /** The title shown for a track: its own, else its upper-cased language,
      else "Track <id>". */
  function TitleFallback(title: string, lang: string, id: int): (r: string)
    ensures r != ""
    ensures title != "" ==> r == title
    ensures title == "" && lang != "" ==> r == Upper(lang)
    ensures title == "" && lang == "" ==> r == "Track " + IntToDec(id)
  {
    if title != "" then title
    else if lang != "" then Upper(lang)
    else "Track " + IntToDec(id)
  }

  /** The row built from one backend entry. */
  function TrackOf(v: Value): (t: Track)
    ensures t.title != ""
    ensures t.id == ToInt(Field(v, "id")) && t.lang == ToString(Field(v, "lang"))
    ensures t.selected == ToBool(Field(v, "selected"))
  {
    var id := ToInt(Field(v, "id"));
    var lang := ToString(Field(v, "lang"));
    Track(id, TitleFallback(ToString(Field(v, "title")), lang, id), lang,
          ToString(Field(v, "codec")), ToBool(Field(v, "default")),
          ToBool(Field(v, "external")), ToBool(Field(v, "selected")))
  }

  /** The rows `updateTracks` builds, entry by entry from the front. */
  function Rebuilt(list: seq<Value>, kind: string): (r: seq<Track>)
    ensures |r| <= |list|
  {
    if list == [] then []
    else
      var last := list[|list| - 1];
      Rebuilt(list[..|list| - 1], kind) + (if HasType(last, kind) then [TrackOf(last)] else [])
  }

  /** Each entry turned into a row. */
  function RowsOf(vs: seq<Value>): (r: seq<Track>)
    ensures |r| == |vs|
    ensures forall i :: 0 <= i < |vs| ==> r[i] == TrackOf(vs[i])
  {
    seq(|vs|, i requires 0 <= i < |vs| => TrackOf(vs[i]))
  }

  /** Reference filter: the entries of `list` whose type is `kind`, in order. */
  function Matching(list: seq<Value>, kind: string): (r: seq<Value>)
    ensures |r| <= |list|
  {
    if list == [] then []
    else (if HasType(list[0], kind) then [list[0]] else []) + Matching(list[1..], kind)
  }

  lemma {:induction false} MatchingAppend(a: seq<Value>, b: seq<Value>, kind: string)
    ensures Matching(a + b, kind) == Matching(a, kind) + Matching(b, kind)
  {
    if a == [] {
      assert a + b == b;
    } else {
      var head := if HasType(a[0], kind) then [a[0]] else [];
      assert (a + b)[0] == a[0] && (a + b)[1..] == a[1..] + b;
      assert Matching(a + b, kind) == head + Matching(a[1..] + b, kind);
      MatchingAppend(a[1..], b, kind);
      assert Matching(a, kind) == head + Matching(a[1..], kind);
    }
  }

  /** The rebuilt list is exactly the entries of the model's type, in input
      order, each turned into a row; nothing of the earlier list survives. */
  lemma {:induction false} RebuiltIsFilter(list: seq<Value>, kind: string)
    ensures Rebuilt(list, kind) == RowsOf(Matching(list, kind))
  {
    if list != [] {
      var init, last := list[..|list| - 1], list[|list| - 1];
      RebuiltIsFilter(init, kind);
      assert list == init + [last];
      MatchingAppend(init, [last], kind);
      var m := if HasType(last, kind) then [last] else [];
      assert Matching([last], kind) == m;
      RowsOfAppend(Matching(init, kind), m);
    }
  }

  lemma RowsOfAppend(a: seq<Value>, b: seq<Value>)
    ensures RowsOf(a + b) == RowsOf(a) + RowsOf(b)
  {
    var l, r := RowsOf(a + b), RowsOf(a) + RowsOf(b);
    assert |l| == |r|;
    forall i | 0 <= i < |l|
      ensures l[i] == r[i]
    {
      if i < |a| {
        calc {
          l[i];
          TrackOf((a + b)[i]);
          { assert (a + b)[i] == a[i]; }
          TrackOf(a[i]);
          RowsOf(a)[i];
        }
      } else {
        calc {
          l[i];
          TrackOf((a + b)[i]);
          { assert (a + b)[i] == b[i - |a|]; }
          TrackOf(b[i - |a|]);
          RowsOf(b)[i - |a|];
        }
      }
    }
  }

  /** Rows built by `updateTracks` always have a title. */
  lemma RebuiltTitles(list: seq<Value>, kind: string)
    ensures forall t :: t in Rebuilt(list, kind) ==> t.title != ""
  {
    RebuiltIsFilter(list, kind);
  }

  /** Every row with its flag recomputed as "its id is `id`"; nothing else changes. */
  function Reselected(ts: seq<Track>, id: int): (r: seq<Track>)
    ensures |r| == |ts|
    ensures forall i :: 0 <= i < |ts| ==> r[i].selected == (ts[i].id == id)
    ensures forall i :: 0 <= i < |ts| ==> r[i] == ts[i].(selected := r[i].selected)
  {
    seq(|ts|, i requires 0 <= i < |ts| => ts[i].(selected := ts[i].id == id))
  }

  /** The rows whose flag `setCurrentTrack(id)` flips, as notifications in row order. */
  function Notices(ts: seq<Track>, id: int): seq<TrackSignal> {
    if ts == [] then []
    else
      var last := |ts| - 1;
      Notices(ts[..last], id) + (if ts[last].selected != (ts[last].id == id) then [SelectionChanged(last)] else [])
  }

  /** Extending the rows by one adds that row's notice, if its flag flips. */
  lemma NoticesSnoc(ts: seq<Track>, i: int, id: int)
    requires 0 <= i < |ts|
    ensures Notices(ts[..i + 1], id)
      == Notices(ts[..i], id) + (if ts[i].selected != (ts[i].id == id) then [SelectionChanged(i)] else [])
  {
    assert ts[..i + 1][..i] == ts[..i];
  }

  /** A row is notified exactly when its selection flag changes. */
  lemma {:induction false} NoticesAreFlips(ts: seq<Track>, id: int)
    ensures forall row :: SelectionChanged(row) in Notices(ts, id) <==>
      0 <= row < |ts| && ts[row].selected != (ts[row].id == id)
  {
    if ts != [] {
      NoticesAreFlips(ts[..|ts| - 1], id);
    }
  }

  /** Selecting the same track twice changes nothing the second time and
      notifies no row. */
  lemma ReselectIdempotent(ts: seq<Track>, id: int)
    ensures Reselected(Reselected(ts, id), id) == Reselected(ts, id)
    ensures Notices(Reselected(ts, id), id) == []
  {
    var r := Reselected(ts, id);
    NoticesAreFlips(r, id);
    if Notices(r, id) != [] {
      var n := Notices(r, id);
      assert n[0] in n;
      NoticesOnlyRows(r, id);
      assert false;
    }
  }

  /** Every notification names an existing row, and the rows come in
      increasing order. */
  lemma {:induction false} NoticesOnlyRows(ts: seq<Track>, id: int)
    ensures forall s :: s in Notices(ts, id) ==> s.SelectionChanged? && 0 <= s.row < |ts|
    ensures forall i, j :: 0 <= i < j < |Notices(ts, id)| ==> Notices(ts, id)[i].row < Notices(ts, id)[j].row
  {
    if ts != [] {
      var init := ts[..|ts| - 1];
      NoticesOnlyRows(init, id);
      var n := Notices(ts, id);
      var m := Notices(init, id);
      assert forall k :: 0 <= k < |m| ==> n[k] == m[k] && m[k] in m;
    }
  }

  /** The label of a matching row: upper-cased language, else its title,
      else "Track <id>". */
  function LabelOf(t: Track, id: int): (r: string)
    ensures r != ""
    ensures t.lang != "" ==> r == Upper(t.lang)
  {
    if t.lang != "" then Upper(t.lang)
    else if t.title != "" then t.title
    else "Track " + IntToDec(id)
  }

  /** `getTrackLabel` on a list: the first row with the id decides; with
      none, "Audio" for an audio model and "Off" otherwise. */
  function Label(ts: seq<Track>, kind: string, id: int): (r: string)
    ensures r != ""
  {
    if ts == [] then (if kind == "audio" then "Audio" else "Off")
    else if ts[0].id == id then LabelOf(ts[0], id)
    else Label(ts[1..], kind, id)
  }

  /** The label comes from the first row carrying the id, or is the
      fallback when no row does. */
  lemma {:induction false} LabelFirstMatch(ts: seq<Track>, kind: string, id: int)
    ensures forall i :: 0 <= i < |ts| && ts[i].id == id && (forall j :: 0 <= j < i ==> ts[j].id != id) ==>
      Label(ts, kind, id) == LabelOf(ts[i], id)
    ensures (forall j :: 0 <= j < |ts| ==> ts[j].id != id) ==>
      Label(ts, kind, id) == (if kind == "audio" then "Audio" else "Off")
  {
    if ts != [] {
      LabelFirstMatch(ts[1..], kind, id);
      forall i | 0 <= i < |ts| && ts[i].id == id && (forall j :: 0 <= j < i ==> ts[j].id != id)
        ensures Label(ts, kind, id) == LabelOf(ts[i], id)
      {
        if i > 0 {
          assert ts[1..][i - 1] == ts[i];
          forall j | 0 <= j < i - 1
            ensures ts[1..][j].id != id
          {
            assert ts[1..][j] == ts[j + 1];
          }
        }
      }
      if forall j :: 0 <= j < |ts| ==> ts[j].id != id {
        assert ts[0].id != id;
        forall j | 0 <= j < |ts| - 1
          ensures ts[1..][j].id != id
        {
          assert ts[1..][j] == ts[j + 1];
        }
      }
    }
  }

  class TrackModel {
    var tracks: seq<Track>
    /** "audio" or "sub"; empty until set. */
    var trackType: string
    var currentTrackId: int
    var signals: seq<TrackSignal>

    constructor()
      ensures tracks == [] && trackType == "" && currentTrackId == 0 && signals == []
    {
      tracks := [];
      trackType := "";
      currentTrackId := 0;
      signals := [];
    }

    /** `data`: the role's value of a row, and nothing for a row out of range. */
    function Data(row: int, role: TrackRole): (r: Value)
      reads this
      ensures !(0 <= row < |tracks|) ==> r == Invalid
      ensures 0 <= row < |tracks| && role == SelectedRole ==> r == VBool(tracks[row].selected)
      ensures 0 <= row < |tracks| && role == TitleRole ==> r == VString(tracks[row].title)
      ensures 0 <= row < |tracks| && role == IdRole ==> r == VInt(tracks[row].id)
      ensures 0 <= row < |tracks| && role == LangRole ==> r == VString(tracks[row].lang)
      ensures 0 <= row < |tracks| && role == CodecRole ==> r == VString(tracks[row].codec)
      ensures 0 <= row < |tracks| && role == DefaultRole ==> r == VBool(tracks[row].isDefault)
      ensures 0 <= row < |tracks| && role == ExternalRole ==> r == VBool(tracks[row].isExternal)
      ensures role == OtherRole ==> r == Invalid
    {
      if !(0 <= row < |tracks|) then Invalid
      else
        var t := tracks[row];
        match role
        case IdRole => VInt(t.id)
        case TitleRole => VString(t.title)
        case LangRole => VString(t.lang)
        case CodecRole => VString(t.codec)
        case DefaultRole => VBool(t.isDefault)
        case ExternalRole => VBool(t.isExternal)
        case SelectedRole => VBool(t.selected)
        case OtherRole => Invalid
    }

    method SetTrackType(kind: string)
      modifies this
      ensures trackType == kind
      ensures tracks == old(tracks) && currentTrackId == old(currentTrackId)
      ensures signals == old(signals) + (if old(trackType) != kind then [TrackTypeChanged] else [])
    {
      if trackType != kind {
        trackType := kind;
        signals := signals + [TrackTypeChanged];
      }
    }

    /** `updateTracks`: rebuilds the rows from the entries of this model's type. */
    method UpdateTracks(list: seq<Value>)
      modifies this
      ensures tracks == Rebuilt(list, trackType)
      ensures trackType == old(trackType) && currentTrackId == old(currentTrackId)
      ensures signals == old(signals) + [ModelReset, CountChanged]
    {
      tracks := [];
      var i := 0;
      while i < |list|
        invariant 0 <= i <= |list|
        invariant tracks == Rebuilt(list[..i], trackType)
        invariant trackType == old(trackType) && currentTrackId == old(currentTrackId)
        invariant signals == old(signals)
      {
        assert list[..i + 1][..i] == list[..i];
        assert Rebuilt(list[..i + 1], trackType)
          == tracks + (if HasType(list[i], trackType) then [TrackOf(list[i])] else []);
        var fields := ToMap(list[i]);
        if ToString(Get(fields, "type", Invalid)) != trackType {
          i := i + 1;
          continue;
        }
        var id := ToInt(Get(fields, "id", Invalid));
        var title := ToString(Get(fields, "title", Invalid));
        var lang := ToString(Get(fields, "lang", Invalid));
        if title == "" {
          if lang != "" {
            title := Upper(lang);
          } else {
            title := "Track " + IntToDec(id);
          }
        }
        var track := Track(id, title, lang, ToString(Get(fields, "codec", Invalid)),
                           ToBool(Get(fields, "default", Invalid)), ToBool(Get(fields, "external", Invalid)),
                           ToBool(Get(fields, "selected", Invalid)));
        assert track == TrackOf(list[i]);
        tracks := tracks + [track];
        i := i + 1;
      }
      assert list[..|list|] == list;
      signals := signals + [ModelReset, CountChanged];
    }

    /** `setCurrentTrack`: recomputes every row's flag in place, notifying
        the rows that flip. */
    method SetCurrentTrack(trackId: int)
      modifies this
      ensures currentTrackId == trackId && trackType == old(trackType)
      ensures tracks == Reselected(old(tracks), trackId)
      ensures signals == old(signals) + Notices(old(tracks), trackId)
    {
      currentTrackId := trackId;
      ghost var ts, before := tracks, signals;
      var i := 0;
      while i < |tracks|
        invariant 0 <= i <= |tracks| == |ts|
        invariant forall j :: 0 <= j < i ==> tracks[j] == ts[j].(selected := ts[j].id == trackId)
        invariant forall j :: i <= j < |tracks| ==> tracks[j] == ts[j]
        invariant signals == before + Notices(ts[..i], trackId)
        invariant currentTrackId == trackId && trackType == old(trackType)
      {
        assert tracks[i] == ts[i];
        NoticesSnoc(ts, i, trackId);
        var shouldBeSelected := tracks[i].id == trackId;
        if tracks[i].selected != shouldBeSelected {
          tracks := tracks[i := tracks[i].(selected := shouldBeSelected)];
          signals := signals + [SelectionChanged(i)];
        }
        i := i + 1;
      }
      assert ts[..|tracks|] == ts;
      assert tracks == Reselected(ts, trackId);
    }

    /** `getTrackLabel`. */
    function TrackLabel(trackId: int): (r: string)
      reads this
      ensures r != ""
      ensures (forall j :: 0 <= j < |tracks| ==> tracks[j].id != trackId) ==>
        r == (if trackType == "audio" then "Audio" else "Off")
    {
      LabelFirstMatch(tracks, trackType, trackId);
      Label(tracks, trackType, trackId)
    }
  }
}
