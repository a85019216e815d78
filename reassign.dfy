// `DatabaseRecord.ReassignTrackIds`, as values: before a save the library's tracks are
// numbered from 1000 in list order, and every playlist entry that names a track by its
// old id is made to name it by its new one.
module Reassignment {
  import opened Binary
  import opened Lists
  import opened Tracks
  import opened TrackLists
  import opened PlaylistItems
  import opened Playlists
  import opened PlaylistLists
  import opened Databases

  const TrackIdStart: Int32 := 1000

  /** The running id stays an int: at most 2^31 - 1000 tracks. */
  predicate Renumberable(n: int)
  {
    0 <= n <= 0x8000_0000 - TrackIdStart
  }

  /** `oldids` once the loop has seen the tracks with these ids: every old id is a key,
    * and maps to the new id of the last track that had it. */
  function IdMap(ids: seq<Int32>): (m: map<Int32, Int32>)
    requires Renumberable(|ids|)
    ensures forall x :: x in m <==> x in ids
  {
    if ids == [] then map[]
    else
      var n := |ids| - 1;
      assert ids == ids[..n] + [ids[n]];
      IdMap(ids[..n])[ids[n] := TrackIdStart + n]
  }

  /** The new id of an old one is 1000 plus the place of the last track that had it. */
  lemma {:induction false} IdMapLast(ids: seq<Int32>, x: Int32)
    requires Renumberable(|ids|) && x in ids
    ensures var j := IdMap(ids)[x] - TrackIdStart;
      0 <= j < |ids| && ids[j] == x && forall i :: j < i < |ids| ==> ids[i] != x
  {
    var n := |ids| - 1;
    var front := ids[..n];
    assert IdMap(ids) == IdMap(front)[ids[n] := TrackIdStart + n];
    if ids[n] != x {
      assert ids == front + [ids[n]];
      assert x in front;
      IdMapLast(front, x);
      var j := IdMap(front)[x] - TrackIdStart;
      assert IdMap(ids)[x] == IdMap(front)[x];
      assert front[j] == ids[j];
      assert forall i :: j < i < n ==> front[i] == ids[i];
    }
  }

  /** With no id repeated, the track at place k gets 1000 + k. */
  lemma IdMapOfDistinct(ids: seq<Int32>, k: int)
    requires Renumberable(|ids|) && Distinct(ids) && 0 <= k < |ids|
    ensures IdMap(ids)[ids[k]] == TrackIdStart + k
  {
    IdMapLast(ids, ids[k]);
  }

  /** The track with its id replaced and nothing else changed. */
  function WithId(v: TrackValue, id: Int32): TrackValue
  {
    v.(fields := v.fields.(basic := v.fields.basic.(id := id)))
  }

  /** The library after the first loop: the tracks in order, numbered from 1000, and
    * otherwise as they were. */
  function Renumbered(vs: seq<TrackValue>): (r: seq<TrackValue>)
    requires Renumberable(|vs|)
    ensures |r| == |vs|
    ensures forall k :: 0 <= k < |vs| ==> r[k].fields.basic.id == TrackIdStart + k
    ensures forall k :: 0 <= k < |vs| ==> WithId(r[k], vs[k].fields.basic.id) == vs[k]
  {
    seq(|vs|, k requires 0 <= k < |vs| => WithId(vs[k], TrackIdStart + k))
  }

  /** The new ids are all different, whatever the old ones were. */
  lemma RenumberedDistinct(vs: seq<TrackValue>)
    requires Renumberable(|vs|)
    ensures Distinct(TrackIds(Renumbered(vs)))
  {
  }

  /** One entry in the second loop: an entry whose track id is a key of the map takes
    * the new id; any other is left as it was. */
  function RemapItem(item: PlaylistItem, m: map<Int32, Int32>): (r: PlaylistItem)
    ensures item.trackId in m ==> r == item.(trackId := m[item.trackId])
    ensures item.trackId !in m ==> r == item
  {
    if item.trackId in m then item.(trackId := m[item.trackId]) else item
  }

  function RemapItems(items: seq<PlaylistItem>, m: map<Int32, Int32>): (r: seq<PlaylistItem>)
    ensures |r| == |items| && forall i :: 0 <= i < |items| ==> r[i] == RemapItem(items[i], m)
  {
    seq(|items|, i requires 0 <= i < |items| => RemapItem(items[i], m))
  }

  /** A playlist after the second loop: only its entries' track ids change. */
  function RemapPlaylist(p: PlaylistValue, m: map<Int32, Int32>): (r: PlaylistValue)
    ensures r.items == RemapItems(p.items, m) && r.(items := p.items) == p
  {
    p.(items := RemapItems(p.items, m))
  }

  function RemapPlaylists(ps: seq<PlaylistValue>, m: map<Int32, Int32>): (r: seq<PlaylistValue>)
    ensures |r| == |ps| && forall k :: 0 <= k < |ps| ==> r[k] == RemapPlaylist(ps[k], m)
  {
    seq(|ps|, k requires 0 <= k < |ps| => RemapPlaylist(ps[k], m))
  }

  /** What `ReassignTrackIds` promises: track k is numbered 1000 + k; an entry that named
    * a track by an old id now names, by its new id, the last track that had that id; an
    * entry whose id no track had is left as it was; and nothing else changes. */
  lemma ReassignedIds(vs: seq<TrackValue>, ps: seq<PlaylistValue>, k: int, i: int)
    requires Renumberable(|vs|) && 0 <= k < |ps| && 0 <= i < |ps[k].items|
    ensures var item := ps[k].items[i];
      var r := RemapPlaylists(ps, IdMap(TrackIds(vs)))[k].items[i];
      r.(trackId := item.trackId) == item
      && (item.trackId in TrackIds(vs) ==>
            var j := r.trackId - TrackIdStart;
            0 <= j < |vs| && vs[j].fields.basic.id == item.trackId
            && Renumbered(vs)[j].fields.basic.id == r.trackId
            && forall j' :: j < j' < |vs| ==> vs[j'].fields.basic.id != item.trackId)
      && (item.trackId !in TrackIds(vs) ==> r == item)
  {
    var item := ps[k].items[i];
    if item.trackId in TrackIds(vs) {
      IdMapLast(TrackIds(vs), item.trackId);
    }
  }

  /** With no id repeated in the library, every entry that named a track names the same
    * track after the ids are reassigned, and an entry that named none still names none
    * of the old ids. */
  lemma ReferencesKept(vs: seq<TrackValue>, item: PlaylistItem)
    requires Renumberable(|vs|) && Distinct(TrackIds(vs))
    ensures var before := FindId(TrackIds(vs), item.trackId);
      var after := RemapItem(item, IdMap(TrackIds(vs)));
      before >= 0 ==> FindId(TrackIds(Renumbered(vs)), after.trackId) == before
  {
    var ids := TrackIds(vs);
    var before := FindId(ids, item.trackId);
    if before >= 0 {
      IdMapOfDistinct(ids, before);
      var news := TrackIds(Renumbered(vs));
      assert news[before] == TrackIdStart + before;
    }
  }

  // The data sets.

  /** `this [index]`: the place of the first data set of the index, or -1. */
  function FirstOf(ds: seq<DataSetValue>, index: Int32): (k: int)
    ensures -1 <= k < |ds|
    ensures k >= 0 ==> ds[k].Index() == index && forall j :: 0 <= j < k ==> ds[j].Index() != index
    ensures k < 0 <==> forall j :: 0 <= j < |ds| ==> ds[j].Index() != index
  {
    FindId(Indices(ds), index)
  }

  /** The library, if there is one, is small enough for the running id. */
  predicate CanRenumber(ds: seq<DataSetValue>)
  {
    var l := FirstOf(ds, LibrarySet);
    l >= 0 ==> Renumberable(|ds[l].tracks|)
  }

  /** `ReassignTrackIds` finds the library and the playlists; without either it
    * dereferences null. */
  predicate Reassignable(ds: seq<DataSetValue>)
  {
    FirstOf(ds, LibrarySet) >= 0 && FirstOf(ds, PlaylistSet) >= 0
  }

  /** The data sets once `ReassignTrackIds` has run, or has stopped: without a library
    * nothing changes; the library's tracks are renumbered; then, when there is a playlist
    * data set, the entries of its playlists are remapped, and so are those of the
    * duplicate, which holds the same list. */
  function ReassignedSets(ds: seq<DataSetValue>): (r: seq<DataSetValue>)
    requires CanRenumber(ds)
    ensures |r| == |ds| && Indices(r) == Indices(ds)
  {
    var l := FirstOf(ds, LibrarySet);
    if l < 0 then ds
    else
      var p := FirstOf(ds, PlaylistSet);
      var d := FirstOf(ds, DuplicateSet);
      var m := IdMap(TrackIds(ds[l].tracks));
      var r := seq(|ds|, k requires 0 <= k < |ds| =>
        if k == l then TrackDataSet(Renumbered(ds[l].tracks))
        else if p >= 0 && (k == p || k == d) then ds[k].(playlists := RemapPlaylists(ds[k].playlists, m))
        else ds[k]);
      assert forall k :: 0 <= k < |ds| ==> r[k].Index() == ds[k].Index();
      r
  }

  /** Without a library nothing changes; the library's tracks are numbered from 1000 in
    * order; the playlists, and their duplicate, have their entries remapped only when
    * there is a playlist data set; every other data set stays as it was. */
  lemma ReassignedSetsAre(ds: seq<DataSetValue>, k: int)
    requires CanRenumber(ds) && 0 <= k < |ds|
    ensures var l, p, d := FirstOf(ds, LibrarySet), FirstOf(ds, PlaylistSet), FirstOf(ds, DuplicateSet);
      var r := ReassignedSets(ds);
      (l < 0 ==> r == ds)
      && (l >= 0 ==> r[l] == TrackDataSet(Renumbered(ds[l].tracks))
                     && (p < 0 ==> r == ds[l := r[l]])
                     && (p >= 0 && (k == p || k == d) ==>
                           r[k] == ds[k].(playlists := RemapPlaylists(ds[k].playlists, IdMap(TrackIds(ds[l].tracks))))))
      && (k != l && k != p && k != d ==> r[k] == ds[k])
  {
    var l, p := FirstOf(ds, LibrarySet), FirstOf(ds, PlaylistSet);
    if l >= 0 && p < 0 {
      var r := ReassignedSets(ds);
      assert forall j :: 0 <= j < |ds| ==> r[j] == ds[l := r[l]][j];
    }
  }

  /** The reassigned data sets as `ReassignTrackIds` reaches them: the library's tracks
    * renumbered first; then, when there is a playlist data set, its entries remapped, and
    * those of the duplicate. */
  lemma ReassignedSetsSteps(ds: seq<DataSetValue>)
    requires CanRenumber(ds) && FirstOf(ds, LibrarySet) >= 0
    ensures var l, p, d := FirstOf(ds, LibrarySet), FirstOf(ds, PlaylistSet), FirstOf(ds, DuplicateSet);
      var m := IdMap(TrackIds(ds[l].tracks));
      var renumbered := ds[l := TrackDataSet(Renumbered(ds[l].tracks))];
      var remapped := if p < 0 then renumbered
                      else renumbered[p := ds[p].(playlists := RemapPlaylists(ds[p].playlists, m))];
      ReassignedSets(ds) == if p < 0 || d < 0 then remapped
                            else remapped[d := ds[d].(playlists := RemapPlaylists(ds[d].playlists, m))]
  {
    var l, p, d := FirstOf(ds, LibrarySet), FirstOf(ds, PlaylistSet), FirstOf(ds, DuplicateSet);
    var r := ReassignedSets(ds);
    forall k | 0 <= k < |ds|
      ensures r[k] == if k == l then TrackDataSet(Renumbered(ds[l].tracks))
                      else if p >= 0 && (k == p || k == d) then ds[k].(playlists := RemapPlaylists(ds[k].playlists, IdMap(TrackIds(ds[l].tracks))))
                      else ds[k]
    {
    }
  }

  /** The duplicate keeps holding the playlists' list. */
  lemma ReassignedShared(ds: seq<DataSetValue>)
    requires CanRenumber(ds) && Shared(ds)
    ensures Shared(ReassignedSets(ds))
  {
    var l, p, d := FirstOf(ds, LibrarySet), FirstOf(ds, PlaylistSet), FirstOf(ds, DuplicateSet);
    var r := ReassignedSets(ds);
    if l >= 0 && d >= 0 {
      assert r[d].playlists == RemapPlaylists(ds[d].playlists, IdMap(TrackIds(ds[l].tracks)));
      assert r[p].playlists == RemapPlaylists(ds[p].playlists, IdMap(TrackIds(ds[l].tracks)));
    }
  }

  // What the data sets' Save does to them.

  /** A playlist as `PlaylistRecord.Save` leaves it. */
  function PrepareOne(v: PlaylistValue): PlaylistValue
  {
    if Preparable(v) then PrepareForSave(v) else v
  }

  /** Preparing a playlist twice is preparing it once. */
  lemma PrepareOneTwice(v: PlaylistValue)
    ensures PrepareOne(PrepareOne(v)) == PrepareOne(v)
  {
    if Preparable(v) {
      var r := PrepareForSave(v);
      RenumberPositions(v.items);
      assert Preparable(r);
      var rr := PrepareForSave(r);
      assert forall i :: 0 <= i < |r.items| ==> rr.items[i] == r.items[i];
      if v.isLibrary {
        WithoutLibraryIndicesIdempotent(v.otherDetails);
      }
    }
  }

  /** A data set as its Save leaves it: a playlist list prepares every playlist. */
  function PreparedSet(v: DataSetValue): (r: DataSetValue)
    ensures r.Index() == v.Index()
  {
    match v
    case TrackDataSet(_) => v
    case PlaylistDataSet(dup, ps) => PlaylistDataSet(dup, seq(|ps|, k requires 0 <= k < |ps| => PrepareOne(ps[k])))
  }

  lemma PreparedSetTwice(v: DataSetValue)
    ensures PreparedSet(PreparedSet(v)) == PreparedSet(v)
  {
    if v.PlaylistDataSet? {
      forall k | 0 <= k < |v.playlists| ensures PrepareOne(PrepareOne(v.playlists[k])) == PrepareOne(v.playlists[k]) {
        PrepareOneTwice(v.playlists[k]);
      }
    }
  }

  function PreparedSets(ds: seq<DataSetValue>): (r: seq<DataSetValue>)
    ensures |r| == |ds| && forall k :: 0 <= k < |ds| ==> r[k] == PreparedSet(ds[k])
  {
    seq(|ds|, k requires 0 <= k < |ds| => PreparedSet(ds[k]))
  }

  /** `DatabaseRecord.Save` before it writes: the ids reassigned, then every data set
    * prepared by its own Save. */
  function SavedDatabase(v: DatabaseValue): DatabaseValue
    requires CanRenumber(v.datasets)
  {
    v.(datasets := PreparedSets(ReassignedSets(v.datasets)))
  }

  /** Every playlist of a playlist data set has its entries valid and counted by an int,
    * as its Save needs. */
  predicate SetPreparable(v: DataSetValue)
  {
    v.PlaylistDataSet? ==> forall k :: 0 <= k < |v.playlists| ==> Preparable(v.playlists[k])
  }

  /** With every playlist preparable, a prepared playlist data set holds what the list's
    * Save leaves. */
  lemma PreparedSetIsPrepareAll(v: DataSetValue)
    requires v.PlaylistDataSet? && SetPreparable(v)
    ensures PreparedSet(v) == PlaylistDataSet(v.duplicate, PrepareAll(v.playlists))
  {
  }
}
