// The database record (`DatabaseRecord`, TrackDatabase.cs:1340-1451): the header fields and
// the list of data sets, which its methods replace as the source's methods change them.
// The data sets are held by value: the duplicate's sharing the playlist list object of the
// playlist data set is the invariant that the two hold the same playlists. The loops of
// `ReassignTrackIds` over the track and playlist record objects are the methods at the top;
// the track database (`TrackDatabases`) runs them on its library and playlist list, and
// `DatabaseRecord.ReassignTrackIds` computes the same effect on the values.
module DatabaseRecords {
  import opened Wrappers
  import opened Binary
  import opened Lists
  import opened Tracks
  import opened TrackRecords
  import opened TrackLists
  import opened PlaylistItems
  import opened Playlists
  import opened PlaylistRecords
  import opened PlaylistLists
  import opened Databases
  import opened Reassignment

  /** `ReassignTrackIds`' first loop: each track of the list, in order, takes the running
    * id from 1000, and `oldids` maps its old id to it. */
  method RenumberTracks(list: TrackListRecord) returns (oldids: map<Int32, Int32>)
    requires list.Valid() && Renumberable(|list.tracks|)
    modifies list.tracks
    ensures list.Valid() && list.Values() == Renumbered(old(list.Values()))
    ensures oldids == IdMap(TrackIds(old(list.Values())))
  {
    ghost var before := list.Values();
    ghost var ids := TrackIds(before);
    var tracks := list.tracks;
    oldids := map[];
    var id: int := TrackIdStart;
    var i := 0;
    while i < |tracks|
      invariant 0 <= i <= |tracks| && id == TrackIdStart + i
      invariant oldids == IdMap(ids[..i])
      invariant forall k :: 0 <= k < |tracks| ==>
        tracks[k].Value() == if k < i then WithId(before[k], TrackIdStart + k) else before[k]
    {
      var track := tracks[i];
      IdMapStep(ids, i);
      oldids := oldids[track.fields.basic.id := id];
      SetId(track, id);
      id := id + 1;
      i := i + 1;
    }
    assert ids[..i] == ids;
    RenumberedIs(before, list.Values());
  }

  /** Tracks that each took 1000 plus their place as id are the renumbered tracks. */
  lemma RenumberedIs(before: seq<TrackValue>, after: seq<TrackValue>)
    requires Renumberable(|before|) && |after| == |before|
    requires forall k :: 0 <= k < |before| ==> after[k] == WithId(before[k], TrackIdStart + k)
    ensures after == Renumbered(before)
  {
  }

  /** `track.Id = id`: only the record id changes. */
  method SetId(track: TrackRecord, id: Int32)
    modifies track`fields
    ensures track.Value() == WithId(old(track.Value()), id)
  {
    track.fields := track.fields.(basic := track.fields.basic.(id := id));
  }

  /** One more track seen by the first loop: its old id maps to its new one. */
  lemma IdMapStep(ids: seq<Int32>, i: nat)
    requires i < |ids| && Renumberable(|ids|)
    ensures IdMap(ids[..i + 1]) == IdMap(ids[..i])[ids[i] := TrackIdStart + i]
  {
    assert ids[..i + 1][..i] == ids[..i];
  }

  /** `ReassignTrackIds`' inner loop: an entry whose track id is in `oldids` takes the new
    * id; any other is skipped. */
  method RemapEntries(list: PlaylistRecord, oldids: map<Int32, Int32>)
    requires list.Valid()
    modifies list`items
    ensures list.Valid() && list.items == RemapItems(old(list.items), oldids)
  {
    var items := list.items;
    var remapped := [];
    var i := 0;
    while i < |items|
      invariant 0 <= i <= |items| && |remapped| == i
      invariant forall j :: 0 <= j < i ==> remapped[j] == RemapItem(items[j], oldids)
    {
      var item := items[i];
      if item.trackId in oldids {
        item := item.(trackId := oldids[item.trackId]);
      }
      remapped := remapped + [item];
      i := i + 1;
    }
    list.items := remapped;
  }

  /** `ReassignTrackIds`' second loop: the entries of every playlist of the list. */
  method RemapLists(list: PlaylistListRecord, oldids: map<Int32, Int32>)
    requires list.Valid()
    modifies list.playlists
    ensures list.Valid() && list.Values() == RemapPlaylists(old(list.Values()), oldids)
  {
    ghost var before := list.Values();
    var lists := list.playlists;
    var i := 0;
    while i < |lists|
      invariant 0 <= i <= |lists|
      invariant forall k :: 0 <= k < |lists| ==>
        lists[k].Valid() && lists[k].Value() == if k < i then RemapPlaylist(before[k], oldids) else before[k]
    {
      RemapEntries(lists[i], oldids);
      i := i + 1;
    }
  }

  /** The data set's Save leaves it as `saved` and writes `bytes`. */
  predicate DataSetSavesAs(v: DataSetValue, saved: DataSetValue, bytes: Bytes, version: int, isBE: bool)
  {
    saved == PreparedSet(v) && DataSetSaveable(saved, version, isBE) && bytes == EncodeDataSet(saved, version, isBE)
  }

  predicate DataSetsSaveAs(ds: seq<DataSetValue>, saved: seq<DataSetValue>, parts: seq<Bytes>, version: int, isBE: bool)
  {
    |saved| == |ds| && |parts| == |ds|
    && forall k {:trigger DataSetSavesAs(ds[k], saved[k], parts[k], version, isBE)} ::
         0 <= k < |ds| ==> DataSetSavesAs(ds[k], saved[k], parts[k], version, isBE)
  }

  /** What each data set's Save leaves and writes: the prepared data sets and their bytes. */
  lemma DataSetPartsOf(ds: seq<DataSetValue>, version: int, isBE: bool)
    requires DataSetsSaveable(PreparedSets(ds), version, isBE)
    ensures var saved := PreparedSets(ds);
      DataSetsSaveAs(ds, saved, DataSetParts(saved, version, isBE), version, isBE)
  {
    var saved := PreparedSets(ds);
    var parts := DataSetParts(saved, version, isBE);
    forall k | 0 <= k < |ds|
      ensures DataSetSavesAs(ds[k], saved[k], parts[k], version, isBE)
    {
      assert DataSetSaveable(saved[k], version, isBE);
    }
  }

  /** `DatabaseRecord.Save`'s loop: each data set, in order, saves itself, and its bytes
    * follow those of the data sets before it. */
  method SaveEach(ds: seq<DataSetValue>, version: int, isBE: bool, ghost saved: seq<DataSetValue>, ghost parts: seq<Bytes>)
    returns (after: seq<DataSetValue>, children: Bytes)
    requires DataSetsSaveAs(ds, saved, parts, version, isBE)
    ensures after == saved && children == Concat(parts)
  {
    after := ds;
    children := [];
    var i := 0;
    while i < |ds|
      invariant 0 <= i <= |ds| && |after| == |ds|
      invariant forall k :: 0 <= k < i ==> after[k] == saved[k]
      invariant forall k :: i <= k < |ds| ==> after[k] == ds[k]
      invariant children == Concat(parts[..i])
    {
      var v, bytes := SaveDataSet(ds, i, version, isBE, saved, parts);
      PrefixSnoc(parts, i);
      ConcatAppend(parts[..i], parts[i]);
      after := after[i := v];
      children := children + bytes;
      i := i + 1;
    }
    assert parts[..i] == parts;
  }

  /** One data set's Save: its playlists prepared, then its bytes. */
  method SaveDataSet(ds: seq<DataSetValue>, i: nat, version: int, isBE: bool,
                     ghost saved: seq<DataSetValue>, ghost parts: seq<Bytes>)
    returns (v: DataSetValue, bytes: Bytes)
    requires i < |ds| && DataSetsSaveAs(ds, saved, parts, version, isBE)
    ensures v == saved[i] && bytes == parts[i]
  {
    assert DataSetSavesAs(ds[i], saved[i], parts[i], version, isBE);
    v := PreparedSet(ds[i]);
    bytes := EncodeDataSet(v, version, isBE);
  }

  class DatabaseRecord {
    const isBE: bool
    var unknownOne: Int32
    var unknownTwo: Int32
    var version: Int32
    var id: Int64
    var datasets: seq<DataSetValue>

    /** The duplicate, if there is one, holds the playlists of the playlist data set. */
    predicate Valid()
      reads this
    {
      Shared(datasets)
    }

    /** The database's contents. */
    function Value(): DatabaseValue
      reads this
    {
      DatabaseValue(unknownOne, version, id, unknownTwo, datasets)
    }

    /** `new DatabaseRecord (isbe)`: version 19, the unknown fields 1 and 2, and three data
      * sets: an empty library, the playlists, and a duplicate holding the playlists' list. */
    constructor(isBE: bool)
      ensures this.isBE == isBE && Valid()
      ensures Value() == DatabaseValue(1, MaxSupportedVersion, 0, 2, NewDataSets())
    {
      this.isBE := isBE;
      unknownOne, unknownTwo, version, id := 1, 2, MaxSupportedVersion, 0;
      datasets := NewDataSets();
    }

    /** `this [index]`: the place of the first data set of the index, or -1 for null. */
    method Lookup(index: Int32) returns (k: int)
      ensures k == FirstOf(datasets, index)
    {
      var i := 0;
      while i < |datasets|
        invariant 0 <= i <= |datasets|
        invariant forall j :: 0 <= j < i ==> datasets[j].Index() != index
      {
        if datasets[i].Index() == index {
          return i;
        }
        i := i + 1;
      }
      return -1;
    }

    /** `Read`: the header, HeaderOne - 12 body bytes, then what the body says. */
    method Read(s: Bytes) returns (r: Read<Bytes>)
      modifies this
      ensures var p := ReadDatabase(s, isBE);
        (r.Success? <==> p.Success?)
        && (p.Success? ==> Valid() && Value() == p.value.value && r.value == p.value.rest)
        && (p.Failure? ==> r.error == p.error)
    {
      var h := ReadHeader(s, Some(DatabaseTag), isBE);
      if h.Failure? {
        return Failure(h.error);
      }
      var b := ReadBytes(h.value.rest, h.value.value.headerOne - 12);
      if b.Failure? {
        return Failure(b.error);
      }
      r := ReadBody(b.value.value, b.value.rest);
    }

    /** The rest of `Read`: the fields from the body, a failure for a version above 19,
      * then the data sets, each read in turn, and the duplicate made to share the playlists.
      * The fields are set before the version is checked. */
    method ReadBody(body: Bytes, s: Bytes) returns (r: Read<Bytes>)
      modifies this
      ensures var p := ReadDatabaseBody(body, s, isBE);
        (r.Success? <==> p.Success?)
        && (p.Success? ==> Valid() && Value() == p.value.value && r.value == p.value.rest)
        && (p.Failure? ==> r.error == p.error)
    {
      if |body| < 24 {
        return Failure(IndexOutOfRange);
      }
      unknownOne := ToInt32(body, 0, isBE);
      version := ToInt32(body, 4, isBE);
      var count := ToInt32(body, 8, isBE);
      id := ToInt64(body, 12, isBE);
      unknownTwo := ToInt32(body, 20, isBE);
      if version > MaxSupportedVersion {
        return Failure(UnsupportedVersion(version));
      }
      datasets := [];
      var sets := ReadList(DataSetReader(version, isBE), s, count);
      if sets.Failure? {
        return Failure(sets.error);
      }
      datasets := sets.value.value;
      var shared := Share();
      if !shared {
        return Failure(MissingDataSet(PlaylistSet));
      }
      return Success(sets.value.rest);
    }

    /** The end of `Read`: the first duplicate, if there is one, takes the list of the first
      * playlist data set; without a playlist data set the source dereferences null. */
    method Share() returns (ok: bool)
      modifies this`datasets
      ensures ok <==> ShareDuplicate(old(datasets)).Success?
      ensures ok ==> datasets == ShareDuplicate(old(datasets)).value && Valid()
    {
      var d := Lookup(DuplicateSet);
      if d < 0 {
        return true;
      }
      var p := Lookup(PlaylistSet);
      if p < 0 {
        return false;
      }
      datasets := datasets[d := PlaylistDataSet(true, datasets[p].playlists)];
      return true;
    }

    /** `ReassignTrackIds` on the values: the library's tracks take the ids from 1000 in
      * order (what the loop `RenumberTracks` does to the record objects), then the entries of
      * the playlist data set's playlists follow their tracks (what `RemapLists` does); the
      * duplicate holds the same list, so its entries follow too. Without a library, or without a playlist data set once the library is
      * renumbered, the source dereferences null. */
    method ReassignTrackIds() returns (ok: bool)
      requires CanRenumber(datasets)
      modifies this`datasets
      ensures ok <==> Reassignable(old(datasets))
      ensures datasets == ReassignedSets(old(datasets))
    {
      var l := Lookup(LibrarySet);
      if l < 0 {
        return false;
      }
      var ds := datasets;
      var tracks := ds[l].tracks;
      var oldids := IdMap(TrackIds(tracks));
      ds := ds[l := TrackDataSet(Renumbered(tracks))];
      var p := Lookup(PlaylistSet);
      if p < 0 {
        ReassignedSetsSteps(datasets);
        datasets := ds;
        return false;
      }
      var d := Lookup(DuplicateSet);
      ReassignedSetsSteps(datasets);
      ds := ds[p := ds[p].(playlists := RemapPlaylists(ds[p].playlists, oldids))];
      if d >= 0 {
        ds := ds[d := ds[d].(playlists := RemapPlaylists(ds[d].playlists, oldids))];
      }
      datasets := ds;
      return true;
    }

    /** `Save`: the ids are reassigned, then the data sets and the header are written; a
      * playlist data set's Save prepares its playlists. */
    method Save() returns (r: Option<Bytes>)
      requires CanRenumber(datasets) && DatabaseSaveable(SavedDatabase(Value()), isBE)
      modifies this`datasets
      ensures r.Some? <==> Reassignable(old(datasets))
      ensures r.Some? ==> Value() == SavedDatabase(old(Value())) && r.value == EncodeDatabase(Value(), isBE)
      ensures r.None? ==> datasets == ReassignedSets(old(datasets))
    {
      ghost var target := SavedDatabase(Value());
      var ok := ReassignTrackIds();
      if !ok {
        return None;
      }
      assert Value().(datasets := PreparedSets(datasets)) == target;
      var bytes := WriteDatabase();
      return Some(bytes);
    }

    /** `Save` once the ids are reassigned: every data set saves itself in turn, then the
      * header, with the lengths and the fields, goes before the data sets' bytes. */
    method WriteDatabase() returns (bytes: Bytes)
      requires DatabaseSaveable(Value().(datasets := PreparedSets(datasets)), isBE)
      modifies this`datasets
      ensures datasets == PreparedSets(old(datasets))
      ensures bytes == EncodeDatabase(Value(), isBE)
    {
      var children := SaveDataSets();
      bytes := DatabaseHeader(Value(), |children|, isBE) + children;
    }

    /** `Save`'s loop over the data sets. */
    method SaveDataSets() returns (children: Bytes)
      requires DataSetsSaveable(PreparedSets(datasets), version, isBE)
      modifies this`datasets
      ensures datasets == PreparedSets(old(datasets))
      ensures children == Concat(DataSetParts(datasets, version, isBE))
    {
      ghost var saved := PreparedSets(datasets);
      DataSetPartsOf(datasets, version, isBE);
      var after;
      after, children := SaveEach(datasets, version, isBE, saved, DataSetParts(saved, version, isBE));
      datasets := after;
    }
  }
}
