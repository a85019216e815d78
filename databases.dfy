// The database record (`mhbd`) and its data sets (`mhsd`) as values: their bytes, how
// they are read back, and what `ReassignTrackIds` does to the ids of the library's tracks
// and to the playlist entries that name them.
module Databases {
  import opened Wrappers
  import opened Binary
  import opened Tracks
  import opened TrackLists
  import opened PlaylistItems
  import opened Playlists
  import opened PlaylistLists

  const DataSetTag: string := "mhsd"
  const DatabaseTag: string := "mhbd"

  /** `DataSetIndex`: the library's tracks, the playlists, and their duplicate. */
  const LibrarySet: Int32 := 1
  const PlaylistSet: Int32 := 2
  const DuplicateSet: Int32 := 3

  const MaxSupportedVersion: Int32 := 19

  /** HeaderOne of a data set: 16 bytes of header and index, then 8 of padding. */
  const DataSetHeaderOne: Int32 := 16 + 8

  /** HeaderOne of the database: 36 bytes of header and fields, then 8 of padding. */
  const DatabaseHeaderOne: Int32 := 36 + 8

  // Data sets.

  /** What a data set holds: the library's track list (index 1), or a playlist list,
    * either the playlists (index 2) or their duplicate (index 3). */
  datatype DataSetValue =
    | TrackDataSet(tracks: seq<TrackValue>)
    | PlaylistDataSet(duplicate: bool, playlists: seq<PlaylistValue>)
  {
    function Index(): Int32
    {
      if TrackDataSet? then LibrarySet else if duplicate then DuplicateSet else PlaylistSet
    }
  }

  /** The list of the data set can be saved on its own. */
  predicate ListSaves(v: DataSetValue, version: int, isBE: bool)
  {
    match v
    case TrackDataSet(ts) => TracksSaveable(ts, isBE)
    case PlaylistDataSet(_, ps) => ListSaveable(ps, version, isBE)
  }

  /** The bytes the list's own Save writes. */
  function ListBytes(v: DataSetValue, version: int, isBE: bool): Bytes
    requires ListSaves(v, version, isBE)
  {
    match v
    case TrackDataSet(ts) => EncodeTrackList(ts, version, isBE)
    case PlaylistDataSet(_, ps) => EncodePlaylistList(ps, version, isBE)
  }

  /** The list saves, and HeaderTwo, the data set's length, is still an int. */
  predicate DataSetSaveable(v: DataSetValue, version: int, isBE: bool)
  {
    ListSaves(v, version, isBE) && |ListBytes(v, version, isBE)| < 0x8000_0000 - DataSetHeaderOne
  }

  /** The header, the index and the padding of a data set whose list is childLength bytes. */
  function DataSetHeader(index: Int32, childLength: nat, isBE: bool): (r: Bytes)
    requires childLength < 0x8000_0000 - DataSetHeaderOne
    ensures |r| == DataSetHeaderOne as int
  {
    WriteHeader(DataSetTag, DataSetHeaderOne, DataSetHeaderOne + childLength, isBE)
    + (WriteInt32(index, isBE) + Zeros(8))
  }

  /** `DataSetRecord.Save`: the list is saved first, then the header with the lengths. */
  function EncodeDataSet(v: DataSetValue, version: int, isBE: bool): Bytes
    requires DataSetSaveable(v, version, isBE)
  {
    var list := ListBytes(v, version, isBE);
    DataSetHeader(v.Index(), |list|, isBE) + list
  }

  /** HeaderOne is 24, HeaderTwo is the length of the whole data set, and the index
    * follows them. */
  lemma DataSetFraming(index: Int32, list: Bytes, isBE: bool)
    requires |list| < 0x8000_0000 - DataSetHeaderOne
    ensures var r := DataSetHeader(index, |list|, isBE) + list;
      |r| >= 16 && ToInt32(r, 4, isBE) == DataSetHeaderOne && ToInt32(r, 8, isBE) == |r|
      && ToInt32(r, 12, isBE) == index
  {
    var tail := WriteInt32(index, isBE) + Zeros(8);
    var head := WriteHeader(DataSetTag, DataSetHeaderOne, DataSetHeaderOne + |list|, isBE);
    Regroup(head, WriteInt32(index, isBE), Zeros(8), list);
    Int32OfPrefix(head, tail + list, 4, isBE);
    Int32OfPrefix(head, tail + list, 8, isBE);
    Int32OfSuffix(head, tail + list, 12, isBE);
    Int32OfPrefix(WriteInt32(index, isBE), Zeros(8) + list, 0, isBE);
  }

  /** `DataSetRecord.Read` once the index is known: index 1 reads a track list, 2 and 3
    * a playlist list, and any other index fails. */
  function ReadDataSetList(index: Int32, s: Bytes, version: int, isBE: bool): (r: Read<Parsed<DataSetValue>>)
    ensures r.Success? ==> r.value.value.Index() == index
    ensures index != LibrarySet && index != PlaylistSet && index != DuplicateSet ==> r == Failure(UnknownDataSet(index))
  {
    if index == LibrarySet then
      var l :- ReadTrackList(s, version, isBE);
      Success(Parsed(TrackDataSet(l.value), l.rest))
    else if index == PlaylistSet || index == DuplicateSet then
      var l :- ReadPlaylistList(s, version, isBE);
      Success(Parsed(PlaylistDataSet(index == DuplicateSet, l.value), l.rest))
    else
      Failure(UnknownDataSet(index))
  }

  /** `DataSetRecord.Read`: the header, HeaderOne - 12 body bytes whose first int is the
    * index, then the list the index calls for. */
  function ReadDataSet(s: Bytes, version: int, isBE: bool): Read<Parsed<DataSetValue>>
  {
    var h :- ReadHeader(s, Some(DataSetTag), isBE);
    var b :- ReadBytes(h.rest, h.value.headerOne - 12);
    if |b.value| < 4 then Failure(IndexOutOfRange)
    else ReadDataSetList(ToInt32(b.value, 0, isBE), b.rest, version, isBE)
  }

  /** A data set's header and index read back, leaving the list to read. */
  lemma ReadDataSetHeader(index: Int32, childLength: nat, tail: Bytes, version: int, isBE: bool)
    requires childLength < 0x8000_0000 - DataSetHeaderOne
    ensures ReadDataSet(DataSetHeader(index, childLength, isBE) + tail, version, isBE)
         == ReadDataSetList(index, tail, version, isBE)
  {
    var body := WriteInt32(index, isBE) + Zeros(8);
    var head := WriteHeader(DataSetTag, DataSetHeaderOne, DataSetHeaderOne + childLength, isBE);
    assert DataSetHeader(index, childLength, isBE) + tail == head + (body + tail);
    HeaderRoundTrip(DataSetTag, DataSetHeaderOne, DataSetHeaderOne + childLength, isBE, body + tail);
    assert (body + tail)[..12] == body;
    assert (body + tail)[12..] == tail;
    Int32OfPrefix(WriteInt32(index, isBE), Zeros(8), 0, isBE);
  }

  /** The data sets that read back as they were saved. */
  predicate DataSetRoundTrips(v: DataSetValue, version: int, isBE: bool)
  {
    DataSetSaveable(v, version, isBE)
    && match v
       case TrackDataSet(ts) => forall k :: 0 <= k < |ts| ==> TrackRoundTrips(ts[k], version, isBE)
       case PlaylistDataSet(_, ps) => LibraryFirst(ps) && forall k :: 0 <= k < |ps| ==> RoundTrips(ps[k], version, isBE)
  }

  /** Reading a saved data set gives it back. */
  lemma DataSetRoundTrip(v: DataSetValue, version: int, isBE: bool, rest: Bytes)
    requires DataSetRoundTrips(v, version, isBE)
    ensures ReadDataSet(EncodeDataSet(v, version, isBE) + rest, version, isBE) == Success(Parsed(v, rest))
  {
    var list := ListBytes(v, version, isBE);
    Assoc(DataSetHeader(v.Index(), |list|, isBE), list, rest);
    ReadDataSetHeader(v.Index(), |list|, list + rest, version, isBE);
    ListRoundTrip(v, version, isBE, rest);
  }

  lemma ListRoundTrip(v: DataSetValue, version: int, isBE: bool, rest: Bytes)
    requires DataSetRoundTrips(v, version, isBE)
    ensures ReadDataSetList(v.Index(), ListBytes(v, version, isBE) + rest, version, isBE) == Success(Parsed(v, rest))
  {
    match v
    case TrackDataSet(ts) =>
      TrackSetRoundTrip(ts, version, isBE, rest);
    case PlaylistDataSet(duplicate, ps) =>
      PlaylistSetRoundTrip(duplicate, ps, version, isBE, rest);
  }

  lemma TrackSetRoundTrip(ts: seq<TrackValue>, version: int, isBE: bool, rest: Bytes)
    requires TracksSaveable(ts, isBE) && forall k :: 0 <= k < |ts| ==> TrackRoundTrips(ts[k], version, isBE)
    ensures ReadDataSetList(LibrarySet, EncodeTrackList(ts, version, isBE) + rest, version, isBE)
         == Success(Parsed(TrackDataSet(ts), rest))
  {
    TrackListRoundTrip(ts, version, isBE, rest);
  }

  lemma PlaylistSetRoundTrip(duplicate: bool, ps: seq<PlaylistValue>, version: int, isBE: bool, rest: Bytes)
    requires ListSaveable(ps, version, isBE) && LibraryFirst(ps)
    requires forall k :: 0 <= k < |ps| ==> RoundTrips(ps[k], version, isBE)
    ensures var index := if duplicate then DuplicateSet else PlaylistSet;
      ReadDataSetList(index, EncodePlaylistList(ps, version, isBE) + rest, version, isBE)
      == Success(Parsed(PlaylistDataSet(duplicate, ps), rest))
  {
    PlaylistListRoundTrip(ps, version, isBE, rest);
  }

  /** A data set whose index is none of the three fails to read. */
  lemma UnknownIndexFails(index: Int32, childLength: nat, tail: Bytes, version: int, isBE: bool)
    requires childLength < 0x8000_0000 - DataSetHeaderOne
    requires index != LibrarySet && index != PlaylistSet && index != DuplicateSet
    ensures ReadDataSet(DataSetHeader(index, childLength, isBE) + tail, version, isBE) == Failure(UnknownDataSet(index))
  {
    ReadDataSetHeader(index, childLength, tail, version, isBE);
  }

  // `this [index]` and the duplicate's list.

  function Indices(ds: seq<DataSetValue>): (r: seq<Int32>)
    ensures |r| == |ds| && forall k :: 0 <= k < |ds| ==> r[k] == ds[k].Index()
  {
    seq(|ds|, k requires 0 <= k < |ds| => ds[k].Index())
  }

  /** The duplicate, when there is one, holds the same playlists as the first playlist
    * data set. */
  predicate Shared(ds: seq<DataSetValue>)
  {
    var d := FindId(Indices(ds), DuplicateSet);
    var p := FindId(Indices(ds), PlaylistSet);
    d >= 0 ==> p >= 0 && ds[d].playlists == ds[p].playlists
  }

  /** The end of `DatabaseRecord.Read`: the first duplicate takes the list of the first
    * playlist data set; without one the source dereferences null. */
  function ShareDuplicate(ds: seq<DataSetValue>): (r: Read<seq<DataSetValue>>)
    ensures r.Success? ==> Shared(r.value) && Indices(r.value) == Indices(ds)
    ensures r.Failure? <==> FindId(Indices(ds), DuplicateSet) >= 0 && FindId(Indices(ds), PlaylistSet) < 0
    ensures Shared(ds) ==> r == Success(ds)
  {
    var d := FindId(Indices(ds), DuplicateSet);
    var p := FindId(Indices(ds), PlaylistSet);
    if d < 0 then Success(ds)
    else if p < 0 then Failure(MissingDataSet(PlaylistSet))
    else
      var r := ds[d := PlaylistDataSet(true, ds[p].playlists)];
      assert Indices(r) == Indices(ds);
      assert Shared(ds) ==> r == ds by {
        if Shared(ds) {
          assert ds[d].Index() == DuplicateSet;
          assert r[d] == ds[d];
          assert forall k :: 0 <= k < |ds| ==> r[k] == ds[k];
        }
      }
      Success(r)
  }

  /** The data sets of a new database: an empty library, a playlist data set holding only
    * the library playlist, and a duplicate that shares it. */
  function NewDataSets(): (r: seq<DataSetValue>)
    ensures Indices(r) == [LibrarySet, PlaylistSet, DuplicateSet] && Shared(r)
    ensures r[0].tracks == [] && r[1].playlists == r[2].playlists == [NewLibrary()]
  {
    var r := [TrackDataSet([]), PlaylistDataSet(false, [NewLibrary()]), PlaylistDataSet(true, [NewLibrary()])];
    assert Indices(r) == [LibrarySet, PlaylistSet, DuplicateSet];
    r
  }

  // The database.

  /** What the database record holds. */
  datatype DatabaseValue = DatabaseValue(unknownOne: Int32, version: Int32, id: Int64, unknownTwo: Int32,
                                         datasets: seq<DataSetValue>)

  predicate DataSetsSaveable(ds: seq<DataSetValue>, version: int, isBE: bool)
  {
    |ds| < 0x8000_0000 && forall k {:trigger DataSetSaveable(ds[k], version, isBE)} :: 0 <= k < |ds| ==> DataSetSaveable(ds[k], version, isBE)
  }

  function DataSetParts(ds: seq<DataSetValue>, version: int, isBE: bool): (r: seq<Bytes>)
    requires DataSetsSaveable(ds, version, isBE)
    ensures |r| == |ds|
  {
    seq(|ds|, k requires 0 <= k < |ds| && DataSetSaveable(ds[k], version, isBE) => EncodeDataSet(ds[k], version, isBE))
  }

  /** Every data set saves, and HeaderTwo, the database's length, is still an int. */
  predicate DatabaseSaveable(v: DatabaseValue, isBE: bool)
  {
    DataSetsSaveable(v.datasets, v.version, isBE)
    && |Concat(DataSetParts(v.datasets, v.version, isBE))| < 0x8000_0000 - DatabaseHeaderOne
  }

  /** The fields after the 12 header bytes: unknownOne, Version, the number of data sets,
    * Id, unknownTwo, then the padding. */
  function DatabaseBody(v: DatabaseValue, isBE: bool): (r: Bytes)
    requires |v.datasets| < 0x8000_0000
    ensures |r| == DatabaseHeaderOne as int - 12
  {
    WriteInt32(v.unknownOne, isBE) + (WriteInt32(v.version, isBE) + (WriteInt32(|v.datasets|, isBE)
    + (WriteInt64(v.id, isBE) + (WriteInt32(v.unknownTwo, isBE) + Zeros(8)))))
  }

  function DatabaseHeader(v: DatabaseValue, childLength: nat, isBE: bool): (r: Bytes)
    requires |v.datasets| < 0x8000_0000 && childLength < 0x8000_0000 - DatabaseHeaderOne
    ensures |r| == DatabaseHeaderOne as int
  {
    WriteHeader(DatabaseTag, DatabaseHeaderOne, DatabaseHeaderOne + childLength, isBE) + DatabaseBody(v, isBE)
  }

  /** `DatabaseRecord.Save` once the ids are reassigned: every data set, then the header
    * with the lengths. */
  function EncodeDatabase(v: DatabaseValue, isBE: bool): Bytes
    requires DatabaseSaveable(v, isBE)
  {
    var children := Concat(DataSetParts(v.datasets, v.version, isBE));
    DatabaseHeader(v, |children|, isBE) + children
  }

  /** The body's fields read back where `DatabaseRecord.Read` looks for them. */
  lemma DatabaseBodyFields(v: DatabaseValue, isBE: bool)
    requires |v.datasets| < 0x8000_0000
    ensures var b := DatabaseBody(v, isBE);
      ToInt32(b, 0, isBE) == v.unknownOne && ToInt32(b, 4, isBE) == v.version
      && ToInt32(b, 8, isBE) == |v.datasets| && ToInt64(b, 12, isBE) == v.id
      && ToInt32(b, 20, isBE) == v.unknownTwo
  {
    var tail := WriteInt32(v.unknownTwo, isBE) + Zeros(8);
    var fromId := WriteInt64(v.id, isBE) + tail;
    var fromCount := WriteInt32(|v.datasets|, isBE) + fromId;
    var fromVersion := WriteInt32(v.version, isBE) + fromCount;
    Int32OfPrefix(WriteInt32(v.unknownOne, isBE), fromVersion, 0, isBE);
    Int32OfSuffix(WriteInt32(v.unknownOne, isBE), fromVersion, 4, isBE);
    Int32OfPrefix(WriteInt32(v.version, isBE), fromCount, 0, isBE);
    Int32OfSuffix(WriteInt32(v.unknownOne, isBE), fromVersion, 8, isBE);
    Int32OfSuffix(WriteInt32(v.version, isBE), fromCount, 4, isBE);
    Int32OfPrefix(WriteInt32(|v.datasets|, isBE), fromId, 0, isBE);
  }

  function DataSetReader(version: int, isBE: bool): Bytes -> Read<Parsed<DataSetValue>>
  {
    s => ReadDataSet(s, version, isBE)
  }

  /** `DatabaseRecord.Read`: the header, HeaderOne - 12 body bytes with the fields, then
    * what the body says. */
  function ReadDatabase(s: Bytes, isBE: bool): (r: Read<Parsed<DatabaseValue>>)
    ensures r.Success? ==> r.value.value.version <= MaxSupportedVersion && Shared(r.value.value.datasets)
  {
    var h :- ReadHeader(s, Some(DatabaseTag), isBE);
    var b :- ReadBytes(h.rest, h.value.headerOne - 12);
    ReadDatabaseBody(b.value, b.rest, isBE)
  }

  /** The rest of `DatabaseRecord.Read`: the fields from the body, a failure for a version
    * above 19, then as many data sets as the body says, read with that version, and the
    * duplicate made to share the playlists. */
  function ReadDatabaseBody(body: Bytes, s: Bytes, isBE: bool): (r: Read<Parsed<DatabaseValue>>)
    ensures r.Success? ==> r.value.value.version <= MaxSupportedVersion && Shared(r.value.value.datasets)
  {
    if |body| < 24 then Failure(IndexOutOfRange)
    else
      var version := ToInt32(body, 4, isBE);
      if version > MaxSupportedVersion then Failure(UnsupportedVersion(version))
      else
        var ds :- ReadMany(DataSetReader(version, isBE), s, ToInt32(body, 8, isBE));
        var shared :- ShareDuplicate(ds.value);
        Success(Parsed(DatabaseValue(ToInt32(body, 0, isBE), version, ToInt64(body, 12, isBE),
                                     ToInt32(body, 20, isBE), shared), ds.rest))
  }

  /** The header of a database read back, leaving its body and what follows. */
  lemma ReadDatabaseHeader(v: DatabaseValue, childLength: nat, tail: Bytes, isBE: bool)
    requires |v.datasets| < 0x8000_0000 && childLength < 0x8000_0000 - DatabaseHeaderOne
    ensures ReadDatabase(DatabaseHeader(v, childLength, isBE) + tail, isBE)
         == ReadDatabaseBody(DatabaseBody(v, isBE), tail, isBE)
  {
    var head := WriteHeader(DatabaseTag, DatabaseHeaderOne, DatabaseHeaderOne + childLength, isBE);
    Assoc(head, DatabaseBody(v, isBE), tail);
    ReadDatabaseFramed(DatabaseHeaderOne + childLength, DatabaseBody(v, isBE), tail, isBE);
  }

  lemma ReadDatabaseFramed(headerTwo: Int32, body: Bytes, tail: Bytes, isBE: bool)
    requires |body| == DatabaseHeaderOne as int - 12
    ensures ReadDatabase(WriteHeader(DatabaseTag, DatabaseHeaderOne, headerTwo, isBE) + (body + tail), isBE)
         == ReadDatabaseBody(body, tail, isBE)
  {
    HeaderRoundTrip(DatabaseTag, DatabaseHeaderOne, headerTwo, isBE, body + tail);
    assert (body + tail)[..32] == body;
    assert (body + tail)[32..] == tail;
  }

  /** The body's fields decide the rest: the version check, then the data sets. */
  lemma ReadDatabaseFields(v: DatabaseValue, tail: Bytes, isBE: bool)
    requires |v.datasets| < 0x8000_0000
    ensures var r := ReadDatabaseBody(DatabaseBody(v, isBE), tail, isBE);
      if v.version > MaxSupportedVersion then r == Failure(UnsupportedVersion(v.version))
      else
        var ds := ReadMany(DataSetReader(v.version, isBE), tail, |v.datasets|);
        r == if ds.Failure? then Failure(ds.error)
             else var shared := ShareDuplicate(ds.value.value);
               if shared.Failure? then Failure(shared.error)
               else Success(Parsed(v.(datasets := shared.value), ds.value.rest))
  {
    DatabaseBodyFields(v, isBE);
  }

  /** A database of a version above 19 is refused, whatever it holds. */
  lemma NewerVersionRefused(v: DatabaseValue, isBE: bool, rest: Bytes)
    requires DatabaseSaveable(v, isBE) && v.version > MaxSupportedVersion
    ensures ReadDatabase(EncodeDatabase(v, isBE) + rest, isBE) == Failure(UnsupportedVersion(v.version))
  {
    var children := Concat(DataSetParts(v.datasets, v.version, isBE));
    Assoc(DatabaseHeader(v, |children|, isBE), children, rest);
    ReadDatabaseHeader(v, |children|, children + rest, isBE);
    ReadDatabaseFields(v, children + rest, isBE);
  }

  /** The databases that read back as they were saved: a supported version, the duplicate
    * sharing the playlists, and every data set reading back. */
  predicate DatabaseRoundTrips(v: DatabaseValue, isBE: bool)
  {
    DatabaseSaveable(v, isBE) && v.version <= MaxSupportedVersion && Shared(v.datasets)
    && forall k :: 0 <= k < |v.datasets| ==> DataSetRoundTrips(v.datasets[k], v.version, isBE)
  }

  /** Reading a saved database gives it back. */
  lemma DatabaseRoundTrip(v: DatabaseValue, isBE: bool, rest: Bytes)
    requires DatabaseRoundTrips(v, isBE)
    ensures ReadDatabase(EncodeDatabase(v, isBE) + rest, isBE) == Success(Parsed(v, rest))
  {
    var parts := DataSetParts(v.datasets, v.version, isBE);
    var children := Concat(parts);
    Assoc(DatabaseHeader(v, |children|, isBE), children, rest);
    ReadDatabaseHeader(v, |children|, children + rest, isBE);
    ReadDatabaseFields(v, children + rest, isBE);
    DataSetsReadBack(v.datasets, parts, v.version, isBE);
    ReadManyRoundTrip(DataSetReader(v.version, isBE), v.datasets, parts, rest);
    assert v.(datasets := v.datasets) == v;
  }

  lemma DataSetsReadBack(ds: seq<DataSetValue>, parts: seq<Bytes>, version: int, isBE: bool)
    requires DataSetsSaveable(ds, version, isBE) && parts == DataSetParts(ds, version, isBE)
    requires forall k :: 0 <= k < |ds| ==> DataSetRoundTrips(ds[k], version, isBE)
    ensures forall k, tail :: 0 <= k < |ds| ==>
      DataSetReader(version, isBE)(parts[k] + tail) == Success(Parsed(ds[k], tail))
  {
    forall k, tail | 0 <= k < |ds|
      ensures DataSetReader(version, isBE)(parts[k] + tail) == Success(Parsed(ds[k], tail))
    {
      DataSetRoundTrip(ds[k], version, isBE, tail);
    }
  }
}
