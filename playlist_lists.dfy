// The playlist list (`mhlp`): the playlists one after another, the library first. Its
// HeaderTwo is the number of playlists, not a length.
module PlaylistLists {
  import opened Wrappers
  import opened Binary
  import opened Details
  import opened Playlists
  import opened PlaylistRecords
  import opened Lists

  const ListTag: string := "mhlp"

  /** HeaderOne: the 12 header bytes and 8 bytes of padding. */
  const ListHeaderOne: Int32 := 12 + 8

  // Playlist ids.

  /** The largest id and 0, as `FindNextId`'s loop keeps it: an id replaces the running
    * value only when it is strictly greater. */
  function MaxId(ids: seq<Int32>): (m: Int32)
    ensures m >= 0 && forall k :: 0 <= k < |ids| ==> ids[k] <= m
    ensures m == 0 || m in ids
  {
    if ids == [] then 0
    else
      var m := MaxId(ids[..|ids| - 1]);
      var last := ids[|ids| - 1];
      assert forall k :: 0 <= k < |ids| - 1 ==> ids[k] == ids[..|ids| - 1][k];
      if last > m then last else m
  }

  /** `FindNextId`: one more than the largest id, in 32-bit arithmetic. */
  function NextId(ids: seq<Int32>): Int32
  {
    var m := MaxId(ids);
    if m == 0x7FFF_FFFF then -0x8000_0000 else m + 1
  }

  /** The new id is positive and greater than every id in use, unless some id is already
    * the largest 32-bit value, where `id + 1` wraps round. */
  lemma NextIdIsFresh(ids: seq<Int32>)
    requires forall k :: 0 <= k < |ids| ==> ids[k] < 0x7FFF_FFFF
    ensures NextId(ids) >= 1
    ensures forall k :: 0 <= k < |ids| ==> ids[k] < NextId(ids)
  {
    var m := MaxId(ids);
    if m != 0 {
      var k :| 0 <= k < |ids| && ids[k] == m;
    }
  }

  /** With an id at the largest 32-bit value, the new id is negative and no longer above
    * the ids in use. */
  lemma NextIdWraps(ids: seq<Int32>)
    requires 0x7FFF_FFFF in ids
    ensures NextId(ids) == -0x8000_0000
  {
  }

  function Ids(vs: seq<PlaylistValue>): (ids: seq<Int32>)
    ensures |ids| == |vs| && forall k :: 0 <= k < |vs| ==> ids[k] == vs[k].id
  {
    seq(|vs|, k requires 0 <= k < |vs| => vs[k].id)
  }

  // The list's bytes.

  /** The playlists a list holds: the first is the library, the others are not. */
  predicate LibraryFirst(vs: seq<PlaylistValue>)
  {
    forall k :: 0 <= k < |vs| ==> vs[k].isLibrary == (k == 0)
  }

  predicate ListSaveable(vs: seq<PlaylistValue>, version: int, isBE: bool)
  {
    |vs| < 0x8000_0000 && forall k :: 0 <= k < |vs| ==> PlaylistSaveable(vs[k], version, isBE)
  }

  function PlaylistParts(vs: seq<PlaylistValue>, version: int, isBE: bool): (r: seq<Bytes>)
    requires ListSaveable(vs, version, isBE)
    ensures |r| == |vs|
  {
    seq(|vs|, k requires 0 <= k < |vs| && PlaylistSaveable(vs[k], version, isBE) => EncodePlaylist(vs[k], version, isBE))
  }

  /** The list's header and padding, before `count` playlists. */
  function ListHeader(count: int, isBE: bool): (r: Bytes)
    requires 0 <= count < 0x8000_0000
    ensures |r| == 20 && ToInt32(r, 4, isBE) == ListHeaderOne && ToInt32(r, 8, isBE) == count
  {
    WriteHeader(ListTag, ListHeaderOne, count, isBE) + Zeros(8)
  }

  /** `PlaylistListRecord.Save`: header, padding, then every playlist. */
  function EncodePlaylistList(vs: seq<PlaylistValue>, version: int, isBE: bool): (r: Bytes)
    requires ListSaveable(vs, version, isBE)
    ensures |r| >= 20 && ToInt32(r, 4, isBE) == ListHeaderOne && ToInt32(r, 8, isBE) == |vs|
  {
    ListHeader(|vs|, isBE) + Concat(PlaylistParts(vs, version, isBE))
  }

  /** The playlist reader for each place in the list: only the first is the library. */
  function PlaylistReaders(version: int, isBE: bool): bool -> Bytes -> Read<Parsed<PlaylistValue>>
  {
    isFirst => s => ReadPlaylist(s, isFirst, version, isBE)
  }

  /** `PlaylistListRecord.Read`: HeaderTwo playlists after a body of HeaderOne - 12 bytes;
    * the first of them is the library. */
  function ReadPlaylistList(s: Bytes, version: int, isBE: bool): (r: Read<Parsed<seq<PlaylistValue>>>)
  {
    var h :- ReadHeader(s, Some(ListTag), isBE);
    var b :- ReadBytes(h.rest, h.value.headerOne - 12);
    ReadIndexed(PlaylistReaders(version, isBE), b.rest, 0, h.value.headerTwo)
  }

  /** Only the first playlist read is the library. */
  lemma ReadPlaylistListLibraryFirst(s: Bytes, version: int, isBE: bool)
    ensures var r := ReadPlaylistList(s, version, isBE);
      r.Success? ==> LibraryFirst(r.value.value)
  {
    var h := ReadHeader(s, Some(ListTag), isBE);
    if h.Success? {
      var b := ReadBytes(h.value.rest, h.value.value.headerOne - 12);
      if b.Success? {
        var read := PlaylistReaders(version, isBE);
        var keep := (isFirst: bool, v: PlaylistValue) => v.isLibrary == isFirst;
        ReadersKeepPlace(version, isBE);
        ReadIndexedKeeps(read, keep, b.value.rest, 0, h.value.value.headerTwo);
        var r := ReadIndexed(read, b.value.rest, 0, h.value.value.headerTwo);
        if r.Success? {
          forall k | 0 <= k < |r.value.value| ensures r.value.value[k].isLibrary == (k == 0) {
            assert keep(0 + k == 0, r.value.value[k]);
          }
        }
      }
    }
  }

  lemma ReadersKeepPlace(version: int, isBE: bool)
    ensures var read := PlaylistReaders(version, isBE);
      forall isFirst, t :: read(isFirst)(t).Success? ==> read(isFirst)(t).value.value.isLibrary == isFirst
  {
    var read := PlaylistReaders(version, isBE);
    forall isFirst, t | read(isFirst)(t).Success?
      ensures read(isFirst)(t).value.value.isLibrary == isFirst
    {
      assert read(isFirst)(t) == ReadPlaylist(t, isFirst, version, isBE);
    }
  }

  /** Reading a saved playlist list gives back its playlists. */
  lemma PlaylistListRoundTrip(vs: seq<PlaylistValue>, version: int, isBE: bool, rest: Bytes)
    requires ListSaveable(vs, version, isBE) && LibraryFirst(vs)
    requires forall k :: 0 <= k < |vs| ==> RoundTrips(vs[k], version, isBE)
    ensures ReadPlaylistList(EncodePlaylistList(vs, version, isBE) + rest, version, isBE) == Success(Parsed(vs, rest))
  {
    var playlists := Concat(PlaylistParts(vs, version, isBE));
    Assoc(ListHeader(|vs|, isBE), playlists, rest);
    ReadListHeader(|vs|, playlists + rest, version, isBE);
    PlaylistsReadBack(vs, version, isBE, rest);
  }

  lemma ReadListHeader(count: int, tail: Bytes, version: int, isBE: bool)
    requires 0 <= count < 0x8000_0000
    ensures ReadPlaylistList(ListHeader(count, isBE) + tail, version, isBE)
         == ReadIndexed(PlaylistReaders(version, isBE), tail, 0, count)
  {
    Regroup(WriteHeader(ListTag, ListHeaderOne, count, isBE), Zeros(8), tail, []);
    assert ListHeader(count, isBE) + tail == WriteHeader(ListTag, ListHeaderOne, count, isBE) + (Zeros(8) + tail);
    HeaderRoundTrip(ListTag, ListHeaderOne, count, isBE, Zeros(8) + tail);
    assert (Zeros(8) + tail)[..8] == Zeros(8);
    assert (Zeros(8) + tail)[8..] == tail;
  }

  lemma PlaylistsReadBack(vs: seq<PlaylistValue>, version: int, isBE: bool, rest: Bytes)
    requires ListSaveable(vs, version, isBE) && LibraryFirst(vs)
    requires forall k :: 0 <= k < |vs| ==> RoundTrips(vs[k], version, isBE)
    ensures ReadIndexed(PlaylistReaders(version, isBE), Concat(PlaylistParts(vs, version, isBE)) + rest, 0, |vs|)
         == Success(Parsed(vs, rest))
  {
    var parts := PlaylistParts(vs, version, isBE);
    EachPlaylistReadsBack(vs, parts, version, isBE);
    ReadIndexedRoundTrip(PlaylistReaders(version, isBE), vs, parts, 0, rest);
  }

  lemma EachPlaylistReadsBack(vs: seq<PlaylistValue>, parts: seq<Bytes>, version: int, isBE: bool)
    requires ListSaveable(vs, version, isBE) && LibraryFirst(vs) && parts == PlaylistParts(vs, version, isBE)
    requires forall k :: 0 <= k < |vs| ==> RoundTrips(vs[k], version, isBE)
    ensures forall k, tail :: 0 <= k < |vs| ==>
      PlaylistReaders(version, isBE)(0 + k == 0)(parts[k] + tail) == Success(Parsed(vs[k], tail))
  {
    forall k, tail | 0 <= k < |vs|
      ensures PlaylistReaders(version, isBE)(0 + k == 0)(parts[k] + tail) == Success(Parsed(vs[k], tail))
    {
      PlaylistRoundTrip(vs[k], version, isBE, tail);
    }
  }

  /** What `Save` does to every playlist of the list. */
  function PrepareAll(vs: seq<PlaylistValue>): (r: seq<PlaylistValue>)
    requires forall k :: 0 <= k < |vs| ==> Preparable(vs[k])
    ensures |r| == |vs|
    ensures forall k :: 0 <= k < |vs| ==> Preparable(vs[k]) && r[k] == PrepareForSave(vs[k])
  {
    seq(|vs|, k requires 0 <= k < |vs| && Preparable(vs[k]) => PrepareForSave(vs[k]))
  }

  predicate Preparable(v: PlaylistValue)
  {
    |v.items| < 0x7FFF_FFFF && forall i :: 0 <= i < |v.items| ==> v.items[i].Valid()
  }

  /** Saving a list read from a database and reading it back gives every playlist as
    * its own Save leaves it. */
  lemma SavedListReadsBack(vs: seq<PlaylistValue>, version: int, isBE: bool, rest: Bytes)
    requires LibraryFirst(vs)
    requires forall k :: 0 <= k < |vs| ==> RoundTrips(vs[k], version, isBE) && Preparable(vs[k])
    requires forall k :: 0 <= k < |vs| ==> forall i :: 0 <= i < |vs[k].items| ==> vs[k].items[i].posrec.Attached?
    requires ListSaveable(PrepareAll(vs), version, isBE)
    ensures ReadPlaylistList(EncodePlaylistList(PrepareAll(vs), version, isBE) + rest, version, isBE)
         == Success(Parsed(PrepareAll(vs), rest))
  {
    var ps := PrepareAll(vs);
    forall k | 0 <= k < |vs| ensures RoundTrips(ps[k], version, isBE) {
      PreparedRoundTrips(vs[k], version, isBE);
    }
    PlaylistListRoundTrip(ps, version, isBE, rest);
  }

  /** The library a new list starts with: hidden, and named "IPOD". */
  function NewLibrary(): PlaylistValue
  {
    EmptyPlaylist(true).(isHidden := true, stringDetails := [NewStringDetail(Title, "IPOD")])
  }

  /** The contents of some playlist records, in order. */
  function ValuesOf(records: seq<PlaylistRecord>): (vs: seq<PlaylistValue>)
    reads records
    ensures |vs| == |records| && forall k :: 0 <= k < |records| ==> vs[k] == records[k].Value()
  {
    seq(|records|, k reads records requires 0 <= k < |records| => records[k].Value())
  }

  class PlaylistListRecord {
    const isBE: bool
    var playlists: seq<PlaylistRecord>

    /** Every playlist is a valid record of the list's byte order, and none is in the
      * list twice. */
    predicate Valid()
      reads this, playlists
    {
      Distinct(playlists)
      && forall k :: 0 <= k < |playlists| ==> playlists[k].Valid() && playlists[k].isBE == isBE
    }

    /** The playlists' contents, in order. */
    function Values(): (vs: seq<PlaylistValue>)
      reads this, playlists
      ensures |vs| == |playlists| && forall k :: 0 <= k < |playlists| ==> vs[k] == playlists[k].Value()
    {
      ValuesOf(playlists)
    }

    /** `new PlaylistListRecord (isbe)`: just the library, hidden and named "IPOD". */
    constructor(isBE: bool)
      ensures Valid() && this.isBE == isBE
      ensures Values() == [NewLibrary()] && fresh(playlists[0])
    {
      var library := new PlaylistRecord(true, isBE);
      library.isHidden := true;
      library.SetName("IPOD");
      this.isBE := isBE;
      playlists := [library];
    }

    /** `FindNextId`. */
    method FindNextId() returns (id: Int32)
      ensures id == NextId(Ids(Values()))
    {
      ghost var ids := Ids(Values());
      var m: Int32 := 0;
      var i := 0;
      while i < |playlists|
        invariant 0 <= i <= |playlists|
        invariant m == MaxId(ids[..i])
      {
        assert ids[..i + 1][..i] == ids[..i];
        if playlists[i].id > m {
          m := playlists[i].id;
        }
        i := i + 1;
      }
      assert ids[..i] == ids;
      id := if m == 0x7FFF_FFFF then -0x8000_0000 else m + 1;
    }

    /** `AddPlaylist`: the playlist gets the next id and goes last. */
    method AddPlaylist(record: PlaylistRecord)
      requires Valid() && record.Valid() && record.isBE == isBE && record !in playlists
      modifies this`playlists, record`id
      ensures Valid()
      ensures playlists == old(playlists) + [record]
      ensures Values() == old(Values()) + [old(record.Value()).(id := NextId(Ids(old(Values()))))]
    {
      var id := FindNextId();
      Append(record, id);
    }

    /** The second half of `AddPlaylist`: the record, with the id given, goes last. */
    method Append(record: PlaylistRecord, id: Int32)
      requires Valid() && record.Valid() && record.isBE == isBE && record !in playlists
      modifies this`playlists, record`id
      ensures Valid()
      ensures playlists == old(playlists) + [record]
      ensures Values() == old(Values()) + [old(record.Value()).(id := id)]
    {
      record.id := id;
      DistinctSnoc(playlists, record);
      playlists := playlists + [record];
    }

    /** `RemovePlaylist`: `List.Remove`, which compares references. */
    method RemovePlaylist(record: PlaylistRecord)
      requires Valid()
      modifies this`playlists
      ensures Valid()
      ensures playlists == RemoveFirst(old(playlists), record)
    {
      var i := 0;
      while i < |playlists| && playlists[i] != record
        invariant 0 <= i <= |playlists|
        invariant record !in playlists[..i]
      {
        assert playlists[..i + 1] == playlists[..i] + [playlists[i]];
        i := i + 1;
      }
      if i < |playlists| {
        assert FirstIndex(playlists, record) == i;
        RemoveFirstOfDistinct(playlists, record);
        playlists := playlists[..i] + playlists[i + 1..];
      } else {
        assert playlists[..i] == playlists;
      }
    }

    /** `Save`: every playlist saves itself, as its own Save says, in list order. */
    method Save(version: int) returns (bytes: Bytes)
      requires Valid() && PlaylistsSave(Values(), version, isBE)
      modifies playlists
      ensures Values() == PrepareAll(old(Values()))
      ensures Valid()
      ensures bytes == EncodePlaylistList(Values(), version, isBE)
    {
      ghost var before := Values();
      ghost var after := PrepareAll(before);
      var data := SaveAll(playlists, version, isBE, before, after);
      Kept();
      bytes := ListHeader(|playlists|, isBE) + data;
    }

    /** The list is still valid when it holds the same records and each is still valid,
      * whatever happened to their contents. */
    twostate lemma Kept()
      requires old(Valid()) && unchanged(this)
      requires forall k :: 0 <= k < |playlists| ==> playlists[k].Valid()
      ensures Valid()
    {
    }

    /** `Read`: the header, then HeaderTwo playlists in new records, the first the
      * library. A header that cannot be read leaves the list as it was; once it is read the
      * old playlists are dropped, and a playlist that fails to read leaves those read
      * before it. */
    method Read(s: Bytes, version: int) returns (r: Read<Bytes>)
      requires Valid()
      modifies this`playlists
      ensures var p := ReadPlaylistList(s, version, isBE);
        (r.Success? <==> p.Success?)
        && (p.Success? ==> r.value == p.value.rest && Values() == p.value.value)
      ensures ReadHeader(s, Some(ListTag), isBE).Failure? ==> playlists == old(playlists)
      ensures Valid() && (r.Success? ==> forall k :: 0 <= k < |playlists| ==> fresh(playlists[k]))
    {
      var h := ReadHeader(s, Some(ListTag), isBE);
      if h.Failure? {
        return Failure(h.error);
      }
      var b := ReadBytes(h.value.rest, h.value.value.headerOne - 12);
      if b.Failure? {
        return Failure(b.error);
      }
      var lists, got := ReadRecords(PlaylistReaders(version, isBE), b.value.rest, h.value.value.headerTwo, version, isBE);
      playlists := lists;
      return got;
    }
  }

  /** `Read`'s loop: HeaderTwo new records, each reading the next playlist. */
  method ReadRecords(ghost read: bool -> Bytes -> Read<Parsed<PlaylistValue>>, s: Bytes, count: int, version: int, isBE: bool) returns (lists: seq<PlaylistRecord>, r: Read<Bytes>)
    requires forall b, t {:trigger ReadPlaylist(t, b, version, isBE)} :: read(b)(t) == ReadPlaylist(t, b, version, isBE)
    ensures Distinct(lists)
    ensures forall k :: 0 <= k < |lists| ==> fresh(lists[k]) && lists[k].Valid() && lists[k].isBE == isBE
    ensures var p := ReadIndexed(read, s, 0, count);
      (r.Success? <==> p.Success?)
      && (p.Success? ==> r.value == p.value.rest && |lists| == |p.value.value|
                         && forall k :: 0 <= k < |lists| ==> lists[k].Value() == p.value.value[k])
  {
    ghost var whole := ReadIndexed(read, s, 0, count);
    ghost var vals: seq<PlaylistValue> := [];
    lists := [];
    var cur := s;
    var i: nat := 0;
    if whole.Success? {
      assert [] + whole.value.value == whole.value.value;
    }
    while i < count
      invariant |lists| == |vals| && Distinct(lists)
      invariant forall k :: 0 <= k < |lists| ==>
        fresh(lists[k]) && lists[k].Valid() && lists[k].isBE == isBE && lists[k].Value() == vals[k]
      invariant whole == Prepend(vals, ReadIndexed(read, cur, i, count))
      decreases count - i
    {
      ReadIndexedStep(read, cur, i, count);
      var list, got := ReadInto(read, cur, i == 0, version, isBE);
      if got.Failure? {
        return lists, Failure(got.error);
      }
      PrependTwice(vals, [list.Value()], ReadIndexed(read, got.value, i + 1, count));
      vals := vals + [list.Value()];
      lists := lists + [list];
      cur := got.value;
      i := i + 1;
    }
    assert vals + [] == vals;
    r := Success(cur);
  }

  /** One pass of `Read`'s loop: a new record reads the next playlist, and holds exactly
    * what was read. */
  method ReadInto(ghost read: bool -> Bytes -> Read<Parsed<PlaylistValue>>, s: Bytes, isLibrary: bool, version: int, isBE: bool) returns (list: PlaylistRecord, r: Read<Bytes>)
    requires forall b, t {:trigger ReadPlaylist(t, b, version, isBE)} :: read(b)(t) == ReadPlaylist(t, b, version, isBE)
    ensures fresh(list) && list.Valid() && list.isBE == isBE
    ensures var p := read(isLibrary)(s);
      (r.Success? <==> p.Success?)
      && (p.Success? ==> r.value == p.value.rest && list.Value() == p.value.value)
  {
    list := new PlaylistRecord(isLibrary, isBE);
    r := list.Read(s, version);
  }

  /** What a playlist list's Save needs: an int count, and every playlist preparable and
    * saveable once prepared. */
  predicate PlaylistsSave(vs: seq<PlaylistValue>, version: int, isBE: bool)
  {
    |vs| < 0x8000_0000
    && (forall k {:trigger Preparable(vs[k])} :: 0 <= k < |vs| ==> Preparable(vs[k]))
    && forall k {:trigger PrepareForSave(vs[k])} :: 0 <= k < |vs| && Preparable(vs[k]) ==>
      PlaylistSaveable(PrepareForSave(vs[k]), version, isBE)
  }

  // `Save`'s loop, stated over what one playlist's Save does so that the loop does not
  // see into the playlist codec.

  function SavedValue(): PlaylistValue -> PlaylistValue
  {
    v => if Preparable(v) then PrepareForSave(v) else v
  }

  function SavedBytes(version: int, isBE: bool): PlaylistValue -> Bytes
  {
    v => if PlaylistSaveable(v, version, isBE) then EncodePlaylist(v, version, isBE) else []
  }

  function CanSave(version: int, isBE: bool): PlaylistValue -> bool
  {
    v => Preparable(v) && PlaylistSaveable(PrepareForSave(v), version, isBE)
  }

  /** `prep`, `enc` and `ok` are `PlaylistRecord.Save`'s effect, bytes and precondition. */
  ghost predicate SavesAs(prep: PlaylistValue -> PlaylistValue, enc: PlaylistValue -> Bytes,
                          ok: PlaylistValue -> bool, version: int, isBE: bool)
  {
    (forall v {:trigger Preparable(v)} :: ok(v) ==> Preparable(v))
    && forall v {:trigger PrepareForSave(v)} :: ok(v) ==>
      Preparable(v) && prep(v) == PrepareForSave(v) && PlaylistSaveable(PrepareForSave(v), version, isBE)
      && enc(PrepareForSave(v)) == EncodePlaylist(PrepareForSave(v), version, isBE)
  }

  lemma SaveFunctions(before: seq<PlaylistValue>, version: int, isBE: bool) returns (parts: seq<Bytes>)
    requires PlaylistsSave(before, version, isBE)
    ensures ListSaveable(PrepareAll(before), version, isBE)
    ensures parts == PlaylistParts(PrepareAll(before), version, isBE)
    ensures SavesAs(SavedValue(), SavedBytes(version, isBE), CanSave(version, isBE), version, isBE)
    ensures forall k :: 0 <= k < |before| ==> CanSave(version, isBE)(before[k])
    ensures |parts| == |before| < 0x8000_0000
    ensures forall k :: 0 <= k < |before| ==> parts[k] == SavedBytes(version, isBE)(SavedValue()(before[k]))
  {
    parts := PlaylistParts(PrepareAll(before), version, isBE);
  }

  /** `Save`'s loop over the list's records, stated over values. */
  method SaveAll(lists: seq<PlaylistRecord>, version: int, isBE: bool,
                 ghost before: seq<PlaylistValue>, ghost after: seq<PlaylistValue>) returns (data: Bytes)
    requires Distinct(lists) && |before| == |lists|
    requires forall k :: 0 <= k < |lists| ==> lists[k].Valid() && lists[k].isBE == isBE && lists[k].Value() == before[k]
    requires PlaylistsSave(before, version, isBE)
    requires after == PrepareAll(before)
    modifies lists
    ensures forall k :: 0 <= k < |lists| ==> lists[k].Valid()
    ensures ValuesOf(lists) == after
    ensures ListSaveable(after, version, isBE) && data == Concat(PlaylistParts(after, version, isBE))
  {
    ghost var parts := SaveFunctions(before, version, isBE);
    data := SaveRecords(lists, version, isBE, SavedValue(), SavedBytes(version, isBE),
                        CanSave(version, isBE), before, after, parts);
  }

  /** One pass of `Save`'s loop. */
  method SaveOne(list: PlaylistRecord, version: int, ghost prep: PlaylistValue -> PlaylistValue,
                 ghost enc: PlaylistValue -> Bytes, ghost ok: PlaylistValue -> bool) returns (bytes: Bytes)
    requires SavesAs(prep, enc, ok, version, list.isBE)
    requires list.Valid() && ok(list.Value())
    modifies list
    ensures list.Valid() && list.Value() == prep(old(list.Value())) && bytes == enc(list.Value())
  {
    assert Preparable(list.Value());
    bytes := list.Save(version);
  }

  /** `Save`'s loop: each record saves itself in turn. */
  method SaveRecords(lists: seq<PlaylistRecord>, version: int, isBE: bool,
                     ghost prep: PlaylistValue -> PlaylistValue, ghost enc: PlaylistValue -> Bytes,
                     ghost ok: PlaylistValue -> bool, ghost before: seq<PlaylistValue>,
                     ghost after: seq<PlaylistValue>, ghost parts: seq<Bytes>) returns (data: Bytes)
    requires SavesAs(prep, enc, ok, version, isBE) && Distinct(lists)
    requires |before| == |lists| == |parts| == |after|
    requires forall k :: 0 <= k < |lists| ==>
      lists[k].Valid() && lists[k].isBE == isBE && lists[k].Value() == before[k] && ok(before[k])
    requires forall k :: 0 <= k < |lists| ==> after[k] == prep(before[k]) && parts[k] == enc(after[k])
    modifies lists
    ensures forall k :: 0 <= k < |lists| ==> lists[k].Valid()
    ensures ValuesOf(lists) == after
    ensures data == Concat(parts)
  {
    data := [];
    var i := 0;
    while i < |lists|
      invariant 0 <= i <= |lists|
      invariant forall k :: 0 <= k < |lists| ==>
        lists[k].Valid() && lists[k].Value() == (if k < i then after[k] else before[k])
      invariant data == Concat(parts[..i])
    {
      var saved := SaveOne(lists[i], version, prep, enc, ok);
      PrefixSnoc(parts, i);
      ConcatAppend(parts[..i], parts[i]);
      data := data + saved;
      i := i + 1;
    }
    assert parts[..i] == parts;
  }
}
