// The track list (`mhlt`, TrackDatabase.cs:1154-1241): the tracks one after another.
// Its HeaderTwo is the number of tracks, not a length. Reading it also moves on the
// database id the next new track will get.
module TrackLists {
  import opened Wrappers
  import opened Binary
  import opened Details
  import opened Lists
  import opened Tracks
  import opened TrackRecords

  const TrackListTag: string := "mhlt"

  /** HeaderOne: the 12 header bytes and 8 bytes of padding. */
  const TrackListHeaderOne: Int32 := 12 + 8

  // The database id of the next new track.

  /** `DatabaseId + 1` on a long: the largest value wraps round to the smallest. */
  function Inc64(d: Int64): Int64
  {
    if d == 0x7FFF_FFFF_FFFF_FFFF then -0x8000_0000_0000_0000 else d + 1
  }

  /** One step of `Read`'s loop as written: a track's database id moves NextDatabaseId on
    * only when it is strictly greater. */
  function BumpAsWritten(next: Int64, d: Int64): Int64
  {
    if d > next then Inc64(d) else next
  }

  /** One step as intended: a database id equal to NextDatabaseId moves it on as well. */
  function Bump(next: Int64, d: Int64): Int64
  {
    if d >= next then Inc64(d) else next
  }

  /** NextDatabaseId after the loop as written has seen the database ids `ids`, in order. */
  function NextAfterAsWritten(next: Int64, ids: seq<Int64>): Int64
  {
    if ids == [] then next else BumpAsWritten(NextAfterAsWritten(next, ids[..|ids| - 1]), ids[|ids| - 1])
  }

  /** NextDatabaseId after the corrected loop has seen the database ids `ids`, in order. */
  function NextAfter(next: Int64, ids: seq<Int64>): Int64
  {
    if ids == [] then next else Bump(NextAfter(next, ids[..|ids| - 1]), ids[|ids| - 1])
  }

  /** As written, whatever was read before, a track whose database id equals
    * NextDatabaseId so far leaves it there: the next track created (`CreateTrack`) gets
    * the id of a track already in the database. (A new database starts at 1, so a file
    * holding one track of database id 1 is enough.) */
  lemma NextAfterAsWrittenRepeats(next: Int64, ids: seq<Int64>)
    ensures var m := NextAfterAsWritten(next, ids);
      NextAfterAsWritten(next, ids + [m]) == m
  {
    assert (ids + [NextAfterAsWritten(next, ids)])[..|ids|] == ids;
  }

  /** Corrected, the same track moves NextDatabaseId past its id. */
  lemma NextAfterMovesPast(next: Int64, ids: seq<Int64>)
    requires NextAfter(next, ids) < 0x7FFF_FFFF_FFFF_FFFF
    ensures var m := NextAfter(next, ids);
      NextAfter(next, ids + [m]) == m + 1
  {
    assert (ids + [NextAfter(next, ids)])[..|ids|] == ids;
  }

  /** Corrected, NextDatabaseId ends above every database id read, as long as none is the
    * largest long, and it never goes below where it started. */
  lemma {:induction false} NextAfterIsFresh(next: Int64, ids: seq<Int64>)
    requires forall k :: 0 <= k < |ids| ==> ids[k] < 0x7FFF_FFFF_FFFF_FFFF
    ensures next <= NextAfter(next, ids)
    ensures forall k :: 0 <= k < |ids| ==> ids[k] < NextAfter(next, ids)
  {
    if ids != [] {
      var init := ids[..|ids| - 1];
      assert forall k :: 0 <= k < |init| ==> init[k] == ids[k];
      NextAfterIsFresh(next, init);
    }
  }

  /** The database ids of some tracks, in order. */
  function DatabaseIds(vs: seq<TrackValue>): (ids: seq<Int64>)
    ensures |ids| == |vs| && forall k :: 0 <= k < |vs| ==> ids[k] == vs[k].fields.extra.databaseId
  {
    seq(|vs|, k requires 0 <= k < |vs| => vs[k].fields.extra.databaseId)
  }

  /** The record ids (`Id`) of some tracks, in order. */
  function TrackIds(vs: seq<TrackValue>): (ids: seq<Int32>)
    ensures |ids| == |vs| && forall k :: 0 <= k < |vs| ==> ids[k] == vs[k].fields.basic.id
  {
    seq(|vs|, k requires 0 <= k < |vs| => vs[k].fields.basic.id)
  }

  /** The index of the first id equal to id, or -1. */
  function FindId(ids: seq<Int32>, id: Int32): (k: int)
    ensures -1 <= k < |ids|
    ensures k >= 0 ==> ids[k] == id && forall j :: 0 <= j < k ==> ids[j] != id
    ensures k == -1 <==> forall j :: 0 <= j < |ids| ==> ids[j] != id
  {
    if ids == [] then -1
    else if ids[0] == id then 0
    else
      var k := FindId(ids[1..], id);
      if k < 0 then -1 else k + 1
  }

  // The list's bytes.

  predicate TracksSaveable(vs: seq<TrackValue>, isBE: bool)
  {
    |vs| < 0x8000_0000 && forall k {:trigger TrackSaveable(vs[k], isBE)} :: 0 <= k < |vs| ==> TrackSaveable(vs[k], isBE)
  }

  function TrackParts(vs: seq<TrackValue>, version: int, isBE: bool): (r: seq<Bytes>)
    requires TracksSaveable(vs, isBE)
    ensures |r| == |vs|
  {
    seq(|vs|, k requires 0 <= k < |vs| && TrackSaveable(vs[k], isBE) => EncodeTrack(vs[k], version, isBE))
  }

  /** The list's header and padding, before `count` tracks. */
  function TrackListHeader(count: int, isBE: bool): (r: Bytes)
    requires 0 <= count < 0x8000_0000
    ensures |r| == 20
  {
    WriteHeader(TrackListTag, TrackListHeaderOne, count, isBE) + Zeros(8)
  }

  /** `TrackListRecord.Save`: header, padding, then every track. */
  function EncodeTrackList(vs: seq<TrackValue>, version: int, isBE: bool): (r: Bytes)
    requires TracksSaveable(vs, isBE)
    ensures |r| >= 20
  {
    TrackListHeader(|vs|, isBE) + Concat(TrackParts(vs, version, isBE))
  }

  /** Each track is read into a new record, so fields a version does not store keep the
    * initial values of a new record. */
  function TrackReader(version: int, isBE: bool): Bytes -> Read<Parsed<TrackValue>>
  {
    s => ReadTrack(s, DefaultFields(), version, isBE)
  }

  /** `TrackListRecord.Read`: HeaderTwo tracks after a body of HeaderOne - 12 bytes. */
  function ReadTrackList(s: Bytes, version: int, isBE: bool): (r: Read<Parsed<seq<TrackValue>>>)
  {
    var h :- ReadHeader(s, Some(TrackListTag), isBE);
    var b :- ReadBytes(h.rest, h.value.headerOne - 12);
    ReadMany(TrackReader(version, isBE), b.rest, h.value.headerTwo)
  }

  /** The tracks that read back as they were saved: the details can be saved, and before
    * version 12 the fields that are not stored hold a new record's values. */
  predicate TrackRoundTrips(v: TrackValue, version: int, isBE: bool)
  {
    TrackSaveable(v, isBE) && Unstored(v.fields, DefaultFields(), version)
  }

  /** Reading a saved track list gives back its tracks. */
  lemma TrackListRoundTrip(vs: seq<TrackValue>, version: int, isBE: bool, rest: Bytes)
    requires TracksSaveable(vs, isBE)
    requires forall k :: 0 <= k < |vs| ==> TrackRoundTrips(vs[k], version, isBE)
    ensures ReadTrackList(EncodeTrackList(vs, version, isBE) + rest, version, isBE) == Success(Parsed(vs, rest))
  {
    var tracks := Concat(TrackParts(vs, version, isBE));
    Assoc(TrackListHeader(|vs|, isBE), tracks, rest);
    ReadTrackListHeader(|vs|, tracks + rest, version, isBE);
    TracksReadBack(vs, version, isBE, rest);
  }

  lemma ReadTrackListHeader(count: int, tail: Bytes, version: int, isBE: bool)
    requires 0 <= count < 0x8000_0000
    ensures ReadTrackList(TrackListHeader(count, isBE) + tail, version, isBE)
         == ReadMany(TrackReader(version, isBE), tail, count)
  {
    Regroup(WriteHeader(TrackListTag, TrackListHeaderOne, count, isBE), Zeros(8), tail, []);
    assert TrackListHeader(count, isBE) + tail
        == WriteHeader(TrackListTag, TrackListHeaderOne, count, isBE) + (Zeros(8) + tail);
    HeaderRoundTrip(TrackListTag, TrackListHeaderOne, count, isBE, Zeros(8) + tail);
    assert (Zeros(8) + tail)[..8] == Zeros(8);
    assert (Zeros(8) + tail)[8..] == tail;
  }

  lemma TracksReadBack(vs: seq<TrackValue>, version: int, isBE: bool, rest: Bytes)
    requires TracksSaveable(vs, isBE)
    requires forall k :: 0 <= k < |vs| ==> TrackRoundTrips(vs[k], version, isBE)
    ensures ReadMany(TrackReader(version, isBE), Concat(TrackParts(vs, version, isBE)) + rest, |vs|)
         == Success(Parsed(vs, rest))
  {
    var parts := TrackParts(vs, version, isBE);
    forall k, tail | 0 <= k < |vs|
      ensures TrackReader(version, isBE)(parts[k] + tail) == Success(Parsed(vs[k], tail))
    {
      TrackRoundTrip(vs[k], DefaultFields(), version, isBE, tail);
    }
    ReadManyRoundTrip(TrackReader(version, isBE), vs, parts, rest);
  }

  /** The contents of some track records, in order. */
  function ValuesOf(records: seq<TrackRecord>): (vs: seq<TrackValue>)
    reads records
    ensures |vs| == |records| && forall k :: 0 <= k < |records| ==> vs[k] == records[k].Value()
  {
    seq(|records|, k reads records requires 0 <= k < |records| => records[k].Value())
  }

  class TrackListRecord {
    const isBE: bool
    var tracks: seq<TrackRecord>
    /** The database id `CreateTrack` gives the next new track. */
    var nextDatabaseId: Int64

    /** Every track is a record of the list's byte order, and none is in the list twice. */
    predicate Valid()
      reads this, tracks
    {
      Distinct(tracks) && forall k :: 0 <= k < |tracks| ==> tracks[k].isBE == isBE
    }

    /** The tracks' contents, in order. */
    function Values(): (vs: seq<TrackValue>)
      reads this, tracks
      ensures |vs| == |tracks| && forall k :: 0 <= k < |tracks| ==> vs[k] == tracks[k].Value()
    {
      ValuesOf(tracks)
    }

    /** `new TrackListRecord (isbe)`: no tracks, and database ids from 1. */
    constructor(isBE: bool)
      ensures Valid() && this.isBE == isBE && tracks == [] && nextDatabaseId == 1
    {
      this.isBE := isBE;
      tracks := [];
      nextDatabaseId := 1;
    }

    /** `Add`: the track goes last. */
    method Add(track: TrackRecord)
      requires Valid() && track.isBE == isBE && track !in tracks
      modifies this`tracks
      ensures Valid() && tracks == old(tracks) + [track]
    {
      DistinctSnoc(tracks, track);
      tracks := tracks + [track];
    }

    /** `Remove`: the first track with the record id goes; without one, nothing changes. */
    method Remove(id: Int32)
      requires Valid()
      modifies this`tracks
      ensures Valid()
      ensures var k := FindId(TrackIds(old(Values())), id);
        tracks == if k < 0 then old(tracks) else old(tracks)[..k] + old(tracks)[k + 1..]
    {
      ghost var ids := TrackIds(Values());
      var i := 0;
      while i < |tracks| && tracks[i].fields.basic.id != id
        invariant 0 <= i <= |tracks|
        invariant forall j :: 0 <= j < i ==> ids[j] != id
      {
        i := i + 1;
      }
      if i < |tracks| {
        DistinctRemoveAt(tracks, i);
        tracks := tracks[..i] + tracks[i + 1..];
      }
    }

    /** `LookupTrack`: the first track with the record id, or null. */
    method LookupTrack(id: Int32) returns (r: TrackRecord?)
      ensures var k := FindId(TrackIds(Values()), id);
        (r == null <==> k < 0) && (k >= 0 ==> r == tracks[k])
    {
      ghost var ids := TrackIds(Values());
      var i := 0;
      while i < |tracks|
        invariant 0 <= i <= |tracks|
        invariant forall j :: 0 <= j < i ==> ids[j] != id
      {
        if tracks[i].fields.basic.id == id {
          return tracks[i];
        }
        i := i + 1;
      }
      return null;
    }

    /** `IndexOf`: the index of the first track with the record id, or -1. */
    method IndexOf(id: Int32) returns (k: int)
      ensures k == FindId(TrackIds(Values()), id)
    {
      ghost var ids := TrackIds(Values());
      var i := 0;
      while i < |tracks|
        invariant 0 <= i <= |tracks|
        invariant forall j :: 0 <= j < i ==> ids[j] != id
      {
        if tracks[i].fields.basic.id == id {
          return i;
        }
        i := i + 1;
      }
      return -1;
    }

    /** `Save`: the header with the track count, the padding, then every track. */
    method Save(version: int) returns (bytes: Bytes)
      requires Valid() && TracksSaveable(Values(), isBE)
      ensures bytes == EncodeTrackList(old(Values()), version, isBE)
    {
      ghost var parts := PartsOf(version);
      bytes := SaveTrackList(tracks, version, isBE, parts);
    }

    /** What each track saves as, and the list they make. */
    lemma PartsOf(version: int) returns (parts: seq<Bytes>)
      requires Valid() && TracksSaveable(Values(), isBE)
      ensures AllSaveAs(tracks, parts, version, isBE) && |tracks| < 0x8000_0000
      ensures EncodeTrackList(Values(), version, isBE) == TrackListHeader(|tracks|, isBE) + Concat(parts)
    {
      parts := TrackPartsOf(tracks, version, isBE);
    }

    /** `Read`: the header, then HeaderTwo tracks in new records. NextDatabaseId moves
      * above each database id read. The old tracks are dropped once the header is read;
      * a track that fails to read leaves those read before it. */
    method Read(s: Bytes, version: int) returns (r: Read<Bytes>)
      requires Valid()
      modifies this`tracks, this`nextDatabaseId
      ensures Valid() && (r.Success? ==> forall k :: 0 <= k < |tracks| ==> fresh(tracks[k]))
      ensures var p := ReadTrackList(s, version, isBE);
        (r.Success? <==> p.Success?)
        && (p.Success? ==> r.value == p.value.rest && Values() == p.value.value
                           && nextDatabaseId == NextAfter(old(nextDatabaseId), DatabaseIds(p.value.value)))
    {
      var h := ReadHeader(s, Some(TrackListTag), isBE);
      if h.Failure? {
        return Failure(h.error);
      }
      var b := ReadBytes(h.value.rest, h.value.value.headerOne - 12);
      if b.Failure? {
        return Failure(b.error);
      }
      tracks := [];
      r := ReadTracks(TrackReader(version, isBE), b.value.rest, h.value.value.headerTwo, version);
    }

    /** `Read`'s loop: count new records, each reading the next track. */
    method ReadTracks(ghost read: Bytes -> Read<Parsed<TrackValue>>, s: Bytes, count: int, version: int)
      returns (r: Read<Bytes>)
      requires tracks == [] && ReadsTracks(read, version, isBE)
      modifies this`tracks, this`nextDatabaseId
      ensures Valid() && forall k :: 0 <= k < |tracks| ==> fresh(tracks[k])
      ensures var p := ReadMany(read, s, count);
        (r.Success? <==> p.Success?)
        && (p.Success? ==> r.value == p.value.rest && Values() == p.value.value
                           && nextDatabaseId == NextAfter(old(nextDatabaseId), DatabaseIds(p.value.value)))
    {
      ghost var whole := ReadMany(read, s, count);
      var cur := s;
      var i := 0;
      ProgressStart(read, s, count, old(nextDatabaseId));
      while i < count
        invariant 0 <= i && Valid() && forall k :: 0 <= k < |tracks| ==> fresh(tracks[k])
        invariant Progress(read, whole, old(nextDatabaseId), Values(), nextDatabaseId, cur, count - i)
        decreases count - i
      {
        ghost var vs, next := Values(), nextDatabaseId;
        var got := ReadNext(read, cur, version);
        if got.Failure? {
          return Failure(got.error);
        }
        ProgressStep(read, whole, old(nextDatabaseId), vs, next, cur, count - i);
        cur := got.value;
        i := i + 1;
      }
      ProgressEnd(read, whole, old(nextDatabaseId), Values(), nextDatabaseId, cur);
      return Success(cur);
    }

    /** One pass of `Read`'s loop: a new record reads the next track and goes last, and
      * NextDatabaseId moves above its database id (with the corrected comparison). */
    method ReadNext(ghost read: Bytes -> Read<Parsed<TrackValue>>, s: Bytes, version: int) returns (r: Read<Bytes>)
      requires Valid() && ReadsTracks(read, version, isBE)
      modifies this`tracks, this`nextDatabaseId
      ensures Valid() && forall k :: 0 <= k < |tracks| ==> tracks[k] in old(tracks) || fresh(tracks[k])
      ensures var p := read(s);
        (r.Success? <==> p.Success?)
        && (p.Success? ==> r.value == p.value.rest && Values() == old(Values()) + [p.value.value]
                           && nextDatabaseId == Bump(old(nextDatabaseId), p.value.value.fields.extra.databaseId))
    {
      var rec, got := ReadOne(read, s, version, isBE);
      if got.Success? {
        Append(rec);
      }
      return got;
    }

    /** A track read in the loop goes last, and NextDatabaseId moves above its database id
      * (with the corrected comparison). */
    method Append(rec: TrackRecord)
      requires Valid() && rec.isBE == isBE && rec !in tracks
      modifies this`tracks, this`nextDatabaseId
      ensures Valid() && tracks == old(tracks) + [rec] && Values() == old(Values()) + [rec.Value()]
      ensures nextDatabaseId == Bump(old(nextDatabaseId), rec.fields.extra.databaseId)
    {
      if rec.fields.extra.databaseId >= nextDatabaseId {
        nextDatabaseId := Inc64(rec.fields.extra.databaseId);
      }
      DistinctSnoc(tracks, rec);
      tracks := tracks + [rec];
    }
  }

  /** Where `Read`'s loop has got to: the tracks read so far are vs and NextDatabaseId is
    * next, and reading the n tracks left from cur would complete the whole list. */
  ghost predicate Progress(read: Bytes -> Read<Parsed<TrackValue>>, whole: Read<Parsed<seq<TrackValue>>>,
                           next0: Int64, vs: seq<TrackValue>, next: Int64, cur: Bytes, n: int)
  {
    next == NextAfter(next0, DatabaseIds(vs)) && whole == Prepend(vs, ReadMany(read, cur, n))
  }

  lemma ProgressStart(read: Bytes -> Read<Parsed<TrackValue>>, s: Bytes, count: int, next0: Int64)
    ensures Progress(read, ReadMany(read, s, count), next0, [], next0, s, count)
  {
    var whole := ReadMany(read, s, count);
    if whole.Success? {
      assert [] + whole.value.value == whole.value.value;
    }
  }

  lemma ProgressStep(read: Bytes -> Read<Parsed<TrackValue>>, whole: Read<Parsed<seq<TrackValue>>>,
                     next0: Int64, vs: seq<TrackValue>, next: Int64, cur: Bytes, n: int)
    requires Progress(read, whole, next0, vs, next, cur, n) && n > 0 && read(cur).Success?
    ensures var p := read(cur).value;
      Progress(read, whole, next0, vs + [p.value], Bump(next, p.value.fields.extra.databaseId), p.rest, n - 1)
  {
    var p := read(cur).value;
    ReadManyStep(read, vs, cur, n, p.value, p.rest);
    NextAfterSnoc(next0, vs, p.value);
  }

  lemma ProgressEnd(read: Bytes -> Read<Parsed<TrackValue>>, whole: Read<Parsed<seq<TrackValue>>>,
                    next0: Int64, vs: seq<TrackValue>, next: Int64, cur: Bytes)
    requires Progress(read, whole, next0, vs, next, cur, 0)
    ensures whole == Success(Parsed(vs, cur)) && next == NextAfter(next0, DatabaseIds(vs))
  {
    assert vs + [] == vs;
  }

  lemma NextAfterSnoc(next: Int64, vs: seq<TrackValue>, v: TrackValue)
    ensures NextAfter(next, DatabaseIds(vs + [v])) == Bump(NextAfter(next, DatabaseIds(vs)), v.fields.extra.databaseId)
  {
    assert DatabaseIds(vs + [v])[..|vs|] == DatabaseIds(vs);
  }

  /** `read` is the reader of the list's tracks, seen only through its calls. */
  ghost predicate ReadsTracks(read: Bytes -> Read<Parsed<TrackValue>>, version: int, isBE: bool)
  {
    forall t {:trigger ReadTrack(t, DefaultFields(), version, isBE)} :: read(t) == ReadTrack(t, DefaultFields(), version, isBE)
  }

  /** One pass of `Read`'s loop: a new record reads the next track and holds exactly
    * what was read. */
  method ReadOne(ghost read: Bytes -> Read<Parsed<TrackValue>>, s: Bytes, version: int, isBE: bool)
    returns (rec: TrackRecord, r: Read<Bytes>)
    requires ReadsTracks(read, version, isBE)
    ensures fresh(rec) && rec.isBE == isBE
    ensures var p := read(s);
      (r.Success? <==> p.Success?)
      && (p.Success? ==> r.value == p.value.rest && rec.Value() == p.value.value)
  {
    rec := new TrackRecord(isBE);
    r := rec.Read(s, version);
  }

  /** The record is of the list's byte order, can be saved, and saves as part. */
  ghost predicate SavesAs(rec: TrackRecord, part: Bytes, version: int, isBE: bool)
    reads rec
  {
    rec.isBE == isBE && TrackSaveable(rec.Value(), isBE) && part == EncodeTrack(rec.Value(), version, isBE)
  }

  /** Every record saves as the part of the same index. */
  ghost predicate AllSaveAs(records: seq<TrackRecord>, parts: seq<Bytes>, version: int, isBE: bool)
    reads records
  {
    |parts| == |records|
    && forall k {:trigger SavesAs(records[k], parts[k], version, isBE)} ::
         0 <= k < |records| ==> SavesAs(records[k], parts[k], version, isBE)
  }

  /** What each record saves as, and the list they make. */
  lemma TrackPartsOf(records: seq<TrackRecord>, version: int, isBE: bool) returns (parts: seq<Bytes>)
    requires forall k :: 0 <= k < |records| ==> records[k].isBE == isBE
    requires TracksSaveable(ValuesOf(records), isBE)
    ensures AllSaveAs(records, parts, version, isBE)
    ensures EncodeTrackList(ValuesOf(records), version, isBE) == TrackListHeader(|records|, isBE) + Concat(parts)
  {
    parts := TrackParts(ValuesOf(records), version, isBE);
    forall k | 0 <= k < |records|
      ensures SavesAs(records[k], parts[k], version, isBE)
    {
    }
  }

  /** `Save` on a list holding the records: the header, then the tracks. */
  method SaveTrackList(records: seq<TrackRecord>, version: int, isBE: bool, ghost parts: seq<Bytes>)
    returns (bytes: Bytes)
    requires AllSaveAs(records, parts, version, isBE) && |records| < 0x8000_0000
    ensures bytes == TrackListHeader(|records|, isBE) + Concat(parts)
  {
    var data := SaveTracks(records, version, isBE, parts);
    bytes := TrackListHeader(|records|, isBE) + data;
  }

  /** `Save`'s loop: each track saves itself in turn. */
  method SaveTracks(records: seq<TrackRecord>, version: int, isBE: bool, ghost parts: seq<Bytes>) returns (data: Bytes)
    requires AllSaveAs(records, parts, version, isBE)
    ensures data == Concat(parts)
  {
    data := [];
    var i := 0;
    while i < |records|
      invariant 0 <= i <= |records|
      invariant data == Concat(parts[..i])
    {
      var saved := SaveOne(records, i, version, isBE, parts);
      PrefixSnoc(parts, i);
      ConcatAppend(parts[..i], parts[i]);
      data := data + saved;
      i := i + 1;
    }
    assert parts[..i] == parts;
  }

  /** One pass of `Save`'s loop: record i saves as part i. */
  method SaveOne(records: seq<TrackRecord>, i: nat, version: int, isBE: bool, ghost parts: seq<Bytes>)
    returns (bytes: Bytes)
    requires i < |records| && AllSaveAs(records, parts, version, isBE)
    ensures bytes == parts[i]
  {
    assert SavesAs(records[i], parts[i], version, isBE);
    bytes := records[i].Save(version);
  }
}
