// A playlist ("mhyp"): its name detail, the other details that come with it, and its
// entries. The library playlist (the first one) keeps its other details as details; any
// other playlist keeps them as uninterpreted records.
module Playlists {
  import opened Wrappers
  import opened Binary
  import opened Details
  import opened GenericRecords
  import opened PlaylistItems

  const PlaylistTag: string := "mhyp"

  /** SortOrder.Manual, the order of a new playlist and of one read from an old database. */
  const Manual: Int32 := 1

  /** A detail after the name: a detail in the library playlist, a raw record elsewhere. */
  datatype Child = DetailChild(detail: Detail) | GenericChild(record: GenericRecord)

  predicate ChildSaveable(c: Child)
  {
    match c
    case DetailChild(d) => d.Saveable()
    case GenericChild(g) => IsTag(g.name)
  }

  function SaveChildRecord(c: Child, isBE: bool): (r: Bytes)
    requires ChildSaveable(c)
  {
    match c
    case DetailChild(d) => SaveDetail(d, isBE)
    case GenericChild(g) => SaveGeneric(g, isBE)
  }

  /** A detail after the first: read as a detail in the library, as a raw record elsewhere. */
  function ReadChild(s: Bytes, isLibrary: bool, isBE: bool): (r: Read<Parsed<Child>>)
    ensures r.Success? ==> (r.value.value.DetailChild? <==> isLibrary)
  {
    if isLibrary then
      var d :- ReadDetail(s, isBE);
      Success(Parsed(DetailChild(d.value), d.rest))
    else
      var g :- ReadGeneric(s, isBE);
      Success(Parsed(GenericChild(g.value), g.rest))
  }

  /** A child that reads back as itself in a playlist of this kind. */
  predicate ChildRoundTrips(c: Child, isLibrary: bool, isBE: bool)
  {
    if isLibrary then c.DetailChild? && c.detail.Saveable()
    else c.GenericChild? && c.record.Framed()
  }

  lemma ChildRoundTrip(c: Child, isLibrary: bool, isBE: bool, rest: Bytes)
    requires ChildRoundTrips(c, isLibrary, isBE)
    ensures ChildSaveable(c)
    ensures ReadChild(SaveChildRecord(c, isBE) + rest, isLibrary, isBE) == Success(Parsed(c, rest))
  {
    if isLibrary {
      DetailRoundTrip(c.detail, isBE, rest);
    } else {
      GenericRoundTrip(c.record, isBE, rest);
    }
  }

  /** Everything a playlist record holds. */
  datatype PlaylistValue = PlaylistValue(
    isLibrary: bool,
    unknownOne: Int32,
    stringDetails: seq<Detail>,
    otherDetails: seq<Child>,
    items: seq<PlaylistItem>,
    isHidden: bool,
    timestamp: Int32,
    id: Int32,
    isPodcast: bool,
    order: Int32)

  /** `new PlaylistRecord (isLibrary, isbe)`. */
  function EmptyPlaylist(isLibrary: bool): (v: PlaylistValue)
    ensures v.stringDetails == [] && v.otherDetails == [] && v.items == []
    ensures v.isLibrary == isLibrary && !v.isHidden && !v.isPodcast && v.order == Manual
  {
    PlaylistValue(isLibrary, 0, [], [], [], false, 0, 0, false, Manual)
  }

  // The entry operations, on the sequence of entries.

  /** `IndexOf`: the index of the first entry of the track, or -1. */
  function FindTrack(items: seq<PlaylistItem>, trackId: Int32): (k: int)
    ensures -1 <= k < |items|
    ensures k == -1 <==> forall j :: 0 <= j < |items| ==> items[j].trackId != trackId
    ensures k >= 0 ==> items[k].trackId == trackId && forall j :: 0 <= j < k ==> items[j].trackId != trackId
  {
    if items == [] then -1
    else if items[0].trackId == trackId then 0
    else
      var k := FindTrack(items[1..], trackId);
      assert forall j :: 1 <= j < |items| ==> items[j] == items[1..][j - 1];
      if k == -1 then -1 else k + 1
  }

  /** `RemoveTrack`: the first entry of the track is removed, if there is one. */
  function WithoutTrack(items: seq<PlaylistItem>, trackId: Int32): (r: seq<PlaylistItem>)
  {
    var k := FindTrack(items, trackId);
    if k == -1 then items else items[..k] + items[k + 1..]
  }

  lemma WithoutTrackRemovesOne(items: seq<PlaylistItem>, trackId: Int32)
    ensures var r := WithoutTrack(items, trackId);
      (|r| == |items| <==> forall j :: 0 <= j < |items| ==> items[j].trackId != trackId)
      && (|r| == |items| || |r| == |items| - 1)
      && multiset(r) <= multiset(items)
  {
    var k := FindTrack(items, trackId);
    if k != -1 {
      assert items == items[..k] + [items[k]] + items[k + 1..];
    }
  }

  /** `InsertItem`: a negative index appends; an index past the end is refused and
    * nothing changes (List.Insert throws). */
  function InsertAt(items: seq<PlaylistItem>, index: int, item: PlaylistItem): (r: Option<seq<PlaylistItem>>)
    ensures r.None? <==> index > |items|
    ensures r.Some? ==> multiset(r.value) == multiset(items) + multiset{item}
    ensures r.Some? && index < 0 ==> r.value == items + [item]
    ensures r.Some? ==> |r.value| == |items| + 1
    ensures r.Some? && index >= 0 ==> r.value[index] == item && r.value[..index] == items[..index]
                                      && r.value[index + 1..] == items[index..]
  {
    if index < 0 then Some(items + [item])
    else if index > |items| then None
    else
      assert items == items[..index] + items[index..];
      Some(items[..index] + [item] + items[index..])
  }

  /** The positions Save gives the entries: 1, 2, 3, ... in order. */
  function Renumber(items: seq<PlaylistItem>): (r: seq<PlaylistItem>)
    requires forall i :: 0 <= i < |items| ==> items[i].Valid()
    requires |items| < 0x7FFF_FFFF
    ensures |r| == |items|
    ensures forall i :: 0 <= i < |r| ==> r[i] == items[i].WithPosition(i + 1)
  {
    seq(|items|, i requires 0 <= i < |items| => items[i].WithPosition(i + 1))
  }

  lemma RenumberPositions(items: seq<PlaylistItem>)
    requires forall i :: 0 <= i < |items| ==> items[i].Valid()
    requires |items| < 0x7FFF_FFFF
    ensures var r := Renumber(items);
      forall i :: 0 <= i < |r| ==> r[i].Valid() && r[i].Position() == i + 1 && r[i].trackId == items[i].trackId
  {
  }

  /** Renumbering keeps entries readable as they are when their position details are
    * among their details. */
  lemma RenumberAsRead(items: seq<PlaylistItem>)
    requires forall i :: 0 <= i < |items| ==> AsRead(items[i]) && items[i].posrec.Attached?
    requires |items| < 0x7FFF_FFFF
    ensures forall i :: 0 <= i < |items| ==> items[i].Valid()
    ensures forall i :: 0 <= i < |items| ==> AsRead(Renumber(items)[i]) && Renumber(items)[i].posrec.Attached?
  {
    forall i | 0 <= i < |items|
      ensures items[i].Valid()
    {
      WithPositionAsRead(items[i], 1);
    }
    forall i | 0 <= i < |items|
      ensures AsRead(Renumber(items)[i]) && Renumber(items)[i].posrec.Attached?
    {
      WithPositionAsRead(items[i], i + 1);
    }
  }

  /** `CreateLibraryIndices`: only the details that are not library indices stay; any raw
    * record goes too. */
  function WithoutLibraryIndices(children: seq<Child>): (r: seq<Child>)
    ensures |r| <= |children|
    ensures forall i :: 0 <= i < |r| ==> r[i].DetailChild? && r[i].detail.Type() != LibraryIndex
    ensures forall i :: 0 <= i < |children| && children[i].DetailChild? && children[i].detail.Type() != LibraryIndex
              ==> children[i] in r
  {
    if children == [] then []
    else
      var tl := WithoutLibraryIndices(children[1..]);
      assert forall i :: 1 <= i < |children| ==> children[i] == children[1..][i - 1];
      if children[0].DetailChild? && children[0].detail.Type() != LibraryIndex then [children[0]] + tl
      else tl
  }

  lemma {:induction false} WithoutLibraryIndicesIdempotent(children: seq<Child>)
    ensures WithoutLibraryIndices(WithoutLibraryIndices(children)) == WithoutLibraryIndices(children)
  {
    if children != [] {
      WithoutLibraryIndicesIdempotent(children[1..]);
      var tl := WithoutLibraryIndices(children[1..]);
      if children[0].DetailChild? && children[0].detail.Type() != LibraryIndex {
        assert ([children[0]] + tl)[1..] == tl;
      }
    }
  }

  /** Whether `CreateLibraryIndices` keeps a child. */
  predicate KeptOnSave(c: Child)
  {
    c.DetailChild? && c.detail.Type() != LibraryIndex
  }

  /** Filtering one more child: it is kept at the end or dropped. */
  lemma {:induction false} WithoutLibraryIndicesSnoc(cs: seq<Child>, c: Child)
    ensures WithoutLibraryIndices(cs + [c]) == WithoutLibraryIndices(cs) + (if KeptOnSave(c) then [c] else [])
  {
    if cs == [] {
      assert [] + [c] == [c];
      assert [c][1..] == [];
    } else {
      assert (cs + [c])[1..] == cs[1..] + [c];
      WithoutLibraryIndicesSnoc(cs[1..], c);
    }
  }

  /** What Save does to the playlist before writing it: the library loses its library
    * indices and the entries are numbered from 1. */
  function PrepareForSave(v: PlaylistValue): (r: PlaylistValue)
    requires forall i :: 0 <= i < |v.items| ==> v.items[i].Valid()
    requires |v.items| < 0x7FFF_FFFF
    ensures r.items == Renumber(v.items)
    ensures r.otherDetails == if v.isLibrary then WithoutLibraryIndices(v.otherDetails) else v.otherDetails
    ensures r.(items := v.items, otherDetails := v.otherDetails) == v
  {
    v.(items := Renumber(v.items),
       otherDetails := if v.isLibrary then WithoutLibraryIndices(v.otherDetails) else v.otherDetails)
  }

  /** A playlist with its other details and entries as Save leaves them, and every other
    * field as it was, is the prepared playlist. */
  lemma Prepared(v: PlaylistValue, r: PlaylistValue)
    requires forall i :: 0 <= i < |v.items| ==> v.items[i].Valid()
    requires |v.items| < 0x7FFF_FFFF
    requires r.items == Renumber(v.items)
    requires r.otherDetails == if v.isLibrary then WithoutLibraryIndices(v.otherDetails) else v.otherDetails
    requires r.(items := v.items, otherDetails := v.otherDetails) == v
    ensures r == PrepareForSave(v)
  {
  }

  // Saving.

  function ChildParts(cs: seq<Child>, isBE: bool): (r: seq<Bytes>)
    requires forall i :: 0 <= i < |cs| ==> ChildSaveable(cs[i])
    ensures |r| == |cs|
  {
    seq(|cs|, i requires 0 <= i < |cs| && ChildSaveable(cs[i]) => SaveChildRecord(cs[i], isBE))
  }

  function ItemParts(items: seq<PlaylistItem>, version: int, isBE: bool): (r: seq<Bytes>)
    requires forall i :: 0 <= i < |items| ==> Saveable(items[i], isBE)
    ensures |r| == |items|
  {
    seq(|items|, i requires 0 <= i < |items| && Saveable(items[i], isBE) => ItemBytes(items[i], version, isBE))
  }

  predicate PartsSaveable(v: PlaylistValue, isBE: bool)
  {
    AllSaveable(v.stringDetails)
    && (forall i :: 0 <= i < |v.otherDetails| ==> ChildSaveable(v.otherDetails[i]))
    && (forall i :: 0 <= i < |v.items| ==> Saveable(v.items[i], isBE))
  }

  /** The children of a saved playlist: name detail, other details, entries. */
  function ChildrenBytes(v: PlaylistValue, version: int, isBE: bool): Bytes
    requires PartsSaveable(v, isBE)
  {
    SaveDetails(v.stringDetails, isBE) + (Concat(ChildParts(v.otherDetails, isBE))
      + Concat(ItemParts(v.items, version, isBE)))
  }

  predicate PlaylistSaveable(v: PlaylistValue, version: int, isBE: bool)
  {
    PartsSaveable(v, isBE)
    && CountsFit(v) && 56 + |ChildrenBytes(v, version, isBE)| < 0x8000_0000
  }

  /** HeaderOne: the fields grow from version 13 on. */
  function PlaylistHeaderOne(version: int): Int32
  {
    if version >= 13 then 48 + 8 else 42 + 8
  }

  /** `(short) count`: the low 16 bits, as a signed value. */
  function ToShort(n: nat): Int16
  {
    Signed16(n % 0x1_0000)
  }

  /** The first 24 bytes of the body: detail count, entry count, hidden flag, timestamp,
    * id, an unknown. */
  function PlaylistCounts(v: PlaylistValue, isBE: bool): (r: Bytes)
    requires CountsFit(v)
    ensures |r| == 24
  {
    Int32s([|v.stringDetails| + |v.otherDetails|, |v.items|, if v.isHidden then 1 else 0, v.timestamp,
            v.id, v.unknownOne], isBE)
  }

  /** The rest of the body: the split of the detail count, from version 13 on the podcast
    * flag and the sort order, and padding. */
  function PlaylistTail(v: PlaylistValue, version: int, isBE: bool): (r: Bytes)
    requires |v.stringDetails| < 0x8000_0000
    ensures |r| == PlaylistHeaderOne(version) - 12 - 24
  {
    (WriteInt32(|v.stringDetails|, isBE) + WriteInt16(ToShort(|v.otherDetails|), isBE))
    + (if version >= 13 then PodcastFields(v.isPodcast, v.order, isBE) + Zeros(8) else Zeros(8))
  }

  /** The fields added in version 13: podcast flag (a short) and sort order. */
  function PodcastFields(isPodcast: bool, order: Int32, isBE: bool): (r: Bytes)
    ensures |r| == 6
  {
    WriteInt16(if isPodcast then 1 else 0, isBE) + WriteInt32(order, isBE)
  }

  lemma PodcastFieldsRead(isPodcast: bool, order: Int32, isBE: bool, tail: Bytes)
    ensures var b := PodcastFields(isPodcast, order, isBE) + tail;
      (ToInt16(b, 0, isBE) == 1 <==> isPodcast) && ToInt32(b, 2, isBE) == order
  {
  }

  /** The counts and flags a playlist record stores fit their fields. */
  predicate CountsFit(v: PlaylistValue)
  {
    |v.stringDetails| + |v.otherDetails| < 0x8000_0000 && |v.items| < 0x8000_0000
  }

  /** A saved playlist record around the bytes of its children: header, fields, children. */
  function PlaylistBytes(v: PlaylistValue, children: Bytes, version: int, isBE: bool): (r: Bytes)
    requires CountsFit(v) && 56 + |children| < 0x8000_0000
  {
    var h1 := PlaylistHeaderOne(version);
    WriteHeader(PlaylistTag, h1, h1 + |children|, isBE)
      + ((PlaylistCounts(v, isBE) + PlaylistTail(v, version, isBE)) + children)
  }

  /** `PlaylistRecord.Save` once the playlist is prepared. */
  function EncodePlaylist(v: PlaylistValue, version: int, isBE: bool): (r: Bytes)
    requires PlaylistSaveable(v, version, isBE)
  {
    PlaylistBytes(v, ChildrenBytes(v, version, isBE), version, isBE)
  }

  /** HeaderOne is 56 from version 13 on and 50 before; HeaderTwo is the whole record. */
  lemma PlaylistLengths(v: PlaylistValue, children: Bytes, version: int, isBE: bool)
    requires CountsFit(v) && 56 + |children| < 0x8000_0000
    ensures var r := PlaylistBytes(v, children, version, isBE);
      ToInt32(r, 4, isBE) == (if version >= 13 then 56 else 50) && ToInt32(r, 8, isBE) == |r|
      && r[|r| - |children|..] == children
  {
    var h1 := PlaylistHeaderOne(version);
    var header := WriteHeader(PlaylistTag, h1, h1 + |children|, isBE);
    var tail := (PlaylistCounts(v, isBE) + PlaylistTail(v, version, isBE)) + children;
    Int32OfPrefix(header, tail, 4, isBE);
    Int32OfPrefix(header, tail, 8, isBE);
    assert header + tail == (header + (PlaylistCounts(v, isBE) + PlaylistTail(v, version, isBE))) + children;
  }

  // Reading.

  function ChildReader(isLibrary: bool, isBE: bool): Bytes -> Read<Parsed<Child>>
  {
    s => ReadChild(s, isLibrary, isBE)
  }

  function ItemReader(isBE: bool): Bytes -> Read<Parsed<PlaylistItem>>
  {
    s => ReadItem(s, isBE)
  }

  /** `PlaylistRecord.Read`: the body is HeaderOne - 12 bytes; the children follow it. */
  function ReadPlaylist(s: Bytes, isLibrary: bool, version: int, isBE: bool): (r: Read<Parsed<PlaylistValue>>)
    ensures r.Success? ==> r.value.value.isLibrary == isLibrary && |r.value.value.stringDetails| <= 1
    ensures r.Success? && version < 13 ==> !r.value.value.isPodcast && r.value.value.order == Manual
  {
    var h :- ReadHeader(s, Some(PlaylistTag), isBE);
    var b :- ReadBytes(h.rest, h.value.headerOne - 12);
    PlaylistFromBody(b.value, b.rest, isLibrary, version, isBE)
  }

  /** Once the header and the body are read, what is left is reading from the body. */
  lemma ReadPlaylistBody(s: Bytes, isLibrary: bool, version: int, isBE: bool, body: Bytes, tail: Bytes)
    requires ReadHeader(s, Some(PlaylistTag), isBE).Success?
    requires ReadBytes(ReadHeader(s, Some(PlaylistTag), isBE).value.rest,
                       ReadHeader(s, Some(PlaylistTag), isBE).value.value.headerOne - 12) == Success(Parsed(body, tail))
    ensures ReadPlaylist(s, isLibrary, version, isBE) == PlaylistFromBody(body, tail, isLibrary, version, isBE)
  {
  }

  /** The fields from the body, then the children. Before version 13 the podcast flag and
    * the sort order are not stored. */
  function PlaylistFromBody(body: Bytes, s: Bytes, isLibrary: bool, version: int, isBE: bool)
    : (r: Read<Parsed<PlaylistValue>>)
    ensures r.Success? ==> r.value.value.isLibrary == isLibrary && |r.value.value.stringDetails| <= 1
    ensures r.Success? && version < 13 ==> !r.value.value.isPodcast && r.value.value.order == Manual
  {
    if |body| < 24 || (version >= 13 && |body| < 36) then Failure(IndexOutOfRange)
    else
      var c :- ReadPlaylistChildren(s, ToInt32(body, 0, isBE), ToInt32(body, 4, isBE), isLibrary, isBE);
      Success(Parsed(ValueOfBody(body, c.value, isLibrary, version, isBE), c.rest))
  }

  datatype PlaylistChildren = PlaylistChildren(stringDetails: seq<Detail>, otherDetails: seq<Child>,
                                               items: seq<PlaylistItem>)

  /** The first detail becomes the name, the others follow it, then the entries. */
  function ReadPlaylistChildren(s: Bytes, numDetails: Int32, numItems: Int32, isLibrary: bool, isBE: bool)
    : (r: Read<Parsed<PlaylistChildren>>)
    ensures r.Success? ==> |r.value.value.stringDetails| <= 1
  {
    var name :- ReadDetails(s, if numDetails >= 1 then 1 else 0, isBE);
    ReadOtherChildren(name.value, name.rest, numDetails, numItems, isLibrary, isBE)
  }

  /** After the name detail: the other details, numDetails - 1 of them, then the entries. */
  function ReadOtherChildren(names: seq<Detail>, s: Bytes, numDetails: Int32, numItems: Int32, isLibrary: bool,
                             isBE: bool): (r: Read<Parsed<PlaylistChildren>>)
    ensures r.Success? ==> r.value.value.stringDetails == names
  {
    var others :- ReadMany(ChildReader(isLibrary, isBE), s, numDetails - 1);
    ReadEntryChildren(names, others.value, others.rest, numItems, isBE)
  }

  /** After the details: the entries, numItems of them. */
  function ReadEntryChildren(names: seq<Detail>, others: seq<Child>, s: Bytes, numItems: Int32, isBE: bool)
    : (r: Read<Parsed<PlaylistChildren>>)
    ensures r.Success? ==> r.value.value.stringDetails == names && r.value.value.otherDetails == others
  {
    var items :- ReadMany(ItemReader(isBE), s, numItems);
    Success(Parsed(PlaylistChildren(names, others, items.value), items.rest))
  }

  /** The children read: no other details without the name detail, and every entry's
    * position reference pointing at a position detail. */
  lemma ChildrenShape(s: Bytes, numDetails: Int32, numItems: Int32, isLibrary: bool, isBE: bool)
    requires ReadPlaylistChildren(s, numDetails, numItems, isLibrary, isBE).Success?
    ensures var c := ReadPlaylistChildren(s, numDetails, numItems, isLibrary, isBE).value.value;
      (c.stringDetails == [] ==> c.otherDetails == []) && forall i :: 0 <= i < |c.items| ==> c.items[i].Valid()
  {
    var name := ReadDetails(s, if numDetails >= 1 then 1 else 0, isBE).value;
    var others := ReadMany(ChildReader(isLibrary, isBE), name.rest, numDetails - 1).value;
    if name.value == [] {
      assert numDetails - 1 <= 0;
    }
    ReadManyKeeps(ItemReader(isBE), (item: PlaylistItem) => item.Valid(), others.rest, numItems);
  }

  lemma ReadChildrenBack(sd: seq<Detail>, od: seq<Child>, items: seq<PlaylistItem>, isLibrary: bool, isBE: bool,
                         n: Int32, m: Int32, s: Bytes, t1: Bytes, t2: Bytes, rest: Bytes)
    requires |sd| <= 1 && (sd == [] ==> od == []) && n == |sd| + |od| && m == |items|
    requires ReadDetails(s, |sd|, isBE) == Success(Parsed(sd, t1))
    requires ReadMany(ChildReader(isLibrary, isBE), t1, |od|) == Success(Parsed(od, t2))
    requires ReadMany(ItemReader(isBE), t2, |items|) == Success(Parsed(items, rest))
    ensures ReadPlaylistChildren(s, n, m, isLibrary, isBE) == Success(Parsed(PlaylistChildren(sd, od, items), rest))
  {
    var r := Success(Parsed(PlaylistChildren(sd, od, items), rest));
    EntryChildrenBack(sd, od, items, m, t2, rest, isBE);
    OtherChildrenBack(sd, od, isLibrary, isBE, n, m, t1, t2, r);
    NameChildBack(sd, isLibrary, isBE, n, m, s, t1, r);
  }

  /** The entries read back after the details. */
  lemma EntryChildrenBack(sd: seq<Detail>, od: seq<Child>, items: seq<PlaylistItem>, m: Int32, t2: Bytes,
                          rest: Bytes, isBE: bool)
    requires m == |items| && ReadMany(ItemReader(isBE), t2, |items|) == Success(Parsed(items, rest))
    ensures ReadEntryChildren(sd, od, t2, m, isBE) == Success(Parsed(PlaylistChildren(sd, od, items), rest))
  {
  }

  /** The other details read back after the name detail: none when there is no name. */
  lemma OtherChildrenBack(sd: seq<Detail>, od: seq<Child>, isLibrary: bool, isBE: bool, n: Int32, m: Int32,
                          t1: Bytes, t2: Bytes, r: Read<Parsed<PlaylistChildren>>)
    requires |sd| <= 1 && (sd == [] ==> od == []) && n == |sd| + |od|
    requires ReadMany(ChildReader(isLibrary, isBE), t1, |od|) == Success(Parsed(od, t2))
    requires ReadEntryChildren(sd, od, t2, m, isBE) == r && r.Success?
    ensures ReadOtherChildren(sd, t1, n, m, isLibrary, isBE) == r
  {
    if sd == [] {
      assert t2 == t1;
      assert ReadMany(ChildReader(isLibrary, isBE), t1, n - 1) == Success(Parsed([], t1));
    } else {
      assert n - 1 == |od|;
    }
  }

  /** The name detail, when there is one, read first. */
  lemma NameChildBack(sd: seq<Detail>, isLibrary: bool, isBE: bool, n: Int32, m: Int32, s: Bytes, t1: Bytes,
                      r: Read<Parsed<PlaylistChildren>>)
    requires |sd| <= 1 && n >= |sd| && (sd == [] ==> n == 0)
    requires ReadDetails(s, |sd|, isBE) == Success(Parsed(sd, t1))
    requires ReadOtherChildren(sd, t1, n, m, isLibrary, isBE) == r && r.Success?
    ensures ReadPlaylistChildren(s, n, m, isLibrary, isBE) == r
  {
    assert (if n >= 1 then 1 else 0) == |sd|;
  }

  lemma ReadPlaylistHeader(h1: Int32, h2: Int32, fields: Bytes, tail: Bytes, isLibrary: bool, version: int, isBE: bool)
    requires h1 == 12 + |fields|
    ensures ReadPlaylist(WriteHeader(PlaylistTag, h1, h2, isBE) + (fields + tail), isLibrary, version, isBE)
         == PlaylistFromBody(fields, tail, isLibrary, version, isBE)
  {
    HeaderRoundTrip(PlaylistTag, h1, h2, isBE, fields + tail);
    assert (fields + tail)[..|fields|] == fields;
    assert (fields + tail)[|fields|..] == tail;
  }

  lemma PlaylistFieldsRead(v: PlaylistValue, version: int, isBE: bool)
    requires CountsFit(v)
    ensures var b := PlaylistCounts(v, isBE) + PlaylistTail(v, version, isBE);
      |b| >= 24 && ToInt32(b, 0, isBE) == |v.stringDetails| + |v.otherDetails| && ToInt32(b, 4, isBE) == |v.items|
      && (ToInt32(b, 8, isBE) == 1 <==> v.isHidden) && ToInt32(b, 12, isBE) == v.timestamp
      && ToInt32(b, 16, isBE) == v.id && ToInt32(b, 20, isBE) == v.unknownOne
  {
    CountsRead(v, isBE, PlaylistTail(v, version, isBE));
  }

  lemma PlaylistPodcastRead(v: PlaylistValue, version: int, isBE: bool)
    requires CountsFit(v) && version >= 13
    ensures var b := PlaylistCounts(v, isBE) + PlaylistTail(v, version, isBE);
      |b| >= 36 && (ToInt16(b, 30, isBE) == 1 <==> v.isPodcast) && ToInt32(b, 32, isBE) == v.order
  {
    var head := PlaylistCounts(v, isBE) + (WriteInt32(|v.stringDetails|, isBE) + WriteInt16(ToShort(|v.otherDetails|), isBE));
    var t := PodcastFields(v.isPodcast, v.order, isBE) + Zeros(8);
    assert PlaylistCounts(v, isBE) + PlaylistTail(v, version, isBE) == head + t;
    PodcastFieldsRead(v.isPodcast, v.order, isBE, Zeros(8));
    Int16OfSuffix(head, t, 30, isBE);
    Int32OfSuffix(head, t, 32, isBE);
  }

  lemma CountsRead(v: PlaylistValue, isBE: bool, tail: Bytes)
    requires CountsFit(v)
    ensures var b := PlaylistCounts(v, isBE) + tail;
      ToInt32(b, 0, isBE) == |v.stringDetails| + |v.otherDetails| && ToInt32(b, 4, isBE) == |v.items|
      && ToInt32(b, 8, isBE) == (if v.isHidden then 1 else 0) && ToInt32(b, 12, isBE) == v.timestamp
      && ToInt32(b, 16, isBE) == v.id && ToInt32(b, 20, isBE) == v.unknownOne
  {
    var xs := [|v.stringDetails| + |v.otherDetails|, |v.items|, if v.isHidden then 1 else 0, v.timestamp,
               v.id, v.unknownOne];
    Int32sRead(xs, isBE, tail, 0);
    Int32sRead(xs, isBE, tail, 1);
    Int32sRead(xs, isBE, tail, 2);
    Int32sRead(xs, isBE, tail, 3);
    Int32sRead(xs, isBE, tail, 4);
    Int32sRead(xs, isBE, tail, 5);
  }

  /** The body read back from saved fields, given what the children read back as. */
  /** The values `PlaylistRecord.Read` takes from a body whose fields hold the playlist's values. */
  function ValueOfBody(body: Bytes, c: PlaylistChildren, isLibrary: bool, version: int, isBE: bool): PlaylistValue
    requires |body| >= 24 && (version >= 13 ==> |body| >= 36)
  {
    PlaylistValue(isLibrary, ToInt32(body, 20, isBE), c.stringDetails, c.otherDetails,
      c.items, ToInt32(body, 8, isBE) == 1, ToInt32(body, 12, isBE), ToInt32(body, 16, isBE),
      version >= 13 && ToInt16(body, 30, isBE) == 1,
      if version >= 13 then ToInt32(body, 32, isBE) else Manual)
  }

  lemma ValueOfFields(v: PlaylistValue, body: Bytes, version: int, isBE: bool)
    requires |body| >= 24 && (version >= 13 ==> |body| >= 36)
    requires (ToInt32(body, 8, isBE) == 1 <==> v.isHidden) && ToInt32(body, 12, isBE) == v.timestamp
    requires ToInt32(body, 16, isBE) == v.id && ToInt32(body, 20, isBE) == v.unknownOne
    requires version >= 13 ==> (ToInt16(body, 30, isBE) == 1 <==> v.isPodcast) && ToInt32(body, 32, isBE) == v.order
    requires version < 13 ==> !v.isPodcast && v.order == Manual
    ensures ValueOfBody(body, PlaylistChildren(v.stringDetails, v.otherDetails, v.items), v.isLibrary, version, isBE)
         == v
  {
  }

  /** The body layer of `ReadPlaylist`, over any body whose fields hold the playlist's values. */
  lemma FromBodyFields(v: PlaylistValue, body: Bytes, children: Bytes, version: int, isBE: bool, rest: Bytes)
    requires |body| >= 24 && (version >= 13 ==> |body| >= 36)
    requires (ToInt32(body, 8, isBE) == 1 <==> v.isHidden) && ToInt32(body, 12, isBE) == v.timestamp
    requires ToInt32(body, 16, isBE) == v.id && ToInt32(body, 20, isBE) == v.unknownOne
    requires version >= 13 ==> (ToInt16(body, 30, isBE) == 1 <==> v.isPodcast) && ToInt32(body, 32, isBE) == v.order
    requires version < 13 ==> !v.isPodcast && v.order == Manual
    requires ReadPlaylistChildren(children, ToInt32(body, 0, isBE), ToInt32(body, 4, isBE), v.isLibrary, isBE)
          == Success(Parsed(PlaylistChildren(v.stringDetails, v.otherDetails, v.items), rest))
    ensures PlaylistFromBody(body, children, v.isLibrary, version, isBE) == Success(Parsed(v, rest))
  {
    ValueOfFields(v, body, version, isBE);
  }

  lemma PlaylistFromFields(v: PlaylistValue, version: int, isBE: bool, children: Bytes, rest: Bytes)
    requires CountsFit(v)
    requires version < 13 ==> !v.isPodcast && v.order == Manual
    requires var body := PlaylistCounts(v, isBE) + PlaylistTail(v, version, isBE);
      |body| >= 8
      && ReadPlaylistChildren(children, ToInt32(body, 0, isBE), ToInt32(body, 4, isBE), v.isLibrary, isBE)
         == Success(Parsed(PlaylistChildren(v.stringDetails, v.otherDetails, v.items), rest))
    ensures PlaylistFromBody(PlaylistCounts(v, isBE) + PlaylistTail(v, version, isBE), children,
                             v.isLibrary, version, isBE) == Success(Parsed(v, rest))
  {
    PlaylistFieldsRead(v, version, isBE);
    if version >= 13 {
      PlaylistPodcastRead(v, version, isBE);
    }
    FromBodyFields(v, PlaylistCounts(v, isBE) + PlaylistTail(v, version, isBE), children, version, isBE, rest);
  }

  /** A playlist that reads back as itself: the first detail is its name (the only
    * string detail), the other details are of the kind this playlist reads, the entries
    * read back with their position details, and the fields old versions do not store
    * have their defaults. */
  predicate RoundTrips(v: PlaylistValue, version: int, isBE: bool)
  {
    |v.stringDetails| <= 1 && (v.stringDetails == [] ==> v.otherDetails == [])
    && AllSaveable(v.stringDetails)
    && (forall i :: 0 <= i < |v.otherDetails| ==> ChildRoundTrips(v.otherDetails[i], v.isLibrary, isBE))
    && (forall i :: 0 <= i < |v.items| ==> Saveable(v.items[i], isBE)
                                           && AsRead(v.items[i]))
    && (version < 13 ==> !v.isPodcast && v.order == Manual)
  }

  lemma OthersSaveable(cs: seq<Child>, isLibrary: bool, isBE: bool)
    requires forall i :: 0 <= i < |cs| ==> ChildRoundTrips(cs[i], isLibrary, isBE)
    ensures forall i :: 0 <= i < |cs| ==> ChildSaveable(cs[i])
  {
    forall i | 0 <= i < |cs| ensures ChildSaveable(cs[i]) {
      ChildRoundTrip(cs[i], isLibrary, isBE, []);
    }
  }

  /** The children section reads back from any bytes made of parts that each read back. */
  lemma PartsRoundTrip(sd: seq<Detail>, od: seq<Child>, items: seq<PlaylistItem>, isLibrary: bool, isBE: bool,
                       n: Int32, m: Int32, names: Bytes, others: seq<Bytes>, entries: seq<Bytes>, s: Bytes, rest: Bytes)
    requires |sd| <= 1 && (sd == [] ==> od == []) && n == |sd| + |od| && m == |items|
    requires |others| == |od| && |entries| == |items|
    requires forall tail :: ReadDetails(names + tail, |sd|, isBE) == Success(Parsed(sd, tail))
    requires forall i, tail :: 0 <= i < |od| ==>
               ChildReader(isLibrary, isBE)(others[i] + tail) == Success(Parsed(od[i], tail))
    requires forall i, tail :: 0 <= i < |items| ==>
               ItemReader(isBE)(entries[i] + tail) == Success(Parsed(items[i], tail))
    requires s == names + (Concat(others) + (Concat(entries) + rest))
    ensures ReadPlaylistChildren(s, n, m, isLibrary, isBE)
         == Success(Parsed(PlaylistChildren(sd, od, items), rest))
  {
    var c2 := Concat(entries) + rest;
    var c1 := Concat(others) + c2;
    ReadManyRoundTrip(ItemReader(isBE), items, entries, rest);
    ReadManyRoundTrip(ChildReader(isLibrary, isBE), od, others, c2);
    ReadChildrenBack(sd, od, items, isLibrary, isBE, n, m, s, c1, c2, rest);
  }

  lemma NamesRead(sd: seq<Detail>, isBE: bool)
    requires AllSaveable(sd)
    ensures forall tail :: ReadDetails(SaveDetails(sd, isBE) + tail, |sd|, isBE) == Success(Parsed(sd, tail))
  {
    forall tail
      ensures ReadDetails(SaveDetails(sd, isBE) + tail, |sd|, isBE) == Success(Parsed(sd, tail))
    {
      DetailsRoundTrip(sd, isBE, tail);
    }
  }

  lemma OthersRead(cs: seq<Child>, isLibrary: bool, isBE: bool)
    requires forall i :: 0 <= i < |cs| ==> ChildRoundTrips(cs[i], isLibrary, isBE)
    ensures forall i :: 0 <= i < |cs| ==> ChildSaveable(cs[i])
    ensures forall i, tail :: 0 <= i < |cs| ==>
              ChildReader(isLibrary, isBE)(ChildParts(cs, isBE)[i] + tail) == Success(Parsed(cs[i], tail))
  {
    OthersSaveable(cs, isLibrary, isBE);
    forall i, tail | 0 <= i < |cs|
      ensures ChildReader(isLibrary, isBE)(ChildParts(cs, isBE)[i] + tail) == Success(Parsed(cs[i], tail))
    {
      ChildRoundTrip(cs[i], isLibrary, isBE, tail);
    }
  }

  lemma EntriesRead(items: seq<PlaylistItem>, version: int, isBE: bool)
    requires forall i :: 0 <= i < |items| ==> Saveable(items[i], isBE)
                                              && AsRead(items[i])
    ensures forall i, tail :: 0 <= i < |items| ==>
              ItemReader(isBE)(ItemParts(items, version, isBE)[i] + tail) == Success(Parsed(items[i], tail))
  {
    forall i, tail | 0 <= i < |items|
      ensures ItemReader(isBE)(ItemParts(items, version, isBE)[i] + tail) == Success(Parsed(items[i], tail))
    {
      ItemRoundTrip(items[i], version, isBE, tail);
    }
  }

  /** The children section as a name part, the other details' parts and the entries' parts,
    * each of which reads back. */
  lemma ChildrenLayout(v: PlaylistValue, version: int, isBE: bool, rest: Bytes)
    returns (names: Bytes, others: seq<Bytes>, entries: seq<Bytes>)
    requires RoundTrips(v, version, isBE)
    ensures PartsSaveable(v, isBE)
    ensures |others| == |v.otherDetails| && |entries| == |v.items|
    ensures ChildrenBytes(v, version, isBE) + rest == names + (Concat(others) + (Concat(entries) + rest))
    ensures forall tail :: ReadDetails(names + tail, |v.stringDetails|, isBE) == Success(Parsed(v.stringDetails, tail))
    ensures forall i, tail :: 0 <= i < |v.otherDetails| ==>
              ChildReader(v.isLibrary, isBE)(others[i] + tail) == Success(Parsed(v.otherDetails[i], tail))
    ensures forall i, tail :: 0 <= i < |v.items| ==>
              ItemReader(isBE)(entries[i] + tail) == Success(Parsed(v.items[i], tail))
  {
    OthersRead(v.otherDetails, v.isLibrary, isBE);
    names := SaveDetails(v.stringDetails, isBE);
    others := ChildParts(v.otherDetails, isBE);
    entries := ItemParts(v.items, version, isBE);
    Regroup(names, Concat(others), Concat(entries), rest);
    NamesRead(v.stringDetails, isBE);
    EntriesRead(v.items, version, isBE);
  }

  /** The children section reads back with the counts any body holding them gives. */
  lemma ChildrenRoundTrip(v: PlaylistValue, body: Bytes, version: int, isBE: bool, rest: Bytes)
    requires RoundTrips(v, version, isBE)
    requires |body| >= 8
    requires ToInt32(body, 0, isBE) == |v.stringDetails| + |v.otherDetails| && ToInt32(body, 4, isBE) == |v.items|
    ensures PartsSaveable(v, isBE)
    ensures ReadPlaylistChildren(ChildrenBytes(v, version, isBE) + rest, ToInt32(body, 0, isBE), ToInt32(body, 4, isBE),
                                 v.isLibrary, isBE)
         == Success(Parsed(PlaylistChildren(v.stringDetails, v.otherDetails, v.items), rest))
  {
    var names, others, entries := ChildrenLayout(v, version, isBE, rest);
    PartsRoundTrip(v.stringDetails, v.otherDetails, v.items, v.isLibrary, isBE, ToInt32(body, 0, isBE),
                   ToInt32(body, 4, isBE), names, others, entries, ChildrenBytes(v, version, isBE) + rest, rest);
  }

  /** Reading a saved playlist record comes down to reading its fields and its children. */
  lemma FramedPlaylist(v: PlaylistValue, children: Bytes, version: int, isBE: bool, rest: Bytes)
    requires CountsFit(v) && 56 + |children| < 0x8000_0000
    ensures ReadPlaylist(PlaylistBytes(v, children, version, isBE) + rest, v.isLibrary, version, isBE)
         == PlaylistFromBody(PlaylistCounts(v, isBE) + PlaylistTail(v, version, isBE), children + rest,
                             v.isLibrary, version, isBE)
  {
    var h1 := PlaylistHeaderOne(version);
    var fields := PlaylistCounts(v, isBE) + PlaylistTail(v, version, isBE);
    Regroup(WriteHeader(PlaylistTag, h1, h1 + |children|, isBE), fields, children, rest);
    ReadPlaylistHeader(h1, h1 + |children|, fields, children + rest, v.isLibrary, version, isBE);
  }

  /** Reading a saved playlist gives it back. */
  lemma PlaylistRoundTrip(v: PlaylistValue, version: int, isBE: bool, rest: Bytes)
    requires PlaylistSaveable(v, version, isBE) && RoundTrips(v, version, isBE)
    ensures ReadPlaylist(EncodePlaylist(v, version, isBE) + rest, v.isLibrary, version, isBE)
         == Success(Parsed(v, rest))
  {
    var fields := PlaylistCounts(v, isBE) + PlaylistTail(v, version, isBE);
    PlaylistFieldsRead(v, version, isBE);
    ChildrenRoundTrip(v, fields, version, isBE, rest);
    PlaylistFromFields(v, version, isBE, ChildrenBytes(v, version, isBE) + rest, rest);
    FramedPlaylist(v, ChildrenBytes(v, version, isBE), version, isBE, rest);
  }

  /** Saving a playlist read from a database and reading the bytes back gives the
    * prepared playlist: the library without its library indices, the entries numbered
    * from 1, everything else as it was. */
  lemma SavedPlaylistReadsBack(v: PlaylistValue, version: int, isBE: bool, rest: Bytes)
    requires RoundTrips(v, version, isBE)
    requires forall i :: 0 <= i < |v.items| ==> v.items[i].posrec.Attached?
    requires |v.items| < 0x7FFF_FFFF
    requires forall i :: 0 <= i < |v.items| ==> v.items[i].Valid()
    requires PlaylistSaveable(PrepareForSave(v), version, isBE)
    ensures ReadPlaylist(EncodePlaylist(PrepareForSave(v), version, isBE) + rest, v.isLibrary, version, isBE)
         == Success(Parsed(PrepareForSave(v), rest))
  {
    PreparedRoundTrips(v, version, isBE);
    PlaylistRoundTrip(PrepareForSave(v), version, isBE, rest);
  }

  /** A playlist read from a database, prepared for saving, reads back as the prepared
    * playlist, when its entries have their position details and its other details are
    * of the kind it reads. */
  lemma PreparedRoundTrips(v: PlaylistValue, version: int, isBE: bool)
    requires RoundTrips(v, version, isBE)
    requires forall i :: 0 <= i < |v.items| ==> v.items[i].posrec.Attached?
    requires |v.items| < 0x7FFF_FFFF
    ensures forall i :: 0 <= i < |v.items| ==> v.items[i].Valid()
    ensures RoundTrips(PrepareForSave(v), version, isBE)
  {
    RenumberAsRead(v.items);
    RenumberedItemsRoundTrip(v.items, isBE);
    var p := PrepareForSave(v);
    if v.isLibrary {
      StrippedChildrenRoundTrip(v.otherDetails, isBE);
      assert p.otherDetails == WithoutLibraryIndices(v.otherDetails);
    } else {
      assert p.otherDetails == v.otherDetails;
    }
    assert p.isLibrary == v.isLibrary && p.stringDetails == v.stringDetails;
  }

  lemma RenumberedItemsRoundTrip(items: seq<PlaylistItem>, isBE: bool)
    requires forall i :: 0 <= i < |items| ==> Saveable(items[i], isBE)
                                              && items[i].Valid()
    requires |items| < 0x7FFF_FFFF
    ensures forall i :: 0 <= i < |items| ==> Saveable(Renumber(items)[i], isBE)
  {
    forall i | 0 <= i < |items|
      ensures Saveable(Renumber(items)[i], isBE)
    {
      RenumberedItem(items, i, isBE);
    }
  }

  lemma RenumberedItem(items: seq<PlaylistItem>, i: int, isBE: bool)
    requires forall j :: 0 <= j < |items| ==> items[j].Valid()
    requires |items| < 0x7FFF_FFFF && 0 <= i < |items|
    requires Saveable(items[i], isBE)
    ensures Saveable(Renumber(items)[i], isBE)
  {
    RenumberKeepsDetails(items[i], i + 1, isBE);
  }

  lemma StrippedChildrenRoundTrip(cs: seq<Child>, isBE: bool)
    requires forall i :: 0 <= i < |cs| ==> ChildRoundTrips(cs[i], true, isBE)
    ensures forall i :: 0 <= i < |WithoutLibraryIndices(cs)| ==> ChildRoundTrips(WithoutLibraryIndices(cs)[i], true, isBE)
  {
    var r := WithoutLibraryIndices(cs);
    forall i | 0 <= i < |r| ensures ChildRoundTrips(r[i], true, isBE) {
      StrippedIsSubset(cs, r[i]);
    }
  }

  lemma {:induction false} StrippedIsSubset(cs: seq<Child>, c: Child)
    requires c in WithoutLibraryIndices(cs)
    ensures exists i :: 0 <= i < |cs| && cs[i] == c
  {
    if cs != [] {
      if c != cs[0] {
        var tl := WithoutLibraryIndices(cs[1..]);
        assert c in tl;
        StrippedIsSubset(cs[1..], c);
        var j :| 0 <= j < |cs[1..]| && cs[1..][j] == c;
        assert cs[j + 1] == c;
      } else {
        assert cs[0] == c;
      }
    }
  }

  /** Setting an entry's position keeps it saveable. */
  lemma RenumberKeepsDetails(item: PlaylistItem, p: Int32, isBE: bool)
    requires item.Valid() && Saveable(item, isBE)
    ensures Saveable(item.WithPosition(p), isBE)
  {
    var r := item.WithPosition(p);
    if item.posrec.Attached? {
      var k := item.posrec.index;
      forall i | 0 <= i < |r.details| ensures r.details[i].Saveable() {
        if i != k { assert r.details[i] == item.details[i]; }
      }
      DetailsSameLength(item.details, r.details, k, isBE);
    }
  }

  /** Changing one position detail's position keeps the saved length. */
  lemma DetailsSameLength(a: seq<Detail>, b: seq<Detail>, k: nat, isBE: bool)
    requires |a| == |b| && k < |a| && AllSaveable(a) && AllSaveable(b)
    requires a[k].PositionDetail? && b[k].PositionDetail?
    requires forall i :: 0 <= i < |a| && i != k ==> a[i] == b[i]
    ensures |SaveDetails(a, isBE)| == |SaveDetails(b, isBE)|
  {
    var pa, pb := DetailParts(a, isBE), DetailParts(b, isBE);
    assert |pa[k]| == |pb[k]|;
    forall i | 0 <= i < |a| ensures |pa[i]| == |pb[i]| {
      if i != k { assert pa[i] == pb[i]; }
    }
    ConcatSameLength(pa, pb);
  }
}
