// The entry of a playlist ("mhip"): a track id, a timestamp and the details that belong to
// the entry, one of which (a Misc detail) holds the entry's position in the playlist.
module PlaylistItems {
  import opened Wrappers
  import opened Binary
  import opened Details

  const ItemTag: string := "mhip"

  lemma ItemTagIsTag()
    ensures IsTag(ItemTag)
  {
  }

  /** The detail the entry's Position reads and writes: one of its details, or, when none
    * of the details read from a file is a Misc detail, the one the constructor made, which
    * is no longer among the details and is never saved. */
  datatype PositionRef = Attached(index: nat) | Detached(position: Int32)

  datatype PlaylistItem = PlaylistItem(unknownOne: Int32, unknownTwo: Int32, trackId: Int32,
                                       timestamp: Int32, details: seq<Detail>, posrec: PositionRef)
  {
    predicate Valid()
    {
      posrec.Attached? ==> posrec.index < |details| && details[posrec.index].PositionDetail?
    }

    function Position(): Int32
      requires Valid()
    {
      match posrec
      case Attached(i) => details[i].position
      case Detached(p) => p
    }

    /** The Position setter: only the position detail changes. */
    function WithPosition(p: Int32): (r: PlaylistItem)
      requires Valid()
      ensures r.Valid() && r.Position() == p
      ensures r.trackId == trackId && r.timestamp == timestamp && r.posrec.Attached? == posrec.Attached?
      ensures |r.details| == |details|
      ensures forall i :: 0 <= i < |details| && !(posrec.Attached? && i == posrec.index) ==> r.details[i] == details[i]
    {
      match posrec
      case Attached(i) =>
        var d := details[i];
        this.(details := details[i := PositionDetail(d.unknownOne, d.unknownTwo, p)])
      case Detached(_) => this.(posrec := Detached(p))
    }
  }

  /** `new PlaylistItemRecord`: one Misc detail at position 1, which is the position detail. */
  function NewItem(): (item: PlaylistItem)
    ensures item.Valid() && item.Position() == 1 && item.posrec == PositionAfterRead(item.details)
    ensures item.trackId == 0 && item.timestamp == 0 && |item.details| == 1
  {
    var ds := [PositionDetail(0, 0, 1)];
    assert LastPosition(ds) == Some(0);
    PlaylistItem(0, 0, 0, 0, ds, Attached(0))
  }

  /** The index of the last Misc detail, if any. */
  function LastPosition(ds: seq<Detail>): (r: Option<nat>)
    ensures r.Some? <==> exists i :: 0 <= i < |ds| && ds[i].PositionDetail?
    ensures r.Some? ==> r.value < |ds| && ds[r.value].PositionDetail?
    ensures r.Some? ==> forall j :: r.value < j < |ds| ==> !ds[j].PositionDetail?
  {
    if ds == [] then None
    else if ds[|ds| - 1].PositionDetail? then Some(|ds| - 1)
    else LastPosition(ds[..|ds| - 1])
  }

  /** After reading, Position refers to the last Misc detail read, or, when there is none,
    * to the constructor's detail, at position 1. */
  function PositionAfterRead(ds: seq<Detail>): PositionRef
  {
    match LastPosition(ds)
    case Some(i) => Attached(i)
    case None => Detached(1)
  }

  /** An entry as reading one leaves it. */
  predicate AsRead(item: PlaylistItem)
  {
    item.posrec == PositionAfterRead(item.details)
  }

  /** Setting the position of an entry keeps it the way reading would leave it, except when
    * the position detail is the detached one: its position is never saved, and reading
    * restores it to 1. */
  lemma WithPositionAsRead(item: PlaylistItem, p: Int32)
    requires AsRead(item)
    ensures item.Valid()
    ensures AsRead(item.WithPosition(p)) <==> item.posrec.Attached? || p == 1
  {
    var r := item.WithPosition(p);
    if item.posrec.Attached? {
      var i := item.posrec.index;
      assert forall j :: 0 <= j < |r.details| ==> (r.details[j].PositionDetail? <==> item.details[j].PositionDetail?);
      LastPositionSameKinds(item.details, r.details);
    }
  }

  lemma {:induction false} LastPositionSameKinds(a: seq<Detail>, b: seq<Detail>)
    requires |a| == |b|
    requires forall j :: 0 <= j < |a| ==> (a[j].PositionDetail? <==> b[j].PositionDetail?)
    ensures LastPosition(a) == LastPosition(b)
  {
    if a != [] {
      LastPositionSameKinds(a[..|a| - 1], b[..|b| - 1]);
    }
  }

  predicate Saveable(item: PlaylistItem, isBE: bool)
  {
    |item.details| < 0x8000_0000 && AllSaveable(item.details)
    && 40 + |SaveDetails(item.details, isBE)| < 0x8000_0000
  }

  /** The 28 bytes after the header: detail count, two unknowns, track id, timestamp, padding. */
  function ItemFields(count: Int32, u1: Int32, u2: Int32, trackId: Int32, timestamp: Int32,
                      isBE: bool): (r: Bytes)
    ensures |r| == 28
  {
    Int32s([count, u1, u2, trackId, timestamp], isBE) + Zeros(8)
  }

  lemma ItemFieldsRead(count: Int32, u1: Int32, u2: Int32, trackId: Int32, timestamp: Int32,
                       isBE: bool, tail: Bytes)
    ensures var b := ItemFields(count, u1, u2, trackId, timestamp, isBE) + tail;
      ToInt32(b, 0, isBE) == count && ToInt32(b, 4, isBE) == u1 && ToInt32(b, 8, isBE) == u2
      && ToInt32(b, 12, isBE) == trackId && ToInt32(b, 16, isBE) == timestamp
  {
    var xs := [count, u1, u2, trackId, timestamp];
    Assoc(Int32s(xs, isBE), Zeros(8), tail);
    Int32sRead(xs, isBE, Zeros(8) + tail, 0);
    Int32sRead(xs, isBE, Zeros(8) + tail, 1);
    Int32sRead(xs, isBE, Zeros(8) + tail, 2);
    Int32sRead(xs, isBE, Zeros(8) + tail, 3);
    Int32sRead(xs, isBE, Zeros(8) + tail, 4);
  }

  /** HeaderTwo of a saved entry: from version 13 on the details count as its children. */
  function ItemHeaderTwo(childrenLength: nat, version: int): int
  {
    if version >= 13 then 40 + childrenLength else 40
  }

  /** The bytes of a saved entry: header (HeaderOne 40), fields, details. */
  function ItemBytes(item: PlaylistItem, version: int, isBE: bool): (r: Bytes)
    requires Saveable(item, isBE)
  {
    var children := SaveDetails(item.details, isBE);
    WriteHeader(ItemTag, 40, ItemHeaderTwo(|children|, version), isBE)
      + (ItemFields(|item.details|, item.unknownOne, item.unknownTwo, item.trackId, item.timestamp, isBE)
         + children)
  }

  /** `PlaylistItemRecord.Save`: the details are saved one by one and their bytes collected
    * after the entry's own fields. */
  method SaveItem(item: PlaylistItem, version: int, isBE: bool) returns (r: Bytes)
    requires Saveable(item, isBE)
    ensures r == ItemBytes(item, version, isBE)
  {
    var childrenData := SaveChildren(item.details, isBE);
    r := WriteHeader(ItemTag, 40, ItemHeaderTwo(|childrenData|, version), isBE)
      + (ItemFields(|item.details|, item.unknownOne, item.unknownTwo, item.trackId, item.timestamp, isBE)
         + childrenData);
  }

  // `PlaylistItemRecord.Save` as the source writes it. `SaveChild` hands back, for each
  // detail, the whole buffer of the stream the detail was saved into: at least as long as
  // the detail, zero past its end. The loop collects those buffers whole, and only the
  // first childrenLength bytes of the collection are written. The buffer sizes are chosen
  // by the stream library and are a parameter here.

  /** A saved detail in its buffer: its bytes, then zeros up to cap. */
  function Padded(part: Bytes, cap: nat): (r: Bytes)
    requires cap >= |part|
    ensures |r| == cap && r[..|part|] == part
    ensures forall i :: |part| <= i < cap ==> r[i] == 0
  {
    part + Zeros(cap - |part|)
  }

  /** Each buffer holds at least its part. */
  predicate Fits(parts: seq<Bytes>, caps: seq<nat>)
  {
    |caps| == |parts| && forall i :: 0 <= i < |parts| ==> caps[i] >= |parts[i]|
  }

  /** The buffers collected one after another: at least as long as the parts back to back. */
  function PaddedConcat(parts: seq<Bytes>, caps: seq<nat>): (r: Bytes)
    requires Fits(parts, caps)
    ensures |r| >= |Concat(parts)|
  {
    if parts == [] then []
    else Padded(parts[0], caps[0]) + PaddedConcat(parts[1..], caps[1..])
  }

  /** The collected buffers start with the whole first buffer. */
  lemma PaddedConcatStart(parts: seq<Bytes>, caps: seq<nat>)
    requires Fits(parts, caps) && parts != []
    ensures |PaddedConcat(parts, caps)| >= caps[0]
    ensures PaddedConcat(parts, caps)[..caps[0]] == Padded(parts[0], caps[0])
  {
    var first := Padded(parts[0], caps[0]);
    assert (first + PaddedConcat(parts[1..], caps[1..]))[..caps[0]] == first;
  }

  lemma {:induction false} PaddedConcatAppend(parts: seq<Bytes>, caps: seq<nat>, p: Bytes, cap: nat)
    requires Fits(parts, caps) && cap >= |p|
    ensures Fits(parts + [p], caps + [cap])
    ensures PaddedConcat(parts + [p], caps + [cap]) == PaddedConcat(parts, caps) + Padded(p, cap)
  {
    var ps, cs := parts + [p], caps + [cap];
    assert Fits(ps, cs) by {
      forall i | 0 <= i < |ps| ensures cs[i] >= |ps[i]| {
        if i < |parts| {
          assert ps[i] == parts[i] && cs[i] == caps[i];
        }
      }
    }
    if parts == [] {
      assert ps == [p] && cs == [cap];
      assert PaddedConcat(ps, cs) == Padded(p, cap) + PaddedConcat([], []);
    } else {
      assert ps[1..] == parts[1..] + [p] && cs[1..] == caps[1..] + [cap];
      PaddedConcatAppend(parts[1..], caps[1..], p, cap);
      assert PaddedConcat(ps, cs) == Padded(parts[0], caps[0]) + PaddedConcat(ps[1..], cs[1..]);
    }
  }

  /** The bytes the source saves for an entry whose details went through buffers of sizes
    * caps: HeaderTwo counts the details' own bytes, and that many bytes of the collected
    * buffers follow the fields. */
  function ItemBytesAsWritten(item: PlaylistItem, caps: seq<nat>, version: int, isBE: bool): (r: Bytes)
    requires Saveable(item, isBE) && Fits(DetailParts(item.details, isBE), caps)
  {
    var n := |SaveDetails(item.details, isBE)|;
    WriteHeader(ItemTag, 40, ItemHeaderTwo(n, version), isBE)
      + (ItemFields(|item.details|, item.unknownOne, item.unknownTwo, item.trackId, item.timestamp, isBE)
         + PaddedConcat(DetailParts(item.details, isBE), caps)[..n])
  }

  /** `PlaylistItemRecord.Save` as the source writes it, given the size of each detail's
    * buffer. */
  method SaveItemAsWritten(item: PlaylistItem, caps: seq<nat>, version: int, isBE: bool) returns (r: Bytes)
    requires Saveable(item, isBE) && Fits(DetailParts(item.details, isBE), caps)
    ensures r == ItemBytesAsWritten(item, caps, version, isBE)
  {
    var childrenLength, childrenData := CollectBuffers(DetailParts(item.details, isBE), caps);
    r := WriteHeader(ItemTag, 40, ItemHeaderTwo(childrenLength, version), isBE)
      + (ItemFields(|item.details|, item.unknownOne, item.unknownTwo, item.trackId, item.timestamp, isBE)
         + childrenData[..childrenLength]);
  }

  /** The loop of `PlaylistItemRecord.Save`: for each detail, saved as parts[i] into a buffer
    * of caps[i] bytes, the length is added up and the whole buffer appended. */
  method CollectBuffers(parts: seq<Bytes>, caps: seq<nat>) returns (childrenLength: nat, childrenData: Bytes)
    requires Fits(parts, caps)
    ensures childrenLength == |Concat(parts)| && childrenData == PaddedConcat(parts, caps)
  {
    childrenLength := 0;
    childrenData := [];
    var i := 0;
    while i < |parts|
      invariant 0 <= i <= |parts|
      invariant Fits(parts[..i], caps[..i])
      invariant childrenLength == |Concat(parts[..i])|
      invariant childrenData == PaddedConcat(parts[..i], caps[..i])
    {
      var childLength := |parts[i]|;
      var childData := Padded(parts[i], caps[i]);
      PrefixSnoc(parts, i);
      PrefixSnoc(caps, i);
      ConcatAppend(parts[..i], parts[i]);
      PaddedConcatAppend(parts[..i], caps[..i], parts[i], caps[i]);
      childrenLength := childrenLength + childLength;
      childrenData := childrenData + childData;
      i := i + 1;
    }
    assert parts[..i] == parts && caps[..i] == caps;
  }

  /** With at most one detail no padding is written: the source saves what ItemBytes
    * describes. */
  lemma SingleDetailAsWritten(item: PlaylistItem, caps: seq<nat>, version: int, isBE: bool)
    requires Saveable(item, isBE) && Fits(DetailParts(item.details, isBE), caps) && |item.details| <= 1
    ensures ItemBytesAsWritten(item, caps, version, isBE) == ItemBytes(item, version, isBE)
  {
    var parts := DetailParts(item.details, isBE);
    if |parts| == 1 {
      assert Concat(parts) == parts[0] + Concat(parts[1..]) && parts[1..] == [];
    }
  }

  /** With two or more details and a first buffer at least four bytes longer than the first
    * detail, the entry the source saves does not read back: after the first detail the
    * reader meets the buffer's zeros where the second detail's tag should be. */
  lemma ItemAsWrittenMisread(item: PlaylistItem, caps: seq<nat>, version: int, isBE: bool, rest: Bytes)
    requires Saveable(item, isBE) && Fits(DetailParts(item.details, isBE), caps)
    requires |item.details| >= 2 && caps[0] >= |SaveDetail(item.details[0], isBE)| + 4
    ensures ReadItem(ItemBytesAsWritten(item, caps, version, isBE) + rest, isBE).Failure?
  {
    ItemTagIsTag();
    var ds := item.details;
    var parts := DetailParts(ds, isBE);
    var n := |SaveDetails(ds, isBE)|;
    var children := PaddedConcat(parts, caps)[..n];
    TwoDetailsLength(ds, isBE);
    var t := PaddedChildren(parts, caps, n, rest);
    DetailRoundTrip(ds[0], isBE, t);
    ZeroTagFails(t, isBE);
    SecondDetailFails(children + rest, ds[0], t, |ds|, isBE);
    Regroup(WriteHeader(ItemTag, 40, ItemHeaderTwo(n, version), isBE),
            ItemFields(|ds|, item.unknownOne, item.unknownTwo, item.trackId, item.timestamp, isBE), children, rest);
    ItemFailsWithDetails(ItemHeaderTwo(n, version), |ds|, item.unknownOne, item.unknownTwo, item.trackId,
                         item.timestamp, children + rest, isBE);
  }

  /** An entry whose details cannot be read cannot be read. */
  lemma ItemFailsWithDetails(h2: Int32, count: Int32, u1: Int32, u2: Int32, trackId: Int32, timestamp: Int32,
                             tail: Bytes, isBE: bool)
    requires ReadDetails(tail, count, isBE).Failure?
    ensures ReadItem(WriteHeader(ItemTag, 40, h2, isBE) + (ItemFields(count, u1, u2, trackId, timestamp, isBE)
                     + tail), isBE).Failure?
  {
    var fields := ItemFields(count, u1, u2, trackId, timestamp, isBE);
    ReadItemHeader(h2, fields, tail, isBE);
    ItemFieldsRead(count, u1, u2, trackId, timestamp, isBE, []);
    assert fields + [] == fields;
  }

  /** Two or more saved details take the first one's bytes and at least 24 more. */
  lemma TwoDetailsLength(ds: seq<Detail>, isBE: bool)
    requires AllSaveable(ds) && |ds| >= 2
    ensures DetailParts(ds, isBE)[0] == SaveDetail(ds[0], isBE)
    ensures |SaveDetails(ds, isBE)| >= |SaveDetail(ds[0], isBE)| + 24
  {
    var parts := DetailParts(ds, isBE);
    assert Concat(parts) == parts[0] + (parts[1] + Concat(parts[2..])) by {
      assert parts[1..][0] == parts[1] && parts[1..][1..] == parts[2..];
    }
    SavedDetailLengths(ds[1], isBE);
  }

  /** The first n bytes of the collected buffers, followed by anything: the first part, then
    * at least four zeros, which the function returns with what follows them. */
  lemma PaddedChildren(parts: seq<Bytes>, caps: seq<nat>, n: nat, rest: Bytes) returns (t: Bytes)
    requires Fits(parts, caps) && |parts| >= 1 && caps[0] >= |parts[0]| + 4
    requires |parts[0]| + 4 <= n <= |PaddedConcat(parts, caps)|
    ensures PaddedConcat(parts, caps)[..n] + rest == parts[0] + t
    ensures |t| >= 4 && forall k :: 0 <= k < 4 ==> t[k] == 0
  {
    var buffers := PaddedConcat(parts, caps);
    PaddedConcatStart(parts, caps);
    var tail := buffers[..n] + rest;
    var d0 := parts[0];
    t := tail[|d0|..];
    assert tail[..|d0|] == buffers[..caps[0]][..|d0|] == d0;
    assert tail == d0 + t;
    forall k | 0 <= k < 4 ensures t[k] == 0 {
      assert t[k] == buffers[..caps[0]][|d0| + k];
    }
  }

  /** A detail cannot be read where four zero bytes stand for its tag. */
  lemma ZeroTagFails(t: Bytes, isBE: bool)
    requires |t| >= 4 && forall k :: 0 <= k < 4 ==> t[k] == 0
    ensures ReadDetail(t, isBE).Failure?
  {
    var four := MaybeSwap(t[..4], isBE);
    assert four[0] == 0;
    assert ReadTag(t, isBE)[0] == '\0' != DetailTag[0];
  }

  /** A list of two or more details fails when the second one cannot be read. */
  lemma SecondDetailFails(s: Bytes, d: Detail, t: Bytes, count: int, isBE: bool)
    requires count >= 2 && ReadDetail(s, isBE) == Success(Parsed(d, t)) && ReadDetail(t, isBE).Failure?
    ensures ReadDetails(s, count, isBE).Failure?
  {
    assert ReadDetails(t, count - 1, isBE).Failure?;
  }

  /** HeaderOne of a saved entry is 40; HeaderTwo is the whole entry from version 13 on and
    * 40 before. */
  lemma ItemLengths(item: PlaylistItem, version: int, isBE: bool)
    requires Saveable(item, isBE)
    ensures var r := ItemBytes(item, version, isBE);
      |r| == 40 + |SaveDetails(item.details, isBE)| && ToInt32(r, 4, isBE) == 40
      && ToInt32(r, 8, isBE) == (if version >= 13 then |r| else 40)
  {
    var children := SaveDetails(item.details, isBE);
    var header := WriteHeader(ItemTag, 40, ItemHeaderTwo(|children|, version), isBE);
    var tail := ItemFields(|item.details|, item.unknownOne, item.unknownTwo, item.trackId, item.timestamp, isBE)
      + children;
    Int32OfPrefix(header, tail, 4, isBE);
    Int32OfPrefix(header, tail, 8, isBE);
  }

  /** `PlaylistItemRecord.Read`: the body is HeaderOne - 12 bytes, the details follow it. */
  function ReadItem(s: Bytes, isBE: bool): (r: Read<Parsed<PlaylistItem>>)
    ensures r.Success? ==> AsRead(r.value.value) && r.value.value.Valid()
  {
    var h :- ReadHeader(s, Some(ItemTag), isBE);
    var b :- ReadBytes(h.rest, h.value.headerOne - 12);
    ItemFromBody(b.value, b.rest, isBE)
  }

  /** The fields of an entry from its body, and its details from the stream after it. */
  function ItemFromBody(body: Bytes, s: Bytes, isBE: bool): (r: Read<Parsed<PlaylistItem>>)
    ensures r.Success? ==> AsRead(r.value.value) && r.value.value.Valid()
  {
    if |body| < 20 then Failure(IndexOutOfRange)
    else
      var ds :- ReadDetails(s, ToInt32(body, 0, isBE), isBE);
      var item := PlaylistItem(ToInt32(body, 4, isBE), ToInt32(body, 8, isBE), ToInt32(body, 12, isBE),
                               ToInt32(body, 16, isBE), ds.value, PositionAfterRead(ds.value));
      Success(Parsed(item, ds.rest))
  }

  lemma ReadItemHeader(h2: Int32, fields: Bytes, tail: Bytes, isBE: bool)
    requires |fields| == 28
    ensures ReadItem(WriteHeader(ItemTag, 40, h2, isBE) + (fields + tail), isBE) == ItemFromBody(fields, tail, isBE)
  {
    HeaderRoundTrip(ItemTag, 40, h2, isBE, fields + tail);
    assert (fields + tail)[..28] == fields;
    assert (fields + tail)[28..] == tail;
  }

  lemma ItemFromFields(count: Int32, u1: Int32, u2: Int32, trackId: Int32, timestamp: Int32,
                       children: Bytes, ds: seq<Detail>, isBE: bool, rest: Bytes)
    requires ReadDetails(children + rest, count, isBE) == Success(Parsed(ds, rest))
    ensures ItemFromBody(ItemFields(count, u1, u2, trackId, timestamp, isBE), children + rest, isBE)
         == Success(Parsed(PlaylistItem(u1, u2, trackId, timestamp, ds, PositionAfterRead(ds)), rest))
  {
    var fields := ItemFields(count, u1, u2, trackId, timestamp, isBE);
    ItemFieldsRead(count, u1, u2, trackId, timestamp, isBE, []);
    assert fields + [] == fields;
  }

  /** Reading an entry whose fields are followed by bytes from which count details read. */
  lemma ReadFramedItem(h2: Int32, count: Int32, u1: Int32, u2: Int32, trackId: Int32, timestamp: Int32,
                       children: Bytes, ds: seq<Detail>, isBE: bool, rest: Bytes)
    requires ReadDetails(children + rest, count, isBE) == Success(Parsed(ds, rest))
    ensures ReadItem(WriteHeader(ItemTag, 40, h2, isBE) + (ItemFields(count, u1, u2, trackId, timestamp, isBE)
                     + children) + rest, isBE)
         == Success(Parsed(PlaylistItem(u1, u2, trackId, timestamp, ds, PositionAfterRead(ds)), rest))
  {
    var fields := ItemFields(count, u1, u2, trackId, timestamp, isBE);
    Regroup(WriteHeader(ItemTag, 40, h2, isBE), fields, children, rest);
    ReadItemHeader(h2, fields, children + rest, isBE);
    ItemFromFields(count, u1, u2, trackId, timestamp, children, ds, isBE, rest);
  }

  /** Reading a saved entry gives it back, whatever the version and however many details it
    * has, when its position detail is the one reading picks. */
  lemma ItemRoundTrip(item: PlaylistItem, version: int, isBE: bool, rest: Bytes)
    requires Saveable(item, isBE) && AsRead(item)
    ensures ReadItem(ItemBytes(item, version, isBE) + rest, isBE) == Success(Parsed(item, rest))
  {
    var children := SaveDetails(item.details, isBE);
    DetailsRoundTrip(item.details, isBE, rest);
    ReadFramedItem(ItemHeaderTwo(|children|, version), |item.details|, item.unknownOne, item.unknownTwo,
                   item.trackId, item.timestamp, children, item.details, isBE, rest);
  }
}
