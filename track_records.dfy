// The track record as the database holds it (`TrackRecord`, TrackDatabase.cs:815-1152):
// an object whose fields and list of details its methods change in place. Its contents
// at any moment are a TrackValue, and every method is specified by what it does to that
// value.
module TrackRecords {
  import opened Wrappers
  import opened Binary
  import opened Details
  import opened Lists
  import opened Tracks

  /** The index of the first detail of the given type code, or -1. */
  function FindDetail(ds: seq<Detail>, code: Int32): (k: int)
    ensures -1 <= k < |ds|
    ensures k >= 0 ==> ds[k].Type() == code && forall j :: 0 <= j < k ==> ds[j].Type() != code
    ensures k == -1 <==> forall j :: 0 <= j < |ds| ==> ds[j].Type() != code
  {
    if ds == [] then -1
    else if ds[0].Type() == code then 0
    else
      var k := FindDetail(ds[1..], code);
      if k < 0 then -1 else k + 1
  }

  /** `new DetailRecord (isbe)` with its Type set to code: position 1, unknown fields 0,
    * and an empty value where the source leaves the value null. */
  function FreshDetail(code: Int32): (d: Detail)
    ensures d.Type() == code
    ensures (code < 50 && code != ChapterData) ==> ValueOf(d) == Some("")
  {
    if code == PodcastUrl || code == PodcastUrl2 then UrlDetail(code, 0, 0, "")
    else if code == ChapterData then ChapterDetail(0, 0, [])
    else if code == PlaylistData then PlaylistDataDetail(0, 0)
    else if code == LibraryIndex then LibraryIndexDetail(0, 0, 0)
    else if code == Misc then PositionDetail(0, 0, 1)
    else StringDetail(code, 0, 0, 1, 0, "")
  }

  /** The details after `GetDetail (code)`: unchanged when one of that type is there, the
    * fresh detail added last otherwise. */
  function WithDetail(ds: seq<Detail>, code: Int32): (r: seq<Detail>)
    ensures FindDetail(ds, code) >= 0 ==> r == ds
    ensures FindDetail(ds, code) < 0 ==> r == ds + [FreshDetail(code)]
  {
    if FindDetail(ds, code) >= 0 then ds else ds + [FreshDetail(code)]
  }

  /** After `GetDetail`, a detail of the type is there and is the first of its type, and
    * nothing else has changed; a second `GetDetail` finds it and adds nothing. */
  lemma WithDetailFinds(ds: seq<Detail>, code: Int32)
    ensures var r := WithDetail(ds, code);
      FindDetail(r, code) >= 0 && r[..|ds|] == ds && |r| <= |ds| + 1
      && WithDetail(r, code) == r
      && (FindDetail(ds, code) >= 0 ==> FindDetail(r, code) == FindDetail(ds, code))
  {
    var r := WithDetail(ds, code);
    if FindDetail(ds, code) < 0 {
      assert r[|ds|] == FreshDetail(code);
      assert forall j :: 0 <= j < |ds| ==> r[j] == ds[j];
    }
  }

  class TrackRecord {
    const isBE: bool
    /** Every field the record keeps, grouped as the body stores them. */
    var fields: TrackFields
    /** `details`, in order. */
    var details: seq<Detail>

    /** The record's contents. */
    function Value(): TrackValue
      reads this
    {
      TrackValue(fields, details)
    }

    /** `new TrackRecord (isbe)`: the field initialisers and no details. */
    constructor(isBE: bool)
      ensures this.isBE == isBE
      ensures Value() == TrackValue(DefaultFields(), [])
    {
      this.isBE := isBE;
      fields := DefaultFields();
      details := [];
    }

    /** `AddDetail`: the detail goes last. */
    method AddDetail(d: Detail)
      modifies this`details
      ensures details == old(details) + [d]
    {
      details := details + [d];
    }

    /** `RemoveDetail`: `List.Remove`, the first occurrence goes. */
    method RemoveDetail(d: Detail)
      modifies this`details
      ensures details == RemoveFirst(old(details), d)
    {
      var i := 0;
      while i < |details| && details[i] != d
        invariant 0 <= i <= |details|
        invariant d !in details[..i]
      {
        assert details[..i + 1] == details[..i] + [details[i]];
        i := i + 1;
      }
      if i < |details| {
        assert FirstIndex(details, d) == i;
        details := details[..i] + details[i + 1..];
      } else {
        assert details[..i] == details;
      }
    }

    /** `GetDetail`: the index of the first detail of the type; when there is none, a
      * fresh detail of the type is added and its index comes back. */
    method GetDetail(code: Int32) returns (k: nat)
      modifies this`details
      ensures details == WithDetail(old(details), code)
      ensures k == FindDetail(details, code)
      ensures k < |details| && details[k].Type() == code
    {
      var i := 0;
      while i < |details|
        invariant 0 <= i <= |details| && details == old(details)
        invariant forall j :: 0 <= j < i ==> details[j].Type() != code
      {
        if details[i].Type() == code {
          return i;
        }
        i := i + 1;
      }
      var rec := FreshDetail(code);
      AddDetail(rec);
      WithDetailFinds(old(details), code);
      return |details| - 1;
    }

    /** `detail.Value = value` on the detail at index k, as the property setters of a
      * track do with the detail GetDetail gave them. */
    method SetValueAt(k: nat, value: string)
      requires k < |details|
      modifies this`details
      ensures details == old(details)[k := WithValue(old(details)[k], value)]
    {
      details := details[k := WithValue(details[k], value)];
    }

    /** `Save`: the details are saved first, then the header, the body and the details.
      * HeaderOne is the length of the header and body written, as TrackRoundTrip needs. */
    method Save(version: int) returns (bytes: Bytes)
      requires TrackSaveable(Value(), isBE)
      ensures bytes == EncodeTrack(Value(), version, isBE)
    {
      var children := SaveChildren(details, isBE);
      var body := TrackBody(fields, |details|, version, isBE);
      bytes := Frame(TrackHeaderOne(version), body, children, isBE);
    }

    /** `Read`: the header, HeaderOne - 12 body bytes, the fields from the body, then as
      * many details as the body's first field says, replacing the old ones. */
    method Read(s: Bytes, version: int) returns (r: Read<Bytes>)
      modifies this`fields, this`details
      ensures var p := ReadTrack(s, old(fields), version, isBE);
        (r.Success? <==> p.Success?)
        && (p.Success? ==> r.value == p.value.rest && Value() == p.value.value)
        && (p.Failure? ==> Value() == old(Value()))
    {
      var h := ReadHeader(s, Some(TrackTag), isBE);
      if h.Failure? {
        return Failure(h.error);
      }
      var b := ReadBytes(h.value.rest, h.value.value.headerOne - 12);
      if b.Failure? {
        return Failure(b.error);
      }
      var body := b.value.value;
      ReadTrackBody(s, fields, version, isBE, body, b.value.rest);
      if !LongEnough(body, version) {
        return Failure(IndexOutOfRange);
      }
      var d := ReadList(DetailReader(isBE), b.value.rest, ToInt32(body, 0, isBE));
      if d.Failure? {
        return Failure(d.error);
      }
      fields := FieldsOf(body, fields, version, isBE);
      details := d.value.value;
      return Success(d.value.rest);
    }
  }

  /** Once the header and the body are read, what is left is reading from the body. */
  lemma ReadTrackBody(s: Bytes, p: TrackFields, version: int, isBE: bool, body: Bytes, tail: Bytes)
    requires ReadHeader(s, Some(TrackTag), isBE).Success?
    requires ReadBytes(ReadHeader(s, Some(TrackTag), isBE).value.rest,
                       ReadHeader(s, Some(TrackTag), isBE).value.value.headerOne - 12) == Success(Parsed(body, tail))
    ensures ReadTrack(s, p, version, isBE) == TrackFromBody(body, tail, p, version, isBE)
  {
  }
}
