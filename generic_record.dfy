// A record whose layout the database code does not interpret: read as header plus raw
// bytes and written back verbatim.
module GenericRecords {
  import opened Wrappers
  import opened Binary

  datatype GenericRecord = GenericRecord(name: string, headerOne: Int32, headerTwo: Int32, data: Bytes)
  {
    /** The header announces exactly the data that follows it. */
    predicate Framed()
    {
      IsTag(name) && headerTwo == 12 + |data|
    }
  }

  /** Any tag is accepted; the data is HeaderTwo - 12 bytes. */
  function ReadGeneric(s: Bytes, isBE: bool): (r: Read<Parsed<GenericRecord>>)
  {
    var h :- ReadHeader(s, None, isBE);
    var b :- ReadBytes(h.rest, h.value.headerTwo - 12);
    Success(Parsed(GenericRecord(h.value.name, h.value.headerOne, h.value.headerTwo, b.value), b.rest))
  }

  function SaveGeneric(g: GenericRecord, isBE: bool): (r: Bytes)
    requires IsTag(g.name)
    ensures |r| == 12 + |g.data|
  {
    WriteHeader(g.name, g.headerOne, g.headerTwo, isBE) + g.data
  }

  /** A record read from a stream that does not end inside it has a proper tag and is framed. */
  lemma ReadGenericFramed(s: Bytes, isBE: bool)
    requires ReadGeneric(s, isBE).Success?
    ensures var p := ReadGeneric(s, isBE).value;
      IsTag(p.value.name) && (p.rest != [] ==> p.value.Framed())
  {
    var h := ReadHeader(s, None, isBE).value;
    assert |h.value.name| == 4;
  }

  lemma GenericRoundTrip(g: GenericRecord, isBE: bool, rest: Bytes)
    requires g.Framed()
    ensures ReadGeneric(SaveGeneric(g, isBE) + rest, isBE) == Success(Parsed(g, rest))
  {
    var header := WriteHeader(g.name, g.headerOne, g.headerTwo, isBE);
    assert header + g.data + rest == header + (g.data + rest);
    AnyHeaderRoundTrip(g.name, g.headerOne, g.headerTwo, isBE, g.data + rest);
    assert (g.data + rest)[..|g.data|] == g.data;
    assert (g.data + rest)[|g.data|..] == rest;
  }

  /** Saving a record just read reproduces the stream it came from, when its tag is ASCII. */
  lemma GenericVerbatim(s: Bytes, isBE: bool)
    requires ReadGeneric(s, isBE).Success?
    requires |s| >= 4 && forall i :: 0 <= i < 4 ==> s[i] < 128
    ensures var p := ReadGeneric(s, isBE).value;
      IsTag(p.value.name) && SaveGeneric(p.value, isBE) + p.rest == s
  {
    var p := ReadGeneric(s, isBE).value;
    GenericSplit(s, isBE);
    HeaderVerbatim(s, isBE);
    assert SaveGeneric(p.value, isBE) + p.rest == s[..12] + p.value.data + p.rest;
  }

  /** A record read whole: the first twelve bytes are its header, the data follows them. */
  lemma GenericSplit(s: Bytes, isBE: bool)
    requires ReadGeneric(s, isBE).Success?
    ensures var p := ReadGeneric(s, isBE).value;
      |s| >= 12 && p.value.name == ReadTag(s, isBE)
      && p.value.headerOne == ToInt32(s, 4, isBE) && p.value.headerTwo == ToInt32(s, 8, isBE)
      && s == s[..12] + p.value.data + p.rest
  {
    var h := ReadHeader(s, None, isBE).value;
    assert s == s[..12] + s[12..];
  }
}
