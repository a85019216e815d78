/** `DetailRecord` (tag "mhod"): the string, URL, chapter, playlist-data, library-index and
  * position children of tracks, playlists and playlist items (TrackDatabase.cs:622-808). */
module Details {
  import opened Wrappers
  import opened Binary
  import opened Text

  // DetailType codes (TrackDatabase.cs:622-641). The field is an int in the file, so any
  // code can occur; the named ones are those the program gives a meaning to.
  const Title: Int32 := 1
  const Location: Int32 := 2
  const Album: Int32 := 3
  const Artist: Int32 := 4
  const Genre: Int32 := 5
  const Filetype: Int32 := 6
  const Comment: Int32 := 8
  const PodcastUrl: Int32 := 15
  const PodcastUrl2: Int32 := 16
  const ChapterData: Int32 := 17
  const PlaylistData: Int32 := 50
  const LibraryIndex: Int32 := 52
  const Misc: Int32 := 100

  const DetailTag: string := "mhod"

  /** A detail as the program holds it after reading or creating it. Which fields matter
    * depends on the type code, so each family of codes is its own constructor. */
  datatype Detail =
    | StringDetail(code: Int32, unknownOne: Int32, unknownTwo: Int32, position: Int32,
                   unknownThree: Int32, value: string)
    | UrlDetail(code: Int32, unknownOne: Int32, unknownTwo: Int32, value: string)
    | ChapterDetail(unknownOne: Int32, unknownTwo: Int32, data: Bytes)
    | PlaylistDataDetail(unknownOne: Int32, unknownTwo: Int32)
    | LibraryIndexDetail(unknownOne: Int32, unknownTwo: Int32, indexType: Int32)
    | PositionDetail(unknownOne: Int32, unknownTwo: Int32, position: Int32)
  {
    /** The DetailType code stored in the record. */
    function Type(): Int32
    {
      match this
      case StringDetail(code, _, _, _, _, _) => code
      case UrlDetail(code, _, _, _) => code
      case ChapterDetail(_, _, _) => ChapterData
      case PlaylistDataDetail(_, _) => PlaylistData
      case LibraryIndexDetail(_, _, _) => LibraryIndex
      case PositionDetail(_, _, _) => Misc
    }

    /** The code agrees with the constructor, and every length the record stores fits an
      * int. A library-index detail never has its index list built (that code is disabled),
      * so saving one dereferences null: it is not saveable. */
    predicate Saveable()
    {
      match this
      case StringDetail(code, _, _, _, _, value) =>
        code < 50 && code != PodcastUrl && code != PodcastUrl2 && code != ChapterData
        && 40 + |Utf8Encode(value)| < 0x8000_0000 && 40 + |Utf16Encode(value)| < 0x8000_0000
      case UrlDetail(code, _, _, value) =>
        (code == PodcastUrl || code == PodcastUrl2) && 24 + |Utf8Encode(value)| < 0x8000_0000
      case ChapterDetail(_, _, data) => 24 + |data| < 0x8000_0000
      case PlaylistDataDetail(_, _) => true
      case LibraryIndexDetail(_, _, _) => false
      case PositionDetail(_, _, _) => true
    }
  }

  /** The Value field: held by string and URL details only. */
  function ValueOf(d: Detail): (r: Option<string>)
    ensures r.Some? <==> d.StringDetail? || d.UrlDetail?
  {
    match d
    case StringDetail(_, _, _, _, _, value) => Some(value)
    case UrlDetail(_, _, _, value) => Some(value)
    case _ => None
  }

  /** Setting the Value field of a string or URL detail; the other kinds do not keep it. */
  function WithValue(d: Detail, value: string): (r: Detail)
    ensures r.Type() == d.Type()
    ensures (d.StringDetail? || d.UrlDetail?) ==> ValueOf(r) == Some(value)
    ensures !(d.StringDetail? || d.UrlDetail?) ==> r == d
  {
    match d
    case StringDetail(code, u1, u2, position, u3, _) => StringDetail(code, u1, u2, position, u3, value)
    case UrlDetail(code, u1, u2, _) => UrlDetail(code, u1, u2, value)
    case _ => d
  }

  /** `new DetailRecord (type, value)`: position 1, unknown fields 0. */
  function NewStringDetail(code: Int32, value: string): (d: Detail)
    requires code < 50 && code != PodcastUrl && code != PodcastUrl2 && code != ChapterData
    ensures d.StringDetail? && d.Type() == code && d.value == value && d.position == 1
  {
    StringDetail(code, 0, 0, 1, 0, value)
  }

  /** The bytes a string value is stored as: UTF-8 on a big-endian database, UTF-16 otherwise. */
  function StringBytes(value: string, isBE: bool): Bytes
  {
    if isBE then Utf8Encode(value) else Utf16Encode(value)
  }

  /** `DetailRecord.Save`: HeaderOne is always 24, then HeaderTwo, then the body. For a
    * playlist-data detail the source writes no HeaderTwo at all (SaveDetailAsWritten);
    * here it gets one like every other detail. */
  function SaveDetail(d: Detail, isBE: bool): (r: Bytes)
    requires d.Saveable()
  {
    WriteHeader(DetailTag, 24, DetailHeaderTwo(d, isBE), isBE) + DetailBody(d, isBE)
  }

  /** HeaderTwo of a saved detail: 40 + the value's byte count for a string, 24 + the byte
    * count for a URL or chapter data, 44 for a position, and 24 for playlist data. */
  function DetailHeaderTwo(d: Detail, isBE: bool): Int32
    requires d.Saveable()
  {
    match d
    case StringDetail(_, _, _, _, _, value) => 40 + |StringBytes(value, isBE)|
    case UrlDetail(_, _, _, value) => 24 + |Utf8Encode(value)|
    case ChapterDetail(_, _, data) => 24 + |data|
    case PlaylistDataDetail(_, _) => 24
    case PositionDetail(_, _, _) => 44
  }

  /** The source's `DetailRecord.Save` for a playlist-data detail (type 50): tag and
    * HeaderOne, then straight on to the body. Every other detail is saved as SaveDetail. */
  function SaveDetailAsWritten(d: Detail, isBE: bool): (r: Bytes)
    requires d.Saveable()
  {
    if d.PlaylistDataDetail? then WriteName(DetailTag, isBE) + (WriteInt32(24, isBE) + DetailBody(d, isBE))
    else SaveDetail(d, isBE)
  }

  /** The source's decoding rule for a string value of strlen bytes at offset 28 of the body:
    * UTF-16 when strlen >= 2 and the byte at offset 29 is zero, UTF-8 otherwise. A UTF-16
    * value whose first character is U+0100 or above is then read as UTF-8
    * (Utf16ValueMisread); the model reads by DecodeStringValueByOrder instead. */
  function DecodeStringValue(body: Bytes, strlen: Int32): (r: Read<string>)
    requires |body| >= 28
  {
    if strlen >= 2 && |body| < 30 then Failure(IndexOutOfRange)
    else if strlen < 0 || 28 + strlen > |body| then Failure(IndexOutOfRange)
    else if strlen >= 2 && body[29] == 0 then Success(Utf16Decode(body[28..28 + strlen]))
    else Success(Utf8Decode(body[28..28 + strlen]))
  }

  /** A string value of strlen bytes at offset 28 of the body, decoded with the encoding
    * SaveDetail stores it in: UTF-8 on a big-endian database, UTF-16 otherwise. */
  function DecodeStringValueByOrder(body: Bytes, strlen: Int32, isBE: bool): (r: Read<string>)
    requires |body| >= 28
    ensures r.Success? <==> 0 <= strlen && 28 + strlen <= |body|
    ensures r.Success? ==> r.value == StringValue(body[28..28 + strlen], isBE)
  {
    if strlen < 0 || 28 + strlen > |body| then Failure(IndexOutOfRange)
    else Success(StringValue(body[28..28 + strlen], isBE))
  }

  /** The inverse of StringBytes. */
  function StringValue(vb: Bytes, isBE: bool): string
  {
    if isBE then Utf8Decode(vb) else Utf16Decode(vb)
  }

  /** `DetailRecord.Read`: the body is HeaderTwo - 12 bytes. */
  function ReadDetail(s: Bytes, isBE: bool): (r: Read<Parsed<Detail>>)
    ensures r.Success? ==> |r.value.rest| < |s|
  {
    var h :- ReadHeader(s, Some(DetailTag), isBE);
    var b :- ReadBytes(h.rest, h.value.headerTwo - 12);
    var d :- DetailFromBody(b.value, isBE);
    Success(Parsed(d, b.rest))
  }

  /** The fields of a detail from its body; codes above 50 other than the library index
    * and Misc are refused. */
  function DetailFromBody(body: Bytes, isBE: bool): Read<Detail>
  {
    if |body| < 4 then Failure(IndexOutOfRange)
    else
      var code := ToInt32(body, 0, isBE);
      if code > 50 && code != Misc && code != LibraryIndex then Failure(UnsupportedDetailType(code))
      else if |body| < 12 then Failure(IndexOutOfRange)
      else
        var u1, u2 := ToInt32(body, 4, isBE), ToInt32(body, 8, isBE);
        if code < 50 then
          if code == PodcastUrl || code == PodcastUrl2 then
            Success(UrlDetail(code, u1, u2, Utf8Decode(body[12..])))
          else if code == ChapterData then
            Success(ChapterDetail(u1, u2, body[12..]))
          else StringDetailFromBody(body, code, u1, u2, isBE)
        else if code == LibraryIndex then
          if |body| < 16 then Failure(IndexOutOfRange)
          else Success(LibraryIndexDetail(u1, u2, ToInt32(body, 12, isBE)))
        else if code == Misc then
          if |body| < 16 then Failure(IndexOutOfRange)
          else Success(PositionDetail(u1, u2, ToInt32(body, 12, isBE)))
        else
          Success(PlaylistDataDetail(u1, u2))
  }

  /** A string detail: position at 12, byte count at 16, a third unknown at 24, the value
    * at 28. */
  function StringDetailFromBody(body: Bytes, code: Int32, u1: Int32, u2: Int32, isBE: bool): Read<Detail>
  {
    if |body| < 28 then Failure(IndexOutOfRange)
    else
      var position, strlen, u3 := ToInt32(body, 12, isBE), ToInt32(body, 16, isBE), ToInt32(body, 24, isBE);
      var value :- DecodeStringValueByOrder(body, strlen, isBE);
      Success(StringDetail(code, u1, u2, position, u3, value))
  }

  /** The body SaveDetail writes after the 12-byte header. */
  function DetailBody(d: Detail, isBE: bool): (r: Bytes)
    requires d.Saveable()
    ensures |r| >= 12
  {
    match d
    case StringDetail(code, u1, u2, position, u3, value) =>
      var vb := StringBytes(value, isBE);
      StringFields(code, u1, u2, position, |vb|, u3, isBE) + vb
    case UrlDetail(code, u1, u2, value) =>
      CommonFields(code, u1, u2, isBE) + Utf8Encode(value)
    case ChapterDetail(u1, u2, data) =>
      CommonFields(ChapterData, u1, u2, isBE) + data
    case PlaylistDataDetail(u1, u2) =>
      CommonFields(PlaylistData, u1, u2, isBE)
    case PositionDetail(u1, u2, position) =>
      CommonFields(Misc, u1, u2, isBE) + (WriteInt32(position, isBE) + Zeros(16))
  }

  /** The first 12 bytes of every detail body: type code and two unknowns. */
  function CommonFields(code: Int32, u1: Int32, u2: Int32, isBE: bool): (r: Bytes)
    ensures |r| == 12
  {
    Int32s([code, u1, u2], isBE)
  }

  /** The 28 bytes in front of a string value: the common fields, position, byte count,
    * a zero and a third unknown. */
  function StringFields(code: Int32, u1: Int32, u2: Int32, position: Int32, strlen: Int32, u3: Int32,
                        isBE: bool): (r: Bytes)
    ensures |r| == 28
  {
    Int32s([code, u1, u2, position, strlen, 0, u3], isBE)
  }

  lemma CommonFieldsRead(code: Int32, u1: Int32, u2: Int32, isBE: bool, tail: Bytes)
    ensures var b := CommonFields(code, u1, u2, isBE) + tail;
      ToInt32(b, 0, isBE) == code && ToInt32(b, 4, isBE) == u1 && ToInt32(b, 8, isBE) == u2
  {
    Int32sRead([code, u1, u2], isBE, tail, 0);
    Int32sRead([code, u1, u2], isBE, tail, 1);
    Int32sRead([code, u1, u2], isBE, tail, 2);
  }

  /** Reading a detail whose header announces exactly its body. */
  lemma ReadFramedDetail(body: Bytes, isBE: bool, rest: Bytes)
    requires 12 + |body| < 0x8000_0000
    ensures ReadDetail(WriteHeader(DetailTag, 24, 12 + |body|, isBE) + body + rest, isBE)
         == match DetailFromBody(body, isBE)
            case Success(d) => Success(Parsed(d, rest))
            case Failure(e) => Failure(e)
  {
    var header := WriteHeader(DetailTag, 24, 12 + |body|, isBE);
    assert header + body + rest == header + (body + rest);
    HeaderRoundTrip(DetailTag, 24, 12 + |body|, isBE, body + rest);
    assert (body + rest)[..|body|] == body;
    assert (body + rest)[|body|..] == rest;
  }

  /** What the source's rule gives back for a value saved as bytes vb. */
  function ReadBackValue(vb: Bytes): string
  {
    if |vb| >= 2 && vb[1] == 0 then Utf16Decode(vb) else Utf8Decode(vb)
  }

  /** Reading the body of a saved string detail gives every field back, with the value
    * decoded from the bytes it was saved as. */
  lemma StringBodyReadBack(code: Int32, u1: Int32, u2: Int32, position: Int32, u3: Int32,
                           value: string, isBE: bool)
    requires StringDetail(code, u1, u2, position, u3, value).Saveable()
    ensures DetailFromBody(DetailBody(StringDetail(code, u1, u2, position, u3, value), isBE), isBE)
         == Success(StringDetail(code, u1, u2, position, u3, StringValue(StringBytes(value, isBE), isBE)))
  {
    var vb := StringBytes(value, isBE);
    var body := DetailBody(StringDetail(code, u1, u2, position, u3, value), isBE);
    StringFieldsRead(code, u1, u2, position, |vb|, u3, isBE, vb);
    assert body[28..28 + |vb|] == vb;
  }

  /** The source's rule applied to a saved value: ReadBackValue of its bytes. */
  lemma DecodeAfterFields(fields: Bytes, vb: Bytes)
    requires |fields| == 28 && |vb| < 0x8000_0000
    ensures DecodeStringValue(fields + vb, |vb|) == Success(ReadBackValue(vb))
  {
    var body := fields + vb;
    assert body[28..28 + |vb|] == vb;
    if |vb| >= 2 {
      assert body[29] == vb[1];
    }
  }

  lemma StringFieldsRead(code: Int32, u1: Int32, u2: Int32, position: Int32, strlen: Int32, u3: Int32,
                         isBE: bool, tail: Bytes)
    ensures var b := StringFields(code, u1, u2, position, strlen, u3, isBE) + tail;
      ToInt32(b, 0, isBE) == code && ToInt32(b, 4, isBE) == u1 && ToInt32(b, 8, isBE) == u2
      && ToInt32(b, 12, isBE) == position && ToInt32(b, 16, isBE) == strlen && ToInt32(b, 24, isBE) == u3
  {
    var xs := [code, u1, u2, position, strlen, 0, u3];
    Int32sRead(xs, isBE, tail, 0);
    Int32sRead(xs, isBE, tail, 1);
    Int32sRead(xs, isBE, tail, 2);
    Int32sRead(xs, isBE, tail, 3);
    Int32sRead(xs, isBE, tail, 4);
    Int32sRead(xs, isBE, tail, 6);
  }

  /** HeaderTwo counts exactly the bytes of the saved detail. */
  lemma HeaderTwoIsLength(d: Detail, isBE: bool)
    requires d.Saveable()
    ensures DetailHeaderTwo(d, isBE) == 12 + |DetailBody(d, isBE)| == |SaveDetail(d, isBE)|
  {
  }

  /** Saved details are framed: HeaderOne is 24 and HeaderTwo is the number of bytes
    * written; a string detail's is 40 + the value's byte count, and its length field
    * (offset 28) holds that byte count. */
  lemma SavedDetailLengths(d: Detail, isBE: bool)
    requires d.Saveable()
    ensures var r := SaveDetail(d, isBE);
      |r| >= 24 && ToInt32(r, 4, isBE) == 24 && ToInt32(r, 8, isBE) == |r|
      && (d.StringDetail? ==> |r| == 40 + |StringBytes(d.value, isBE)|
                              && ToInt32(r, 28, isBE) == |StringBytes(d.value, isBE)|)
  {
    var header := WriteHeader(DetailTag, 24, DetailHeaderTwo(d, isBE), isBE);
    var body := DetailBody(d, isBE);
    HeaderTwoIsLength(d, isBE);
    Int32OfPrefix(header, body, 4, isBE);
    Int32OfPrefix(header, body, 8, isBE);
    if d.StringDetail? {
      StringLengthField(d, isBE);
    }
  }

  lemma StringLengthField(d: Detail, isBE: bool)
    requires d.StringDetail? && d.Saveable()
    ensures ToInt32(SaveDetail(d, isBE), 28, isBE) == |StringBytes(d.value, isBE)|
  {
    var vb := StringBytes(d.value, isBE);
    var header := WriteHeader(DetailTag, 24, DetailHeaderTwo(d, isBE), isBE);
    var fields := StringFields(d.code, d.unknownOne, d.unknownTwo, d.position, |vb|, d.unknownThree, isBE);
    StringFieldsRead(d.code, d.unknownOne, d.unknownTwo, d.position, |vb|, d.unknownThree, isBE, vb);
    Int32OfSuffix(header, fields + vb, 28, isBE);
  }

  /** Under the source's rule a string value survives a save and a read: in UTF-16 when it
    * is empty or starts with a character below U+0100; in UTF-8 unless it starts with an
    * ASCII character followed by U+0000. */
  predicate ValueSurvives(value: string, isBE: bool)
  {
    if isBE then !(|value| >= 2 && value[0] as int < 0x80 && value[1] == '\0')
    else value == [] || value[0] as int < 0x100
  }

  lemma StringValueRoundTrip(value: string, isBE: bool)
    requires ValueSurvives(value, isBE)
    ensures ReadBackValue(StringBytes(value, isBE)) == value
  {
    if isBE {
      if |Utf8Encode(value)| >= 2 {
        Utf8SecondByteZero(value);
      }
      Utf8RoundTrip(value);
    } else {
      Utf16RoundTrip(value);
    }
  }

  /** On a little-endian database, every value starting with a character of U+0100 or above
    * is stored as UTF-16 bytes whose second byte is not zero; the source's rule decodes
    * them as UTF-8, which never gives the value back. */
  lemma Utf16ValueMisread(value: string, fields: Bytes)
    requires |value| >= 1 && value[0] as int >= 0x100
    requires |fields| == 28 && |StringBytes(value, false)| < 0x8000_0000
    ensures ReadBackValue(StringBytes(value, false)) != value
    ensures var vb := StringBytes(value, false);
      DecodeStringValue(fields + vb, |vb|) != Success(value)
  {
    var vb := StringBytes(value, false);
    assert vb[1] != 0;
    Utf16NeverReadsAsUtf8(value);
    DecodeAfterFields(fields, vb);
  }

  /** With the model's rule every string value survives a save and a read. */
  lemma StringValueByOrderRoundTrip(value: string, isBE: bool)
    ensures StringValue(StringBytes(value, isBE), isBE) == value
  {
    if isBE {
      Utf8RoundTrip(value);
    } else {
      Utf16RoundTrip(value);
    }
  }

  /** On a big-endian database "a" followed by U+0000 is stored as the UTF-8 bytes 61 00,
    * which the rule decodes as UTF-16: the single character "a" comes back. */
  lemma Utf8ValueMisread()
    ensures StringBytes("a\U{0}", true) == [0x61, 0x00]
    ensures ReadBackValue(StringBytes("a\U{0}", true)) == "a"
  {
    var s := "a\U{0}";
    assert s[1..] == "\U{0}";
    assert s[1..][1..] == [];
    var vb := StringBytes(s, true);
    assert vb == [0x61, 0x00];
    assert vb[2..] == [];
  }

  /** Reading a saved detail gives it back and leaves the rest of the stream. */
  lemma DetailRoundTrip(d: Detail, isBE: bool, rest: Bytes)
    requires d.Saveable()
    ensures ReadDetail(SaveDetail(d, isBE) + rest, isBE) == Success(Parsed(d, rest))
  {
    HeaderTwoIsLength(d, isBE);
    ReadFramedDetail(DetailBody(d, isBE), isBE, rest);
    BodyRoundTrip(d, isBE);
  }

  /** The body of a saved detail decodes to the detail. */
  lemma BodyRoundTrip(d: Detail, isBE: bool)
    requires d.Saveable()
    ensures DetailFromBody(DetailBody(d, isBE), isBE) == Success(d)
  {
    match d
    case StringDetail(code, u1, u2, position, u3, value) =>
      StringBodyReadBack(code, u1, u2, position, u3, value, isBE);
      StringValueByOrderRoundTrip(value, isBE);
    case UrlDetail(code, u1, u2, value) => UrlBodyRoundTrip(code, u1, u2, value, isBE);
    case ChapterDetail(u1, u2, data) => ChapterBodyRoundTrip(u1, u2, data, isBE);
    case PlaylistDataDetail(u1, u2) => PlaylistDataBodyRoundTrip(u1, u2, isBE);
    case PositionDetail(u1, u2, position) => PositionBodyRoundTrip(u1, u2, position, isBE);
  }

  lemma UrlBodyRoundTrip(code: Int32, u1: Int32, u2: Int32, value: string, isBE: bool)
    requires UrlDetail(code, u1, u2, value).Saveable()
    ensures DetailFromBody(DetailBody(UrlDetail(code, u1, u2, value), isBE), isBE)
         == Success(UrlDetail(code, u1, u2, value))
  {
    var body := DetailBody(UrlDetail(code, u1, u2, value), isBE);
    CommonFieldsRead(code, u1, u2, isBE, Utf8Encode(value));
    assert body[12..] == Utf8Encode(value);
    Utf8RoundTrip(value);
  }

  lemma ChapterBodyRoundTrip(u1: Int32, u2: Int32, data: Bytes, isBE: bool)
    requires ChapterDetail(u1, u2, data).Saveable()
    ensures DetailFromBody(DetailBody(ChapterDetail(u1, u2, data), isBE), isBE)
         == Success(ChapterDetail(u1, u2, data))
  {
    var body := DetailBody(ChapterDetail(u1, u2, data), isBE);
    CommonFieldsRead(ChapterData, u1, u2, isBE, data);
    assert body[12..] == data;
  }

  lemma PlaylistDataBodyRoundTrip(u1: Int32, u2: Int32, isBE: bool)
    ensures DetailFromBody(DetailBody(PlaylistDataDetail(u1, u2), isBE), isBE)
         == Success(PlaylistDataDetail(u1, u2))
  {
    var body := DetailBody(PlaylistDataDetail(u1, u2), isBE);
    CommonFieldsRead(PlaylistData, u1, u2, isBE, []);
    assert body + [] == body;
  }

  lemma PositionBodyRoundTrip(u1: Int32, u2: Int32, position: Int32, isBE: bool)
    ensures DetailFromBody(DetailBody(PositionDetail(u1, u2, position), isBE), isBE)
         == Success(PositionDetail(u1, u2, position))
  {
    var tail := WriteInt32(position, isBE) + Zeros(16);
    CommonFieldsRead(Misc, u1, u2, isBE, tail);
    Int32OfSuffix(CommonFields(Misc, u1, u2, isBE), tail, 12, isBE);
  }

  /** A body too short for the common fields is refused, whatever its type code. */
  lemma ShortBodyRefused(body: Bytes, isBE: bool)
    requires |body| < 12
    ensures DetailFromBody(body, isBE).Failure?
  {
  }

  /** As the source writes it, a playlist-data detail is never read back: its type code (50)
    * is taken for HeaderTwo, so the reader takes the wrong number of bytes. */
  lemma PlaylistDataAsWrittenMisread(d: Detail, isBE: bool, rest: Bytes)
    requires d.PlaylistDataDetail?
    ensures ReadDetail(SaveDetailAsWritten(d, isBE) + rest, isBE) != Success(Parsed(d, rest))
  {
    var s := SaveDetailAsWritten(d, isBE) + rest;
    AsWrittenHeader(d, isBE, rest);
    var after := s[12..];
    if |after| < 38 && rest == [] {
      ShortBodyRefused(after, isBE);
    }
  }

  /** The header the reader sees in a playlist-data detail as the source writes it:
    * HeaderTwo is the type code 50. */
  lemma AsWrittenHeader(d: Detail, isBE: bool, rest: Bytes)
    requires d.PlaylistDataDetail?
    ensures var s := SaveDetailAsWritten(d, isBE) + rest;
      |s| == 20 + |rest|
      && ReadHeader(s, Some(DetailTag), isBE) == Success(Parsed(Header(DetailTag, 24, PlaylistData), s[12..]))
  {
    var body := DetailBody(d, isBE);
    var tail := (WriteInt32(24, isBE) + body) + rest;
    assert SaveDetailAsWritten(d, isBE) + rest == WriteName(DetailTag, isBE) + tail;
    ReadHeaderAfterName(DetailTag, tail, isBE);
    CommonFieldsRead(PlaylistData, d.unknownOne, d.unknownTwo, isBE, rest);
    assert tail == WriteInt32(24, isBE) + (body + rest);
    Int32OfSuffix(WriteInt32(24, isBE), body + rest, 4, isBE);
  }

  // Lists of details, as the records that own details save and read them one after another.

  predicate AllSaveable(ds: seq<Detail>)
  {
    forall i :: 0 <= i < |ds| ==> ds[i].Saveable()
  }

  /** The bytes of each detail. */
  function DetailParts(ds: seq<Detail>, isBE: bool): (r: seq<Bytes>)
    requires AllSaveable(ds)
    ensures |r| == |ds|
  {
    seq(|ds|, i requires 0 <= i < |ds| && ds[i].Saveable() => SaveDetail(ds[i], isBE))
  }

  /** The details saved back to back. */
  function SaveDetails(ds: seq<Detail>, isBE: bool): Bytes
    requires AllSaveable(ds)
  {
    Concat(DetailParts(ds, isBE))
  }

  lemma SaveDetailsAppend(ds: seq<Detail>, d: Detail, isBE: bool)
    requires AllSaveable(ds) && d.Saveable()
    ensures AllSaveable(ds + [d])
    ensures SaveDetails(ds + [d], isBE) == SaveDetails(ds, isBE) + SaveDetail(d, isBE)
  {
    var e := ds + [d];
    assert AllSaveable(e) by {
      forall i | 0 <= i < |e| ensures e[i].Saveable() {
        if i < |ds| { assert e[i] == ds[i]; }
      }
    }
    assert DetailParts(e, isBE) == DetailParts(ds, isBE) + [SaveDetail(d, isBE)];
    ConcatAppend(DetailParts(ds, isBE), SaveDetail(d, isBE));
  }

  /** Saving the first i + 1 details: the first i, then detail i. */
  lemma SaveDetailsPrefix(ds: seq<Detail>, i: nat, isBE: bool)
    requires AllSaveable(ds) && i < |ds|
    ensures AllSaveable(ds[..i]) && AllSaveable(ds[..i + 1])
    ensures SaveDetails(ds[..i + 1], isBE) == SaveDetails(ds[..i], isBE) + SaveDetail(ds[i], isBE)
  {
    assert ds[..i + 1] == ds[..i] + [ds[i]];
    SaveDetailsAppend(ds[..i], ds[i], isBE);
  }

  /** The loop of the records that own details: each detail saved in turn and its bytes
    * appended to those collected so far. */
  method SaveChildren(ds: seq<Detail>, isBE: bool) returns (data: Bytes)
    requires AllSaveable(ds)
    ensures data == SaveDetails(ds, isBE)
  {
    data := [];
    var i := 0;
    while i < |ds|
      invariant 0 <= i <= |ds|
      invariant AllSaveable(ds[..i])
      invariant data == SaveDetails(ds[..i], isBE)
    {
      SaveDetailsPrefix(ds, i, isBE);
      data := data + SaveDetail(ds[i], isBE);
      i := i + 1;
    }
    assert ds[..i] == ds;
  }

  function DetailReader(isBE: bool): Bytes -> Read<Parsed<Detail>>
  {
    s => ReadDetail(s, isBE)
  }

  /** count details read one after another. */
  function ReadDetails(s: Bytes, count: int, isBE: bool): Read<Parsed<seq<Detail>>>
  {
    ReadMany(DetailReader(isBE), s, count)
  }

  lemma DetailsRoundTrip(ds: seq<Detail>, isBE: bool, rest: Bytes)
    requires AllSaveable(ds)
    ensures ReadDetails(SaveDetails(ds, isBE) + rest, |ds|, isBE) == Success(Parsed(ds, rest))
  {
    var parts := DetailParts(ds, isBE);
    forall i, tail | 0 <= i < |ds|
      ensures DetailReader(isBE)(parts[i] + tail) == Success(Parsed(ds[i], tail))
    {
      DetailRoundTrip(ds[i], isBE, tail);
    }
    ReadManyRoundTrip(DetailReader(isBE), ds, parts, rest);
  }
}
