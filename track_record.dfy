/** A track ("mhit"): its scalar fields, whose layout depends on the database version,
  * and its details (TrackDatabase.cs:815-1152). */
module Tracks {
  import opened Wrappers
  import opened Binary
  import opened Details

  const TrackTag: string := "mhit"

  // TrackRecordType codes. The field is read as any short, so other codes can occur.
  const Mp3: Int16 := 0x101
  const Aac: Int16 := 0

  /** Track.cs:19-29. */
  datatype MediaType = AudioVideo | Audio | Video | Podcast | VideoPodcast | Audiobook | MusicVideo | TVShow | Movie

  /** `FromMediaType`: the code stored at body offset 196. Movie shares the video code. */
  function FromMediaType(m: MediaType): Int32
  {
    match m
    case AudioVideo => 0
    case Audio => 1
    case Movie => 2
    case Video => 2
    case Podcast => 4
    case VideoPodcast => 6
    case Audiobook => 8
    case MusicVideo => 32
    case TVShow => 64
  }

  /** The codes `ToMediaType` gives a meaning to. */
  predicate KnownMediaCode(code: Int32)
  {
    code == 0 || code == 1 || code == 2 || code == 4 || code == 6 || code == 8 || code == 32 || code == 64
  }

  /** `ToMediaType`: an unknown code reads as AudioVideo; no code reads as Movie. */
  function ToMediaType(code: Int32): MediaType
  {
    if code == 1 then Audio
    else if code == 2 then Video
    else if code == 4 then Podcast
    else if code == 6 then VideoPodcast
    else if code == 8 then Audiobook
    else if code == 32 then MusicVideo
    else if code == 64 then TVShow
    else AudioVideo
  }

  /** The two conversions are inverse on the known codes, and on every media type but
    * Movie, which the code alone cannot tell from Video. */
  lemma MediaTypeRoundTrip(m: MediaType, code: Int32)
    ensures ToMediaType(FromMediaType(m)) == (if m == Movie then Video else m)
    ensures FromMediaType(ToMediaType(code)) == (if KnownMediaCode(code) then code else 0)
    ensures ToMediaType(code) != Movie
  {
  }

  // The scalar fields of a track record, grouped by the part of the body that holds
  // them. Times are held as the Mac times the file stores.

  /** Body offsets 4-51; `recordType` is the TrackRecordType code. */
  datatype BasicFields = BasicFields(
    id: Int32, hidden: bool, recordType: Int16, compilationFlag: Byte, rating: Byte,
    date: UInt32, size: Int32, length: Int32, trackNumber: Int32, totalTracks: Int32,
    year: Int32, bitRate: Int32, unknownThree: Int16, sampleRate: UInt16)

  /** Body offsets 52-99. */
  datatype PlayFields = PlayFields(
    volume: Int32, startTime: Int32, stopTime: Int32, soundCheck: Int32, playCount: Int32,
    playCountDup: Int32, lastPlayedTime: UInt32, discNumber: Int32, totalDiscs: Int32,
    userId: Int32, lastModifiedTime: UInt32, bookmarkTime: Int32)

  /** Body offsets 100-151. */
  datatype ExtraFields = ExtraFields(
    databaseId: Int64, checked: Byte, applicationRating: Byte, bpm: Int16, artworkCount: Int16,
    unknownFour: Int16, artworkSize: Int32, unknownFive: Int32, unknownSix: Int32,
    dateReleased: UInt32, unknownSeven: Int16, unknownEight: Int16, unknownNine: Int32,
    unknownTen: Int32, unknownEleven: Int32, unknownTwelve: Int32)

  /** Body offsets 152-167 but the movie flag, stored from version 12 on. */
  datatype FlagFields = FlagFields(
    hasArtwork: bool, skipWhenShuffle: bool, rememberPosition: bool, unknownPodcastFlag: bool,
    hasLyrics: bool, notPlayedMark: bool, unknownThirteen: Byte)

  /** Body offsets 168-207 but the media type code, stored from version 12 on. */
  datatype LaterFields = LaterFields(
    unknownFourteen: Int32, unknownFifteen: Int32, sampleCount: Int32, unknownSixteen: Int32,
    unknownSeventeen: Int32, unknownEighteen: Int32, unknownNineteen: Int32, seasonNumber: Int32,
    episodeNumber: Int32)

  datatype TrackFields = TrackFields(
    basic: BasicFields, play: PlayFields, extra: ExtraFields, flags: FlagFields, later: LaterFields,
    mediaType: MediaType)

  /** The fields of a new `TrackRecord`: the initialisers of TrackDatabase.cs:817-878. */
  function DefaultFields(): (f: TrackFields)
    ensures f.basic.recordType == Mp3 && f.mediaType == Audio && !f.basic.hidden
    ensures f.basic.trackNumber == 1 && f.basic.totalTracks == 1
    ensures f.extra.unknownFour == 1 && f.extra.unknownSix == 0x472c4400 && f.extra.unknownEight == 0xc
  {
    TrackFields(
      BasicFields(0, false, Mp3, 0, 0, 0, 0, 0, 1, 1, 0, 0, 0, 0),
      PlayFields(0, 0, 0, 0, 0, 0, 0, 0, 0, 0, 0, 0),
      ExtraFields(0, 0, 0, 0, 0, 1, 0, 0, 0x472c4400, 0, 0, 0xc, 0, 0, 0, 0),
      FlagFields(false, false, false, false, false, false, 0),
      LaterFields(0, 0, 0, 0, 0, 0, 0, 0, 0),
      Audio)
  }

  /** A track record: its fields and its details, in order. */
  datatype TrackValue = TrackValue(fields: TrackFields, details: seq<Detail>)

  // Saving: the body is written field after field, in the order of `TrackRecord.Save`.

  /** The four bytes at body offset 12: "MP3 " or "AAC " by type, an int 0 otherwise. */
  function TypeChars(t: Int16, isBE: bool): (r: Bytes)
    ensures |r| == 4
  {
    if t == Mp3 then [0x4D, 0x50, 0x33, 0x20]
    else if t == Aac then [0x41, 0x41, 0x43, 0x20]
    else WriteInt32(0, isBE)
  }

  /** Body offsets 0-51: the detail count, then the basic fields; the hidden flag is
    * stored as 0 when hidden and 1 otherwise. */
  function BasicBytes(b: BasicFields, count: Int32, isBE: bool): (r: Bytes)
    ensures |r| == 52
  {
    WriteInt32(count, isBE) + (WriteInt32(b.id, isBE) + (WriteInt32(if b.hidden then 0 else 1, isBE) + (
    TypeChars(b.recordType, isBE) + (WriteInt16(b.recordType, isBE) + ([b.compilationFlag] + ([b.rating] + (
    WriteUInt32(b.date, isBE) + (WriteInt32(b.size, isBE) + (WriteInt32(b.length, isBE) + (
    WriteInt32(b.trackNumber, isBE) + (WriteInt32(b.totalTracks, isBE) + (WriteInt32(b.year, isBE) + (
    WriteInt32(b.bitRate, isBE) + (WriteInt16(b.unknownThree, isBE) + WriteUInt16(b.sampleRate, isBE)))))))))))))))
  }

  /** Body offsets 52-99. */
  function PlayBytes(p: PlayFields, isBE: bool): (r: Bytes)
    ensures |r| == 48
  {
    WriteInt32(p.volume, isBE) + (WriteInt32(p.startTime, isBE) + (WriteInt32(p.stopTime, isBE) + (
    WriteInt32(p.soundCheck, isBE) + (WriteInt32(p.playCount, isBE) + (WriteInt32(p.playCountDup, isBE) + (
    WriteUInt32(p.lastPlayedTime, isBE) + (WriteInt32(p.discNumber, isBE) + (
    WriteInt32(p.totalDiscs, isBE) + (WriteInt32(p.userId, isBE) + (
    WriteUInt32(p.lastModifiedTime, isBE) + WriteInt32(p.bookmarkTime, isBE)))))))))))
  }

  /** Body offsets 100-151: the artwork count goes to 112 and unknownFour to 114. */
  function ExtraBytes(e: ExtraFields, isBE: bool): (r: Bytes)
    ensures |r| == 52
  {
    WriteInt64(e.databaseId, isBE) + ([e.checked] + ([e.applicationRating] + (WriteInt16(e.bpm, isBE) + (
    WriteInt16(e.artworkCount, isBE) + (WriteInt16(e.unknownFour, isBE) + (
    WriteInt32(e.artworkSize, isBE) + (WriteInt32(e.unknownFive, isBE) + (WriteInt32(e.unknownSix, isBE) + (
    WriteUInt32(e.dateReleased, isBE) + (WriteInt16(e.unknownSeven, isBE) + (
    WriteInt16(e.unknownEight, isBE) + (WriteInt32(e.unknownNine, isBE) + (
    WriteInt32(e.unknownTen, isBE) + (WriteInt32(e.unknownEleven, isBE) + WriteInt32(e.unknownTwelve, isBE)))))))))))))))
  }

  /** Body offsets 152-167, from version 12 on: four flags, the database id again, the
    * lyrics flag, the movie flag, the not-played mark (2 when set, 1 otherwise). */
  function FlagBytes(g: FlagFields, databaseId: Int64, movie: bool, isBE: bool): (r: Bytes)
    ensures |r| == 16
  {
    [FlagByte(g.hasArtwork)] + ([FlagByte(g.skipWhenShuffle)] + ([FlagByte(g.rememberPosition)] + (
    [FlagByte(g.unknownPodcastFlag)] + (WriteInt64(databaseId, isBE) + ([FlagByte(g.hasLyrics)] + (
    [FlagByte(movie)] + ([if g.notPlayedMark then 2 else 1] + [g.unknownThirteen])))))))
  }

  /** Body offsets 168-207, from version 12 on; the media type code is at 196. */
  function LaterBytes(l: LaterFields, code: Int32, isBE: bool): (r: Bytes)
    ensures |r| == 40
  {
    WriteInt32(l.unknownFourteen, isBE) + (WriteInt32(l.unknownFifteen, isBE) + (
    WriteInt32(l.sampleCount, isBE) + (WriteInt32(l.unknownSixteen, isBE) + (
    WriteInt32(l.unknownSeventeen, isBE) + (WriteInt32(l.unknownEighteen, isBE) + (
    WriteInt32(l.unknownNineteen, isBE) + (WriteInt32(code, isBE) + (
    WriteInt32(l.seasonNumber, isBE) + WriteInt32(l.episodeNumber, isBE)))))))))
  }

  /** What version 12 adds to the body: 80 bytes, the last 24 of them zero. */
  function NewerBytes(f: TrackFields, version: int, isBE: bool): (r: Bytes)
    ensures |r| == if version >= 12 then 80 else 0
  {
    if version >= 12 then
      FlagBytes(f.flags, f.extra.databaseId, f.mediaType == Movie, isBE)
      + (LaterBytes(f.later, FromMediaType(f.mediaType), isBE) + Zeros(24))
    else []
  }

  /** The number of body bytes Save writes: 232 from version 12 on, 152 before. */
  function BodyLength(version: int): nat
  {
    if version >= 12 then 232 else 152
  }

  /** The body Save writes after the header. */
  function TrackBody(f: TrackFields, count: Int32, version: int, isBE: bool): (r: Bytes)
    ensures |r| == BodyLength(version)
  {
    BasicBytes(f.basic, count, isBE) + PlayBytes(f.play, isBE) + ExtraBytes(f.extra, isBE)
    + NewerBytes(f, version, isBE)
  }

  /** The details fit Save: each saveable, their count and total length an int. */
  predicate TrackSaveable(v: TrackValue, isBE: bool)
  {
    AllSaveable(v.details) && |v.details| < 0x8000_0000 && ChildrenFit(SaveDetails(v.details, isBE))
  }

  /** HeaderOne as `TrackRecord.Save` writes it: 244 from version 12 on, 156 before. */
  /** The values of HeaderOne a track record can have. */
  type HeaderOne = h: int | 0 <= h <= 244

  /** HeaderTwo, HeaderOne plus the children's length, is an int for any HeaderOne. */
  predicate ChildrenFit(children: Bytes)
  {
    244 + |children| < 0x8000_0000
  }

  function TrackHeaderOneAsWritten(version: int): HeaderOne
  {
    if version >= 12 then 244 else 156
  }

  /** HeaderOne as the length of the header and body Save writes: 244 from version 12 on,
    * 164 before. */
  function TrackHeaderOne(version: int): (h1: HeaderOne)
    ensures h1 == 12 + BodyLength(version)
  {
    if version >= 12 then 244 else 164
  }

  /** A track record around a body and the bytes of its details: the header with the
    * given HeaderOne and HeaderOne + the details' length as HeaderTwo, the body, the
    * details. */
  function Frame(h1: HeaderOne, body: Bytes, children: Bytes, isBE: bool): Bytes
    requires ChildrenFit(children)
  {
    WriteHeader(TrackTag, h1, h1 + |children|, isBE) + (body + children)
  }

  /** `TrackRecord.Save` as written. */
  function EncodeTrackAsWritten(v: TrackValue, version: int, isBE: bool): Bytes
    requires TrackSaveable(v, isBE)
  {
    Frame(TrackHeaderOneAsWritten(version), TrackBody(v.fields, |v.details|, version, isBE),
      SaveDetails(v.details, isBE), isBE)
  }

  /** `TrackRecord.Save` with HeaderOne the length it writes. */
  function EncodeTrack(v: TrackValue, version: int, isBE: bool): Bytes
    requires TrackSaveable(v, isBE)
  {
    Frame(TrackHeaderOne(version), TrackBody(v.fields, |v.details|, version, isBE), SaveDetails(v.details, isBE), isBE)
  }

  /** The header of a framed record holds HeaderOne and HeaderTwo; the record is the
    * header, the body and the children, the children last. */
  lemma FrameLengths(h1: HeaderOne, body: Bytes, children: Bytes, isBE: bool)
    requires ChildrenFit(children)
    ensures var r := Frame(h1, body, children, isBE);
      ToInt32(r, 4, isBE) == h1 && ToInt32(r, 8, isBE) == h1 + |children|
      && |r| == 12 + |body| + |children| && r[12 + |body|..] == children
  {
    var head := WriteHeader(TrackTag, h1, h1 + |children|, isBE);
    Int32OfPrefix(head, body + children, 4, isBE);
    Int32OfPrefix(head, body + children, 8, isBE);
    Assoc(head, body, children);
    assert ((head + body) + children)[|head + body|..] == children;
  }

  /** As written, Save stores HeaderOne 244 from version 12 on and 156 before, and
    * HeaderTwo = HeaderOne + the length of the saved details; before version 12 the
    * record is 8 bytes longer than HeaderTwo says. */
  lemma TrackLengthsAsWritten(v: TrackValue, version: int, isBE: bool)
    requires TrackSaveable(v, isBE)
    ensures var r := EncodeTrackAsWritten(v, version, isBE);
      ToInt32(r, 4, isBE) == (if version >= 12 then 244 else 156)
      && ToInt32(r, 8, isBE) == ToInt32(r, 4, isBE) + |SaveDetails(v.details, isBE)|
      && |r| == ToInt32(r, 8, isBE) + (if version >= 12 then 0 else 8)
  {
    FrameLengths(TrackHeaderOneAsWritten(version), TrackBody(v.fields, |v.details|, version, isBE),
      SaveDetails(v.details, isBE), isBE);
  }

  /** With HeaderOne the length written, HeaderTwo is the length of the whole record and
    * the details come last. */
  lemma TrackLengths(v: TrackValue, version: int, isBE: bool)
    requires TrackSaveable(v, isBE)
    ensures var r := EncodeTrack(v, version, isBE);
      |r| == 12 + BodyLength(version) + |SaveDetails(v.details, isBE)|
      && ToInt32(r, 4, isBE) == 12 + BodyLength(version) && ToInt32(r, 8, isBE) == |r|
      && r[12 + BodyLength(version)..] == SaveDetails(v.details, isBE)
  {
    FrameLengths(TrackHeaderOne(version), TrackBody(v.fields, |v.details|, version, isBE),
      SaveDetails(v.details, isBE), isBE);
  }

  // Reading: each reader takes one group of fields from the offsets the source reads
  // them at.

  function BasicOf(body: Bytes, isBE: bool): BasicFields
    requires |body| >= 52
  {
    BasicFields(ToInt32(body, 4, isBE), ToInt32(body, 8, isBE) != 1, ToInt16(body, 16, isBE), body[18],
      body[19], ToUInt32(body, 20, isBE), ToInt32(body, 24, isBE), ToInt32(body, 28, isBE),
      ToInt32(body, 32, isBE), ToInt32(body, 36, isBE), ToInt32(body, 40, isBE), ToInt32(body, 44, isBE),
      ToInt16(body, 48, isBE), ToUInt16(body, 50, isBE))
  }

  function PlayOf(body: Bytes, isBE: bool): PlayFields
    requires |body| >= 100
  {
    PlayFields(ToInt32(body, 52, isBE), ToInt32(body, 56, isBE), ToInt32(body, 60, isBE),
      ToInt32(body, 64, isBE), ToInt32(body, 68, isBE), ToInt32(body, 72, isBE), ToUInt32(body, 76, isBE),
      ToInt32(body, 80, isBE), ToInt32(body, 84, isBE), ToInt32(body, 88, isBE), ToUInt32(body, 92, isBE),
      ToInt32(body, 96, isBE))
  }

  /** Offsets 100-151 with the artwork count taken from 112 and unknownFour from 114,
    * where Save writes them. */
  function ExtraOf(body: Bytes, isBE: bool): ExtraFields
    requires |body| >= 152
  {
    ExtraFields(ToInt64(body, 100, isBE), body[108], body[109], ToInt16(body, 110, isBE),
      ToInt16(body, 112, isBE), ToInt16(body, 114, isBE), ToInt32(body, 116, isBE),
      ToInt32(body, 120, isBE), ToInt32(body, 124, isBE), ToUInt32(body, 128, isBE),
      ToInt16(body, 132, isBE), ToInt16(body, 134, isBE), ToInt32(body, 136, isBE),
      ToInt32(body, 140, isBE), ToInt32(body, 144, isBE), ToInt32(body, 148, isBE))
  }

  /** Offsets 100-151 as `TrackRecord.Read` takes them: the artwork count from 114 and
    * unknownFour from 112. */
  function ExtraOfAsWritten(body: Bytes, isBE: bool): ExtraFields
    requires |body| >= 152
  {
    ExtraOf(body, isBE).(artworkCount := ToInt16(body, 114, isBE), unknownFour := ToInt16(body, 112, isBE))
  }

  /** Offsets 152-167 but the movie flag, from version 12 on. */
  function FlagsOf(body: Bytes): FlagFields
    requires |body| >= 168
  {
    FlagFields(body[152] == 1, body[153] == 1, body[154] == 1, body[155] != 0, body[164] == 1,
      body[166] == 2, body[167])
  }

  /** Offsets 168-207 but the media type code, from version 12 on. */
  function LaterOf(body: Bytes, isBE: bool): LaterFields
    requires |body| >= 208
  {
    LaterFields(ToInt32(body, 168, isBE), ToInt32(body, 172, isBE), ToInt32(body, 176, isBE),
      ToInt32(body, 180, isBE), ToInt32(body, 184, isBE), ToInt32(body, 188, isBE),
      ToInt32(body, 192, isBE), ToInt32(body, 200, isBE), ToInt32(body, 204, isBE))
  }

  /** The media type after a version-12 read into a record of media type m: a movie
    * flag of 1 makes it a movie, a record that is a movie stays one, and any other
    * takes the meaning of the code at 196. */
  function MediaTypeOf(body: Bytes, m: MediaType, isBE: bool): (r: MediaType)
    requires |body| >= 208
    ensures r == Movie <==> body[165] == 1 || m == Movie
  {
    if body[165] == 1 || m == Movie then Movie else ToMediaType(ToInt32(body, 196, isBE))
  }

  /** The bodies `TrackRecord.Read` can take its fields from: 152 bytes, and 208 from
    * version 12 on. */
  predicate LongEnough(body: Bytes, version: int)
  {
    |body| >= 152 && (version >= 12 ==> |body| >= 208)
  }

  /** The fields read from a body into a record that held p: before version 12 the fields
    * of the newer versions keep their values. */
  function FieldsOf(body: Bytes, p: TrackFields, version: int, isBE: bool): TrackFields
    requires LongEnough(body, version)
  {
    TrackFields(BasicOf(body, isBE), PlayOf(body, isBE), ExtraOf(body, isBE),
      if version >= 12 then FlagsOf(body) else p.flags,
      if version >= 12 then LaterOf(body, isBE) else p.later,
      if version >= 12 then MediaTypeOf(body, p.mediaType, isBE) else p.mediaType)
  }

  /** `TrackRecord.Read` into a record that held p: the header, HeaderOne - 12 body bytes,
    * then as many details as the body's first field says. A body too short for the
    * fields the source reads is an error; the old details are dropped. */
  function ReadTrack(s: Bytes, p: TrackFields, version: int, isBE: bool): (r: Read<Parsed<TrackValue>>)
  {
    var h :- ReadHeader(s, Some(TrackTag), isBE);
    var b :- ReadBytes(h.rest, h.value.headerOne - 12);
    TrackFromBody(b.value, b.rest, p, version, isBE)
  }

  function TrackFromBody(body: Bytes, s: Bytes, p: TrackFields, version: int, isBE: bool): (r: Read<Parsed<TrackValue>>)
    ensures !LongEnough(body, version) ==> r == Failure(IndexOutOfRange)
    ensures r.Success? ==> r.value.value.fields == FieldsOf(body, p, version, isBE)
  {
    if !LongEnough(body, version) then Failure(IndexOutOfRange)
    else
      var d :- ReadDetails(s, ToInt32(body, 0, isBE), isBE);
      Success(Parsed(TrackValue(FieldsOf(body, p, version, isBE), d.value), d.rest))
  }

  // Where each field lands. These lemmas are about byte strings of the given lengths
  // only, so that the readers below meet no more than the bytes they read.

  /** Where the fields of the first block land, the block first. */
  lemma BasicLaid(post: Bytes, w1: Bytes, w2: Bytes, w3: Bytes, w4: Bytes, w5: Bytes, w6: Bytes, w7: Bytes,
      w8: Bytes, w9: Bytes, w10: Bytes, w11: Bytes, w12: Bytes, w13: Bytes, w14: Bytes, w15: Bytes,
      w16: Bytes)
    requires |w1| == 4 && |w2| == 4 && |w3| == 4 && |w4| == 4 && |w5| == 2 && |w6| == 1 && |w7| == 1
      && |w8| == 4 && |w9| == 4 && |w10| == 4 && |w11| == 4 && |w12| == 4 && |w13| == 4
      && |w14| == 4 && |w15| == 2 && |w16| == 2
    ensures var s := (w1 + (w2 + (w3 + (w4 + (w5 + (w6 + (w7 + (w8 + (w9 + (w10 + (w11 + (w12 + (w13 + (w14 + (w15 + w16))))))))))))))) + post;
      |s| >= 52
      && s[0] == w1[0] && s[1] == w1[1] && s[2] == w1[2] && s[3] == w1[3]
      && s[4] == w2[0] && s[5] == w2[1] && s[6] == w2[2] && s[7] == w2[3]
      && s[8] == w3[0] && s[9] == w3[1] && s[10] == w3[2] && s[11] == w3[3]
      && s[16] == w5[0] && s[17] == w5[1]
      && s[18] == w6[0]
      && s[19] == w7[0]
      && s[20] == w8[0] && s[21] == w8[1] && s[22] == w8[2] && s[23] == w8[3]
      && s[24] == w9[0] && s[25] == w9[1] && s[26] == w9[2] && s[27] == w9[3]
      && s[28] == w10[0] && s[29] == w10[1] && s[30] == w10[2] && s[31] == w10[3]
      && s[32] == w11[0] && s[33] == w11[1] && s[34] == w11[2] && s[35] == w11[3]
      && s[36] == w12[0] && s[37] == w12[1] && s[38] == w12[2] && s[39] == w12[3]
      && s[40] == w13[0] && s[41] == w13[1] && s[42] == w13[2] && s[43] == w13[3]
      && s[44] == w14[0] && s[45] == w14[1] && s[46] == w14[2] && s[47] == w14[3]
      && s[48] == w15[0] && s[49] == w15[1]
      && s[50] == w16[0] && s[51] == w16[1]
  {
  }

  /** Where the fields of the second block land, 52 bytes in. */
  lemma PlayLaid(pre: Bytes, post: Bytes, w1: Bytes, w2: Bytes, w3: Bytes, w4: Bytes, w5: Bytes, w6: Bytes,
      w7: Bytes, w8: Bytes, w9: Bytes, w10: Bytes, w11: Bytes, w12: Bytes)
    requires |pre| == 52 && |w1| == 4 && |w2| == 4 && |w3| == 4 && |w4| == 4 && |w5| == 4
      && |w6| == 4 && |w7| == 4 && |w8| == 4 && |w9| == 4 && |w10| == 4 && |w11| == 4 && |w12| == 4
    ensures var s := (pre + (w1 + (w2 + (w3 + (w4 + (w5 + (w6 + (w7 + (w8 + (w9 + (w10 + (w11 + w12)))))))))))) + post;
      |s| >= 100
      && s[52] == w1[0] && s[53] == w1[1] && s[54] == w1[2] && s[55] == w1[3]
      && s[56] == w2[0] && s[57] == w2[1] && s[58] == w2[2] && s[59] == w2[3]
      && s[60] == w3[0] && s[61] == w3[1] && s[62] == w3[2] && s[63] == w3[3]
      && s[64] == w4[0] && s[65] == w4[1] && s[66] == w4[2] && s[67] == w4[3]
      && s[68] == w5[0] && s[69] == w5[1] && s[70] == w5[2] && s[71] == w5[3]
      && s[72] == w6[0] && s[73] == w6[1] && s[74] == w6[2] && s[75] == w6[3]
      && s[76] == w7[0] && s[77] == w7[1] && s[78] == w7[2] && s[79] == w7[3]
      && s[80] == w8[0] && s[81] == w8[1] && s[82] == w8[2] && s[83] == w8[3]
      && s[84] == w9[0] && s[85] == w9[1] && s[86] == w9[2] && s[87] == w9[3]
      && s[88] == w10[0] && s[89] == w10[1] && s[90] == w10[2] && s[91] == w10[3]
      && s[92] == w11[0] && s[93] == w11[1] && s[94] == w11[2] && s[95] == w11[3]
      && s[96] == w12[0] && s[97] == w12[1] && s[98] == w12[2] && s[99] == w12[3]
  {
  }

  /** Where the fields of the third block land, 100 bytes in. */
  lemma ExtraLaid(pre: Bytes, post: Bytes, w1: Bytes, w2: Bytes, w3: Bytes, w4: Bytes, w5: Bytes, w6: Bytes,
      w7: Bytes, w8: Bytes, w9: Bytes, w10: Bytes, w11: Bytes, w12: Bytes, w13: Bytes, w14: Bytes,
      w15: Bytes, w16: Bytes)
    requires |pre| == 100 && |w1| == 8 && |w2| == 1 && |w3| == 1 && |w4| == 2 && |w5| == 2
      && |w6| == 2 && |w7| == 4 && |w8| == 4 && |w9| == 4 && |w10| == 4 && |w11| == 2 && |w12| == 2
      && |w13| == 4 && |w14| == 4 && |w15| == 4 && |w16| == 4
    ensures var s := (pre + (w1 + (w2 + (w3 + (w4 + (w5 + (w6 + (w7 + (w8 + (w9 + (w10 + (w11 + (w12 + (w13 + (w14 + (w15 + w16)))))))))))))))) + post;
      |s| >= 152
      && s[100] == w1[0] && s[101] == w1[1] && s[102] == w1[2] && s[103] == w1[3] && s[104] == w1[4] && s[105] == w1[5] && s[106] == w1[6] && s[107] == w1[7]
      && s[108] == w2[0]
      && s[109] == w3[0]
      && s[110] == w4[0] && s[111] == w4[1]
      && s[112] == w5[0] && s[113] == w5[1]
      && s[114] == w6[0] && s[115] == w6[1]
      && s[116] == w7[0] && s[117] == w7[1] && s[118] == w7[2] && s[119] == w7[3]
      && s[120] == w8[0] && s[121] == w8[1] && s[122] == w8[2] && s[123] == w8[3]
      && s[124] == w9[0] && s[125] == w9[1] && s[126] == w9[2] && s[127] == w9[3]
      && s[128] == w10[0] && s[129] == w10[1] && s[130] == w10[2] && s[131] == w10[3]
      && s[132] == w11[0] && s[133] == w11[1]
      && s[134] == w12[0] && s[135] == w12[1]
      && s[136] == w13[0] && s[137] == w13[1] && s[138] == w13[2] && s[139] == w13[3]
      && s[140] == w14[0] && s[141] == w14[1] && s[142] == w14[2] && s[143] == w14[3]
      && s[144] == w15[0] && s[145] == w15[1] && s[146] == w15[2] && s[147] == w15[3]
      && s[148] == w16[0] && s[149] == w16[1] && s[150] == w16[2] && s[151] == w16[3]
  {
  }

  /** Where the version-12 flags land, 152 bytes in. */
  lemma FlagsLaid(pre: Bytes, post: Bytes, w1: Bytes, w2: Bytes, w3: Bytes, w4: Bytes, w5: Bytes, w6: Bytes,
      w7: Bytes, w8: Bytes, w9: Bytes)
    requires |pre| == 152 && |w1| == 1 && |w2| == 1 && |w3| == 1 && |w4| == 1 && |w5| == 8
      && |w6| == 1 && |w7| == 1 && |w8| == 1 && |w9| == 1
    ensures var s := (pre + (w1 + (w2 + (w3 + (w4 + (w5 + (w6 + (w7 + (w8 + w9))))))))) + post;
      |s| >= 168
      && s[152] == w1[0]
      && s[153] == w2[0]
      && s[154] == w3[0]
      && s[155] == w4[0]
      && s[164] == w6[0]
      && s[165] == w7[0]
      && s[166] == w8[0]
      && s[167] == w9[0]
  {
  }

  /** Where the version-12 counters land, 168 bytes in. */
  lemma LaterLaid(pre: Bytes, post: Bytes, w1: Bytes, w2: Bytes, w3: Bytes, w4: Bytes, w5: Bytes, w6: Bytes,
      w7: Bytes, w8: Bytes, w9: Bytes, w10: Bytes)
    requires |pre| == 168 && |w1| == 4 && |w2| == 4 && |w3| == 4 && |w4| == 4 && |w5| == 4
      && |w6| == 4 && |w7| == 4 && |w8| == 4 && |w9| == 4 && |w10| == 4
    ensures var s := (pre + (w1 + (w2 + (w3 + (w4 + (w5 + (w6 + (w7 + (w8 + (w9 + w10)))))))))) + post;
      |s| >= 208
      && s[168] == w1[0] && s[169] == w1[1] && s[170] == w1[2] && s[171] == w1[3]
      && s[172] == w2[0] && s[173] == w2[1] && s[174] == w2[2] && s[175] == w2[3]
      && s[176] == w3[0] && s[177] == w3[1] && s[178] == w3[2] && s[179] == w3[3]
      && s[180] == w4[0] && s[181] == w4[1] && s[182] == w4[2] && s[183] == w4[3]
      && s[184] == w5[0] && s[185] == w5[1] && s[186] == w5[2] && s[187] == w5[3]
      && s[188] == w6[0] && s[189] == w6[1] && s[190] == w6[2] && s[191] == w6[3]
      && s[192] == w7[0] && s[193] == w7[1] && s[194] == w7[2] && s[195] == w7[3]
      && s[196] == w8[0] && s[197] == w8[1] && s[198] == w8[2] && s[199] == w8[3]
      && s[200] == w9[0] && s[201] == w9[1] && s[202] == w9[2] && s[203] == w9[3]
      && s[204] == w10[0] && s[205] == w10[1] && s[206] == w10[2] && s[207] == w10[3]
  {
  }

  // Each group of fields reads back where Save puts it, whatever lies around it.

  lemma BasicRead(b: BasicFields, count: Int32, isBE: bool, post: Bytes)
    ensures var s := BasicBytes(b, count, isBE) + post;
      ToInt32(s, 0, isBE) == count && BasicOf(s, isBE) == b
  {
    BasicLaid(post, WriteInt32(count, isBE), WriteInt32(b.id, isBE), WriteInt32(if b.hidden then 0 else 1, isBE),
      TypeChars(b.recordType, isBE), WriteInt16(b.recordType, isBE), [b.compilationFlag], [b.rating],
      WriteUInt32(b.date, isBE), WriteInt32(b.size, isBE), WriteInt32(b.length, isBE),
      WriteInt32(b.trackNumber, isBE), WriteInt32(b.totalTracks, isBE), WriteInt32(b.year, isBE),
      WriteInt32(b.bitRate, isBE), WriteInt16(b.unknownThree, isBE), WriteUInt16(b.sampleRate, isBE));
  }

  lemma PlayRead(p: PlayFields, isBE: bool, pre: Bytes, post: Bytes)
    requires |pre| == 52
    ensures PlayOf((pre + PlayBytes(p, isBE)) + post, isBE) == p
  {
    PlayLaid(pre, post, WriteInt32(p.volume, isBE), WriteInt32(p.startTime, isBE), WriteInt32(p.stopTime, isBE),
      WriteInt32(p.soundCheck, isBE), WriteInt32(p.playCount, isBE), WriteInt32(p.playCountDup, isBE),
      WriteUInt32(p.lastPlayedTime, isBE), WriteInt32(p.discNumber, isBE), WriteInt32(p.totalDiscs, isBE),
      WriteInt32(p.userId, isBE), WriteUInt32(p.lastModifiedTime, isBE), WriteInt32(p.bookmarkTime, isBE));
  }

  lemma ExtraRead(e: ExtraFields, isBE: bool, pre: Bytes, post: Bytes)
    requires |pre| == 100
    ensures ExtraOf((pre + ExtraBytes(e, isBE)) + post, isBE) == e
  {
    ExtraLaid(pre, post, WriteInt64(e.databaseId, isBE), [e.checked], [e.applicationRating],
      WriteInt16(e.bpm, isBE), WriteInt16(e.artworkCount, isBE), WriteInt16(e.unknownFour, isBE),
      WriteInt32(e.artworkSize, isBE), WriteInt32(e.unknownFive, isBE), WriteInt32(e.unknownSix, isBE),
      WriteUInt32(e.dateReleased, isBE), WriteInt16(e.unknownSeven, isBE), WriteInt16(e.unknownEight, isBE),
      WriteInt32(e.unknownNine, isBE), WriteInt32(e.unknownTen, isBE), WriteInt32(e.unknownEleven, isBE),
      WriteInt32(e.unknownTwelve, isBE));
  }

  /** As `TrackRecord.Read` is written, a saved record comes back with its artwork count
    * and unknownFour exchanged. */
  lemma ArtworkCountSwapped(e: ExtraFields, isBE: bool, pre: Bytes, post: Bytes)
    requires |pre| == 100
    ensures ExtraOfAsWritten((pre + ExtraBytes(e, isBE)) + post, isBE)
         == e.(artworkCount := e.unknownFour, unknownFour := e.artworkCount)
  {
    ExtraRead(e, isBE, pre, post);
  }

  lemma FlagsRead(g: FlagFields, databaseId: Int64, movie: bool, isBE: bool, pre: Bytes, post: Bytes)
    requires |pre| == 152 && |post| >= 40
    ensures var s := (pre + FlagBytes(g, databaseId, movie, isBE)) + post;
      FlagsOf(s) == g && s[165] == FlagByte(movie)
  {
    FlagsLaid(pre, post, [FlagByte(g.hasArtwork)], [FlagByte(g.skipWhenShuffle)], [FlagByte(g.rememberPosition)],
      [FlagByte(g.unknownPodcastFlag)], WriteInt64(databaseId, isBE), [FlagByte(g.hasLyrics)],
      [FlagByte(movie)], [if g.notPlayedMark then 2 else 1], [g.unknownThirteen]);
  }

  lemma LaterRead(l: LaterFields, code: Int32, isBE: bool, pre: Bytes, post: Bytes)
    requires |pre| == 168
    ensures var s := (pre + LaterBytes(l, code, isBE)) + post;
      LaterOf(s, isBE) == l && ToInt32(s, 196, isBE) == code
  {
    LaterLaid(pre, post, WriteInt32(l.unknownFourteen, isBE), WriteInt32(l.unknownFifteen, isBE),
      WriteInt32(l.sampleCount, isBE), WriteInt32(l.unknownSixteen, isBE),
      WriteInt32(l.unknownSeventeen, isBE), WriteInt32(l.unknownEighteen, isBE),
      WriteInt32(l.unknownNineteen, isBE), WriteInt32(code, isBE),
      WriteInt32(l.seasonNumber, isBE), WriteInt32(l.episodeNumber, isBE));
  }

  /** The media type survives a version-12 save and read, unless the record read into
    * is a movie and the saved one is not. */
  lemma MediaTypeRead(s: Bytes, m: MediaType, p: MediaType, isBE: bool)
    requires |s| >= 208 && s[165] == FlagByte(m == Movie) && ToInt32(s, 196, isBE) == FromMediaType(m)
    ensures MediaTypeOf(s, p, isBE) == if p == Movie then Movie else m
  {
    MediaTypeRoundTrip(m, 0);
  }

  /** What a read cannot give back: before version 12 the version-12 fields keep the
    * values of the record read into; a record that was a movie stays one. */
  predicate Unstored(f: TrackFields, p: TrackFields, version: int)
  {
    if version >= 12 then p.mediaType == Movie ==> f.mediaType == Movie
    else f.flags == p.flags && f.later == p.later && f.mediaType == p.mediaType
  }

  /** The groups every version writes read back, whatever follows them. */
  lemma CommonRead(f: TrackFields, count: Int32, isBE: bool, n: Bytes)
    ensures var s := BasicBytes(f.basic, count, isBE) + PlayBytes(f.play, isBE) + ExtraBytes(f.extra, isBE) + n;
      |s| >= 152 && ToInt32(s, 0, isBE) == count
      && BasicOf(s, isBE) == f.basic && PlayOf(s, isBE) == f.play && ExtraOf(s, isBE) == f.extra
  {
    var b, pl, e := BasicBytes(f.basic, count, isBE), PlayBytes(f.play, isBE), ExtraBytes(f.extra, isBE);
    Assoc(b + pl, e, n);
    Assoc(b, pl, e + n);
    BasicRead(f.basic, count, isBE, pl + (e + n));
    PlayRead(f.play, isBE, b, e + n);
    ExtraRead(f.extra, isBE, b + pl, n);
  }

  /** The version-12 groups read back after the first 152 bytes; the media type too,
    * unless the record read into is a movie and the saved one is not. */
  lemma NewerRead(f: TrackFields, p: MediaType, version: int, isBE: bool, front: Bytes)
    requires version >= 12 && |front| == 152 && (p == Movie ==> f.mediaType == Movie)
    ensures var s := front + NewerBytes(f, version, isBE);
      |s| >= 208 && FlagsOf(s) == f.flags && LaterOf(s, isBE) == f.later && MediaTypeOf(s, p, isBE) == f.mediaType
  {
    var g := FlagBytes(f.flags, f.extra.databaseId, f.mediaType == Movie, isBE);
    var l := LaterBytes(f.later, FromMediaType(f.mediaType), isBE);
    var s := front + NewerBytes(f, version, isBE);
    Assoc(front, g, l + Zeros(24));
    FlagsRead(f.flags, f.extra.databaseId, f.mediaType == Movie, isBE, front, l + Zeros(24));
    Assoc(front + g, l, Zeros(24));
    LaterRead(f.later, FromMediaType(f.mediaType), isBE, front + g, Zeros(24));
    MediaTypeRead(s, f.mediaType, p, isBE);
  }

  /** A saved body reads back as the fields it was saved from, given what it cannot
    * store, with the detail count in front. */
  lemma BodyRoundTrip(f: TrackFields, count: Int32, p: TrackFields, version: int, isBE: bool)
    requires Unstored(f, p, version)
    ensures var body := TrackBody(f, count, version, isBE);
      LongEnough(body, version) && ToInt32(body, 0, isBE) == count && FieldsOf(body, p, version, isBE) == f
  {
    CommonRead(f, count, isBE, NewerBytes(f, version, isBE));
    if version >= 12 {
      NewerRead(f, p.mediaType, version, isBE,
        BasicBytes(f.basic, count, isBE) + PlayBytes(f.play, isBE) + ExtraBytes(f.extra, isBE));
    }
  }

  /** A framed record reads as its body and children say. */
  lemma FramedRead(h1: HeaderOne, body: Bytes, children: Bytes, rest: Bytes, p: TrackFields, version: int, isBE: bool)
    requires ChildrenFit(children) && h1 == 12 + |body|
    ensures ReadTrack(Frame(h1, body, children, isBE) + rest, p, version, isBE)
         == TrackFromBody(body, children + rest, p, version, isBE)
  {
    FrameThen(h1, body, children, rest, isBE);
    ReadFramed(Frame(h1, body, children, isBE) + rest, h1, h1 + |children|, body, children + rest, p, version, isBE);
  }

  /** What follows a framed record comes after its children. */
  lemma FrameThen(h1: HeaderOne, body: Bytes, children: Bytes, rest: Bytes, isBE: bool)
    requires ChildrenFit(children)
    ensures Frame(h1, body, children, isBE) + rest
         == WriteHeader(TrackTag, h1, h1 + |children|, isBE) + (body + (children + rest))
  {
    Regroup(WriteHeader(TrackTag, h1, h1 + |children|, isBE), body, children, rest);
  }

  lemma BodyThenDetails(body: Bytes, tail: Bytes, rest: Bytes, v: TrackValue, p: TrackFields, version: int, isBE: bool)
    requires LongEnough(body, version) && ToInt32(body, 0, isBE) == |v.details|
    requires FieldsOf(body, p, version, isBE) == v.fields
    requires ReadDetails(tail, |v.details|, isBE) == Success(Parsed(v.details, rest))
    ensures TrackFromBody(body, tail, p, version, isBE) == Success(Parsed(v, rest))
  {
  }

  /** A record read splits at HeaderOne: the body before it, the details after. */
  lemma ReadFramed(s: Bytes, h1: HeaderOne, h2: Int32, body: Bytes, tail: Bytes, p: TrackFields, version: int, isBE: bool)
    requires h1 == 12 + |body| && s == WriteHeader(TrackTag, h1, h2, isBE) + (body + tail)
    ensures ReadTrack(s, p, version, isBE) == TrackFromBody(body, tail, p, version, isBE)
  {
    HeaderRoundTrip(TrackTag, h1, h2, isBE, body + tail);
    var b := ReadBytes(body + tail, h1 - 12);
    AppendCancel(b.value.value, b.value.rest, body, tail);
  }

  /** A saved record reads back as itself, with what follows it left over. */
  lemma TrackRoundTrip(v: TrackValue, p: TrackFields, version: int, isBE: bool, rest: Bytes)
    requires TrackSaveable(v, isBE) && Unstored(v.fields, p, version)
    ensures ReadTrack(EncodeTrack(v, version, isBE) + rest, p, version, isBE) == Success(Parsed(v, rest))
  {
    var body := TrackBody(v.fields, |v.details|, version, isBE);
    var children := SaveDetails(v.details, isBE);
    BodyRoundTrip(v.fields, |v.details|, p, version, isBE);
    DetailsRoundTrip(v.details, isBE, rest);
    BodyThenDetails(body, children + rest, rest, v, p, version, isBE);
    FramedRead(TrackHeaderOne(version), body, children, rest, p, version, isBE);
  }

  /** Before version 12, a record saved as `TrackRecord.Save` is written cannot be read
    * back: HeaderOne 156 leaves 144 body bytes where the fields need 152. */
  lemma OldSaveUnreadable(v: TrackValue, p: TrackFields, version: int, isBE: bool, rest: Bytes)
    requires TrackSaveable(v, isBE) && version < 12
    ensures ReadTrack(EncodeTrackAsWritten(v, version, isBE) + rest, p, version, isBE) == Failure(IndexOutOfRange)
  {
    FrameShort(156, TrackBody(v.fields, |v.details|, version, isBE), SaveDetails(v.details, isBE), rest,
      p, version, isBE);
  }

  /** A record whose HeaderOne leaves fewer than 152 body bytes cannot be read. */
  lemma FrameShort(h1: HeaderOne, body: Bytes, children: Bytes, rest: Bytes, p: TrackFields, version: int, isBE: bool)
    requires 12 <= h1 < 12 + 152 && ChildrenFit(children) && h1 - 12 <= |body|
    ensures ReadTrack(Frame(h1, body, children, isBE) + rest, p, version, isBE) == Failure(IndexOutOfRange)
  {
    var k := h1 - 12;
    FrameThen(h1, body, children, rest, isBE);
    assert body + (children + rest) == body[..k] + (body[k..] + (children + rest));
    ReadFramed(Frame(h1, body, children, isBE) + rest, h1, h1 + |children|, body[..k], body[k..] + (children + rest),
      p, version, isBE);
  }
}
