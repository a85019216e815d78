// The `Track` a program using the database sees (Track.cs): a handle on one track record
// of the database, with the properties that read and write the record, equality by the
// permanent database id, the comparer that orders tracks for display, and the quoting
// that turns a file path into a file URI.
module TrackWrapper {
  import opened Wrappers
  import opened Binary
  import opened Details
  import opened Tracks
  import opened TrackRecords
  import opened PodPaths

  // Ratings (Track.cs:10-17).

  datatype TrackRating = Zero | One | Two | Three | Four | Five

  /** The numeric value of a `TrackRating`, which the record stores as a byte. */
  function RatingCode(r: TrackRating): Byte
  {
    match r
    case Zero => 0
    case One => 20
    case Two => 40
    case Three => 60
    case Four => 80
    case Five => 100
  }

  /** The named rating a stored byte stands for, if any: the cast `(TrackRating) b`
    * also yields unnamed values, for every other byte. */
  function RatingOf(b: Byte): (r: Option<TrackRating>)
    ensures r.Some? ==> RatingCode(r.value) == b
  {
    if b == 0 then Some(Zero)
    else if b == 20 then Some(One)
    else if b == 40 then Some(Two)
    else if b == 60 then Some(Three)
    else if b == 80 then Some(Four)
    else if b == 100 then Some(Five)
    else None
  }

  /** Every rating is told apart by its code. */
  lemma RatingRoundTrip(r: TrackRating)
    ensures RatingOf(RatingCode(r)) == Some(r)
  {
  }

  // File URIs (Track.cs:47 and 364-387).

  /** The characters `PathToFileUri` escapes. */
  const CharsToQuote: seq<char> := [';', '?', '@', '&', '=', '$', ',', '#', '%']

  /** What the property setters and the `Uri` setter need of a `System.Uri`. */
  datatype Uri = Uri(scheme: string, localPath: string)

  const FileScheme: string := "file"

  function HexDigit(n: nat): (c: char)
    requires n < 16
  {
    if n < 10 then ('0' as int + n) as char else ('A' as int + n - 10) as char
  }

  predicate IsHexDigit(c: char)
  {
    '0' <= c <= '9' || 'A' <= c <= 'F'
  }

  function HexValue(c: char): (n: nat)
    requires IsHexDigit(c)
    ensures n < 16 && HexDigit(n) == c
  {
    if c <= '9' then c as int - '0' as int else c as int - 'A' as int + 10
  }

  /** `Uri.HexEscape`: '%' and the two upper-case hex digits of the character. */
  function HexEscape(c: char): (r: string)
    requires c as int < 256
    ensures |r| == 3 && r[0] == '%' && IsHexDigit(r[1]) && IsHexDigit(r[2])
    ensures HexValue(r[1]) * 16 + HexValue(r[2]) == c as int
  {
    ['%', HexDigit(c as int / 16), HexDigit(c as int % 16)]
  }

  /** One character as the quoted path holds it. */
  function QuoteChar(c: char): string
  {
    if c in CharsToQuote then HexEscape(c) else [c]
  }

  /** The path with each character to quote replaced by its escape and every other
    * character kept, in order. */
  function Quoted(path: string): string
  {
    if path == [] then [] else QuoteChar(path[0]) + Quoted(path[1..])
  }

  lemma Assoc(a: string, b: string, c: string)
    ensures (a + b) + c == a + (b + c)
  {
  }

  lemma {:induction false} QuotedAppend(a: string, b: string)
    ensures Quoted(a + b) == Quoted(a) + Quoted(b)
  {
    if a != [] {
      assert (a + b)[0] == a[0] && (a + b)[1..] == a[1..] + b;
      assert Quoted(a + b) == QuoteChar(a[0]) + Quoted(a[1..] + b);
      QuotedAppend(a[1..], b);
      Assoc(QuoteChar(a[0]), Quoted(a[1..]), Quoted(b));
    } else {
      assert a + b == b;
    }
  }

  lemma {:induction false} QuotedPlain(s: string)
    requires forall k :: 0 <= k < |s| ==> s[k] !in CharsToQuote
    ensures Quoted(s) == s
  {
    if s != [] {
      QuotedPlain(s[1..]);
    }
  }

  /** Unescaping, as a URI's local path does: every '%' followed by two hex digits is
    * the character they code. */
  function Unquote(s: string): string
  {
    if |s| >= 3 && s[0] == '%' && IsHexDigit(s[1]) && IsHexDigit(s[2]) then
      [(HexValue(s[1]) * 16 + HexValue(s[2])) as char] + Unquote(s[3..])
    else if s == [] then []
    else [s[0]] + Unquote(s[1..])
  }

  /** The quoted path unescapes to the path: quoting loses nothing. */
  lemma {:induction false} QuotedRoundTrip(path: string)
    ensures Unquote(Quoted(path)) == path
  {
    if path != [] {
      var c := path[0];
      var tail := Quoted(path[1..]);
      QuotedRoundTrip(path[1..]);
      if c in CharsToQuote {
        var e := HexEscape(c);
        assert (e + tail)[3..] == tail;
      } else {
        assert c != '%';
        assert ([c] + tail)[1..] == tail;
      }
    }
  }

  /** `IndexOfAny`: the first index of a character of the set, or -1. */
  function IndexOfAny(s: string, chars: seq<char>): (k: int)
    ensures -1 <= k < |s|
    ensures k >= 0 ==> s[k] in chars
    ensures forall j :: 0 <= j < |s| && (k < 0 || j < k) ==> s[j] !in chars
  {
    if s == [] then -1
    else if s[0] in chars then 0
    else
      var k := IndexOfAny(s[1..], chars);
      if k < 0 then -1 else k + 1
  }

  /** Quoting a prefix, then plain characters, then one character to quote. */
  lemma QuotedSnoc(pre: string, plain: string, c: char)
    requires forall k :: 0 <= k < |plain| ==> plain[k] !in CharsToQuote
    requires c in CharsToQuote
    ensures Quoted(pre + plain + [c]) == Quoted(pre) + plain + HexEscape(c)
  {
    QuotedPlain(plain);
    assert Quoted([c]) == HexEscape(c);
    QuotedAppend(pre + plain, [c]);
    QuotedAppend(pre, plain);
  }

  /** The quoted prefix grows by the plain characters before the first character to
    * quote, then its escape. */
  lemma QuotedPrefixStep(whole: string, n: nat, i: nat)
    requires n <= |whole| && i < |whole| - n && i == IndexOfAny(whole[n..], CharsToQuote)
    ensures Quoted(whole[..n + i + 1]) == Quoted(whole[..n]) + whole[n..n + i] + HexEscape(whole[n + i])
  {
    var plain := whole[n..n + i];
    assert plain == whole[n..][..i] && whole[n + i] == whole[n..][i];
    assert whole[..n + i + 1] == whole[..n] + plain + [whole[n + i]];
    QuotedSnoc(whole[..n], plain, whole[n + i]);
  }

  /** One step of the quoting loop: the plain characters before the first character to
    * quote, when there are any, then its escape; the rest after it is left. */
  lemma QuotedStep(builder: string, pre: string, whole: string, rest: string, n: nat, i: nat)
    requires n <= |whole| && rest == whole[n..] && i < |rest| && i == IndexOfAny(rest, CharsToQuote)
    requires builder == pre + Quoted(whole[..n])
    ensures (if i > 0 then builder + rest[..i] else builder) + HexEscape(rest[i])
            == pre + Quoted(whole[..n + i + 1])
    ensures rest[i + 1..] == whole[n + i + 1..]
  {
    QuotedPrefixStep(whole, n, i);
    var q := Quoted(whole[..n]);
    var plain := rest[..i];
    assert plain == whole[n..n + i];
    if i == 0 {
      assert q + plain == q;
    }
    Assoc(pre, q + plain, HexEscape(rest[i]));
    Assoc(pre, q, plain);
  }

  /** The end of the quoting loop: nothing left to quote. */
  lemma QuotedEnd(builder: string, pre: string, whole: string, n: nat)
    requires n <= |whole| && IndexOfAny(whole[n..], CharsToQuote) == -1
    requires builder == pre + Quoted(whole[..n])
    ensures builder + whole[n..] == pre + Quoted(whole)
  {
    QuotedPlain(whole[n..]);
    QuotedAppend(whole[..n], whole[n..]);
    assert whole[..n] + whole[n..] == whole;
    Assoc(pre, Quoted(whole[..n]), whole[n..]);
  }

  /** `PathToFileUri` on a path already made absolute: null gives null; otherwise the
    * scheme, then the path with the characters to quote escaped one at a time from the
    * left. */
  method PathToFileUri(path: Option<string>) returns (r: Option<string>)
    ensures path.None? ==> r.None?
    ensures path.Some? ==> r == Some("file://" + Quoted(path.value))
  {
    if path.None? {
      return None;
    }
    var rest := path.value;
    ghost var whole := rest;
    ghost var n := 0;
    var builder := FileScheme + "://";
    var i := IndexOfAny(rest, CharsToQuote);
    while i != -1
      invariant n <= |whole| && rest == whole[n..]
      invariant builder == "file://" + Quoted(whole[..n])
      invariant i == IndexOfAny(rest, CharsToQuote)
      decreases |rest|
    {
      QuotedStep(builder, "file://", whole, rest, n, i);
      if i > 0 {
        builder := builder + rest[..i];
      }
      builder := builder + HexEscape(rest[i]);
      rest := rest[i + 1..];
      n := n + i + 1;
      i := IndexOfAny(rest, CharsToQuote);
    }
    QuotedEnd(builder, "file://", whole, n);
    builder := builder + rest;
    return Some(builder);
  }

  // Text.

  /** `ToLower`, for the letters A to Z. */
  function ToLower(s: string): (r: string)
    ensures |r| == |s|
    ensures forall k :: 0 <= k < |s| ==> r[k] == if 'A' <= s[k] <= 'Z' then (s[k] as int + 32) as char else s[k]
  {
    if s == [] then [] else
      [if 'A' <= s[0] <= 'Z' then (s[0] as int + 32) as char else s[0]] + ToLower(s[1..])
  }

  function DigitsOf(n: nat): (r: string)
    ensures |r| >= 1
    decreases n
  {
    if n < 10 then [('0' as int + n) as char] else DigitsOf(n / 10) + [('0' as int + n % 10) as char]
  }

  /** `int.ToString ()`: the decimal digits, after a minus sign for a negative number. */
  function DecimalString(n: int): string
  {
    if n < 0 then "-" + DigitsOf(-n) else DigitsOf(n)
  }

  /** How `String.Format` writes a string argument: null as the empty string. */
  function Shown(s: Option<string>): string
  {
    if s.None? then "" else s.value
  }

  /** `Path.GetInvalidFileNameChars ()` on Windows, where the program runs: the control
    * characters and `" < > | : * ? \ /`. */
  predicate InvalidFileNameChar(c: char)
  {
    c as int < 32 || c in ['"', '<', '>', '|', ':', '*', '?', '\\', '/']
  }

  const InvalidFileNameChars: seq<char> :=
    ['"', '<', '>', '|'] + seq(32, k requires 0 <= k < 32 => k as char) + [':', '*', '?', '\\', '/']

  lemma InvalidFileNameCharsListed(c: char)
    ensures c in InvalidFileNameChars <==> InvalidFileNameChar(c)
  {
    var low := seq(32, k requires 0 <= k < 32 => k as char);
    if c as int < 32 {
      assert low[c as int] == c;
    }
  }

  /** The name with every invalid file-name character replaced by '_'. */
  function Sanitized(s: string): (r: string)
    ensures |r| == |s|
    ensures forall k :: 0 <= k < |s| ==> r[k] == if InvalidFileNameChar(s[k]) then '_' else s[k]
  {
    if s == [] then [] else [if InvalidFileNameChar(s[0]) then '_' else s[0]] + Sanitized(s[1..])
  }

  /** The loop of `CorrectedFileName`: every invalid file-name character in turn is
    * replaced by '_' throughout the name. */
  method ReplaceInvalid(name: string) returns (s: string)
    ensures s == Sanitized(name)
  {
    s := name;
    var i := 0;
    while i < |InvalidFileNameChars|
      invariant 0 <= i <= |InvalidFileNameChars| && |s| == |name|
      invariant forall k :: 0 <= k < |s| ==> s[k] == if name[k] in InvalidFileNameChars[..i] then '_' else name[k]
    {
      s := ReplaceChar(s, InvalidFileNameChars[i], '_');
      assert InvalidFileNameChars[..i + 1] == InvalidFileNameChars[..i] + [InvalidFileNameChars[i]];
      i := i + 1;
    }
    assert InvalidFileNameChars[..i] == InvalidFileNameChars;
    forall k | 0 <= k < |s|
      ensures s[k] == Sanitized(name)[k]
    {
      InvalidFileNameCharsListed(name[k]);
    }
  }

  /** `Int64.GetHashCode`: the low and the high 32 bits of the number, exclusive-or'ed. */
  function Int64Hash(x: Int64): Int32
  {
    var u := if x < 0 then x + 0x1_0000_0000_0000_0000 else x;
    var low := (u % 0x1_0000_0000) as bv32;
    var high := (u / 0x1_0000_0000) as bv32;
    Signed32((low ^ high) as int)
  }

  /** The file length truncated to an int, as the cast `(int) info.Length` does. */
  function TruncatedLength(length: nat): Int32
  {
    Signed32(length % 0x1_0000_0000)
  }

  /** Why setting a track's URI throws. */
  datatype UriError = NullUri | NotFileScheme

  class Track {
    /** The record the track reads and writes. */
    const record: TrackRecord
    /** The device of the database the track belongs to. */
    const device: Device
    var latestPlayCount: Int32
    /** The URI last set or computed (`uri`); None while null. */
    var uri: Option<Uri>

    /** `internal Track (TrackDatabase db, TrackRecord record)`. */
    constructor(device: Device, record: TrackRecord)
      ensures this.record == record && this.device == device
      ensures latestPlayCount == 0 && uri == None
    {
      this.record := record;
      this.device := device;
      latestPlayCount := 0;
      uri := None;
    }

    /** `Id`: the permanent database id, not the record's local id. */
    function Id(): Int64
      reads record
    {
      record.fields.extra.databaseId
    }

    function Size(): Int32
      reads record
    {
      record.fields.basic.size
    }

    function TrackNumber(): Int32
      reads record
    {
      record.fields.basic.trackNumber
    }

    /** The value a text property's getter returns: that of the first detail of the type,
      * or null when there is none (the getter's `GetDetail` then adds an empty one). */
    function Text(code: Int32): (r: Option<string>)
      reads record
    {
      var k := FindDetail(record.details, code);
      if k < 0 then None else ValueOf(record.details[k])
    }

    function Title(): Option<string> reads record { Text(Details.Title) }
    function Artist(): Option<string> reads record { Text(Details.Artist) }
    function Album(): Option<string> reads record { Text(Details.Album) }

    /** `FileName`: the local path of the URI. While no URI is held, the getter of `Uri`
      * makes one from the file-system path of the Location detail, whose local path is that
      * path again (`QuotedRoundTrip`); null when the detail has no value. */
    function FileName(): Option<string>
      reads this, record
    {
      if uri.Some? then Some(uri.value.localPath) else GetFilesystemPath(device, Text(Location))
    }

    /** `Equals`: another track with the same database id. */
    predicate Equals(other: Track?)
      reads record, if other == null then {} else {other.record}
    {
      other != null && Id() == other.Id()
    }

    /** `GetHashCode`: the hash of the database id. */
    function GetHashCode(): Int32
      reads record
    {
      Int64Hash(Id())
    }

    /** `IsCompilation`: the stored flag byte is 1. */
    predicate IsCompilation()
      reads record
    {
      record.fields.basic.compilationFlag == 1
    }

    /** `IsCompilation`'s setter: 1 for true, 0 for false; nothing else changes. */
    method SetCompilation(value: bool)
      modifies record`fields
      ensures record.fields == old(record.fields).(basic := old(record.fields.basic).(compilationFlag := FlagByte(value)))
      ensures IsCompilation() == value
    {
      record.fields := record.fields.(basic := record.fields.basic.(compilationFlag := FlagByte(value)));
    }

    /** `Rating`: the stored byte, read as a `TrackRating`. */
    function Rating(): Byte
      reads record
    {
      record.fields.basic.rating
    }

    /** `Rating`'s setter: the rating's code; reading it back gives the same rating. */
    method SetRating(value: TrackRating)
      modifies record`fields
      ensures record.fields == old(record.fields).(basic := old(record.fields.basic).(rating := RatingCode(value)))
      ensures RatingOf(Rating()) == Some(value)
    {
      record.fields := record.fields.(basic := record.fields.basic.(rating := RatingCode(value)));
      RatingRoundTrip(value);
    }

    /** `IsProtected`: the track belongs to a store account. */
    predicate IsProtected()
      reads record
    {
      record.fields.play.userId != 0
    }

    /** The text property setters (`Title`, `Artist`, `Album`, `Genre`, `Comment`,
      * `PodcastUrl`, `Category`, `Grouping`): the value goes into the first detail of the
      * type, which is added first when there is none; the getter then returns it. */
    method SetText(code: Int32, value: string)
      requires code < 50 && code != ChapterData
      modifies record`details
      ensures var k := FindDetail(old(record.details), code);
        record.details == if k >= 0 then old(record.details)[k := WithValue(old(record.details)[k], value)]
                          else old(record.details) + [WithValue(FreshDetail(code), value)]
      ensures Text(code) == Some(value)
    {
      var k := record.GetDetail(code);
      record.SetValueAt(k, value);
      FindDetailKept(old(record.details), k, value, code);
    }

    /** `ToString`: "(number) artist - album - title". */
    function ToString(): string
      reads record
    {
      "(" + DecimalString(TrackNumber()) + ") " + Shown(Artist()) + " - " + Shown(Album()) + " - " + Shown(Title())
    }

    /** `CorrectedFileName`: ToString () and ".mp3", with each invalid file-name character
      * replaced by '_'; no invalid character is left. */
    method CorrectedFileName() returns (s: string)
      ensures s == Sanitized(ToString() + ".mp3")
      ensures forall k :: 0 <= k < |s| ==> !InvalidFileNameChar(s[k])
    {
      s := ReplaceInvalid(ToString() + ".mp3");
    }

    /** The `Uri` setter. Null throws; the URI already held changes nothing; a scheme other
      * than file throws. Otherwise the Location detail becomes the file's pod path when the
      * file is already in the device's music folders, or a new unique pod path (whose
      * random name is given) when it is not; the size becomes the file's length (given)
      * cast to an int; the URI is kept; and the type becomes MP3 exactly when the
      * lower-cased local path ends in "mp3", AAC otherwise. */
    method SetUri(value: Option<Uri>, uniqueName: string, fileLength: nat) returns (r: Result<bool, UriError>)
      requires Constructed(device)
      modifies this`uri, record`details, record`fields
      ensures value.None? ==> r == Failure(NullUri)
      ensures value.Some? && old(uri) == value ==> r == Success(false)
      ensures value.Some? && old(uri) != value && value.value.scheme != FileScheme ==> r == Failure(NotFileScheme)
      ensures r != Success(true) ==> uri == old(uri) && record.Value() == old(record.Value())
      ensures r == Success(true) <==> value.Some? && old(uri) != value && value.value.scheme == FileScheme
      ensures r == Success(true) ==>
        var path := value.value.localPath;
        var location := if IsTrackOnDevice(device, path) then GetPodPath(device, Some(path))
                        else GetUniquePodPath(device, Some(path), uniqueName);
        location.Some?
        && Text(Location) == location
        && uri == value
        && record.fields == old(record.fields).(basic := old(record.fields.basic).(
             size := TruncatedLength(fileLength),
             recordType := if EndsWith(ToLower(path), "mp3") then Mp3 else Aac))
        && (record.fields.basic.recordType == Mp3 <==> EndsWith(ToLower(path), "mp3"))
    {
      if value.None? {
        return Failure(NullUri);
      }
      if value == uri {
        return Success(false);
      }
      var v := value.value;
      if v.scheme != FileScheme {
        return Failure(NotFileScheme);
      }
      var location: Option<string>;
      if IsTrackOnDevice(device, v.localPath) {
        OnDeviceHasPodPath(device, v.localPath);
        location := GetPodPath(device, Some(v.localPath));
      } else {
        location := GetUniquePodPath(device, Some(v.localPath), uniqueName);
      }
      SetText(Location, location.value);
      record.fields := record.fields.(basic := record.fields.basic.(size := TruncatedLength(fileLength)));
      uri := value;
      var kind := if EndsWith(ToLower(v.localPath), "mp3") then Mp3 else Aac;
      record.fields := record.fields.(basic := record.fields.basic.(recordType := kind));
      return Success(true);
    }
  }

  /** Changing the value of the first detail of a type leaves it the first of its type,
    * now holding the value. */
  lemma FindDetailKept(before: seq<Detail>, k: nat, value: string, code: Int32)
    requires code < 50 && code != ChapterData
    requires var ds := WithDetail(before, code); k < |ds| && k == FindDetail(ds, code)
    ensures var ds := WithDetail(before, code);
      var after := ds[k := WithValue(ds[k], value)];
      FindDetail(after, code) == k && ValueOf(after[k]) == Some(value)
  {
    var ds := WithDetail(before, code);
    var after := ds[k := WithValue(ds[k], value)];
    assert ds[k].Type() == code && after[k].Type() == code;
    assert forall j :: 0 <= j < k ==> after[j] == ds[j];
    var f := FindDetail(after, code);
    assert f >= 0;
    assert !(f < k) && !(f > k);
  }

  /** Equal tracks hash equally. */
  lemma EqualTracksHashEqually(a: Track, b: Track)
    requires a.Equals(b)
    ensures a.GetHashCode() == b.GetHashCode()
  {
  }

  /** Track equality is an equivalence on tracks, and no track equals null. */
  lemma EqualsIsEquivalence(a: Track, b: Track, c: Track)
    ensures a.Equals(a) && !a.Equals(null)
    ensures a.Equals(b) ==> b.Equals(a)
    ensures a.Equals(b) && b.Equals(c) ==> a.Equals(c)
  {
  }

  // The comparer (Track.cs:30-44).

  /** `int.CompareTo`: -1, 0 or 1. */
  function CompareInt(a: int, b: int): int
  {
    if a < b then -1 else if a == b then 0 else 1
  }

  /** Why comparing throws: `CompareTo` called on a null string. */
  datatype CompareError = NullReference

  /** `a.CompareTo (b)` on strings, with the culture's order `order` (which the library
    * supplies): a null receiver throws, and every string comes after null. */
  function CompareStrings(order: (string, string) -> int, a: Option<string>, b: Option<string>): Result<int, CompareError>
  {
    if a.None? then Failure(NullReference)
    else if b.None? then Success(1)
    else Success(order(a.value, b.value))
  }

  /** The order of `TrackComparer.Compare` on the keys it reads. */
  function CompareKeys(order: (string, string) -> int, artist1: Option<string>, album1: Option<string>, number1: int,
                       artist2: Option<string>, album2: Option<string>, number2: int): Result<int, CompareError>
  {
    if artist1 != artist2 then CompareStrings(order, artist1, artist2)
    else if album1 != album2 then CompareStrings(order, album1, album2)
    else Success(CompareInt(number1, number2))
  }

  /** `TrackComparer.Compare`: by artist; between equal artists by album; between equal
    * albums by track number. */
  function Compare(order: (string, string) -> int, me: Track, other: Track): (r: Result<int, CompareError>)
    reads me.record, other.record
    ensures r == CompareKeys(order, me.Artist(), me.Album(), me.TrackNumber(),
                             other.Artist(), other.Album(), other.TrackNumber())
  {
    if me.Artist() != other.Artist() then CompareStrings(order, me.Artist(), other.Artist())
    else if me.Album() != other.Album() then CompareStrings(order, me.Album(), other.Album())
    else Success(CompareInt(me.TrackNumber(), other.TrackNumber()))
  }

  /** An order on strings that is antisymmetric and calls only equal strings equal. */
  ghost predicate StrictOrder(order: (string, string) -> int)
  {
    forall a, b :: (order(a, b) == 0 <==> a == b) && (order(a, b) < 0 <==> order(b, a) > 0)
  }

  /** Over such an order, swapping the tracks reverses the sign of every comparison that
    * does not throw, and two tracks compare equal exactly when artist, album and track
    * number are all the same. */
  lemma CompareKeysOrder(order: (string, string) -> int, artist1: Option<string>, album1: Option<string>, number1: int,
                         artist2: Option<string>, album2: Option<string>, number2: int)
    requires StrictOrder(order)
    ensures var r := CompareKeys(order, artist1, album1, number1, artist2, album2, number2);
      var s := CompareKeys(order, artist2, album2, number2, artist1, album1, number1);
      (r.Success? && s.Success? ==> (r.value < 0 <==> s.value > 0))
      && (r == Success(0) <==> artist1 == artist2 && album1 == album2 && number1 == number2)
  {
  }
}
