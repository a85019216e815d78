// The database a program opens on a device (`TrackDatabase`, TrackDatabase.cs:1565-2213):
// its tracks and ordinary playlists, the queues of tracks to copy to and delete from the
// device at the next save, and the bookkeeping that keeps them in step with the records.
// The database holds the library data set's track list and the playlist data set's
// playlist list (which the duplicate data set shares) directly.
module TrackDatabases {
  import opened Wrappers
  import opened Binary
  import opened Lists
  import opened Details
  import opened Tracks
  import opened TrackRecords
  import opened TrackLists
  import opened PlaylistItems
  import opened Playlists
  import opened PlaylistRecords
  import opened PlaylistLists
  import opened Reassignment
  import opened DatabaseRecords
  import opened PodPaths
  import opened TrackWrapper

  // `IsAscii` (TrackDatabase.cs:1566-1580).

  /** What `IsAscii` accepts: null, or a string whose every character has a code from 30
    * to 127, the empty string among them. */
  predicate Ascii(data: Option<string>)
  {
    data.None? || forall k :: 0 <= k < |data.value| ==> 30 <= data.value[k] as int <= 127
  }

  method IsAscii(data: Option<string>) returns (r: bool)
    ensures r <==> Ascii(data)
  {
    if data.None? || |data.value| == 0 {
      return true;
    }
    var s := data.value;
    var i := 0;
    while i < |s|
      invariant 0 <= i <= |s|
      invariant forall k :: 0 <= k < i ==> 30 <= s[k] as int <= 127
    {
      if s[i] as int > 127 || s[i] as int < 30 {
        return false;
      }
      i := i + 1;
    }
    return true;
  }

  // The tracks, as `List<Track>` sees them.

  /** The records of some tracks, in order. */
  function Records(ts: seq<Track>): (rs: seq<TrackRecord>)
    ensures |rs| == |ts| && forall k :: 0 <= k < |ts| ==> rs[k] == ts[k].record
  {
    seq(|ts|, k requires 0 <= k < |ts| => ts[k].record)
  }

  /** The database ids of some tracks, in order: what `Track.Equals` compares. */
  function DatabaseIdsOf(ts: seq<Track>): (ids: seq<Int64>)
    reads set t | t in ts :: t.record
    ensures |ids| == |ts| && forall k :: 0 <= k < |ts| ==> ids[k] == ts[k].Id()
  {
    seq(|ts|, k reads set t | t in ts :: t.record requires 0 <= k < |ts| => ts[k].Id())
  }

  /** The list without the element at k, or the list itself for k = -1. */
  function RemovedAt<T>(s: seq<T>, k: int): (r: seq<T>)
    requires -1 <= k < |s|
    ensures k >= 0 ==> |r| == |s| - 1 && forall j :: 0 <= j < |r| ==> r[j] == if j < k then s[j] else s[j + 1]
  {
    if k < 0 then s else s[..k] + s[k + 1..]
  }

  /** The first index is the one before which x does not occur. */
  lemma {:induction false} FirstIndexIs<T>(s: seq<T>, x: T, k: nat)
    requires k < |s| && s[k] == x && x !in s[..k]
    ensures FirstIndex(s, x) == k
  {
    if k > 0 {
      assert s[..k][0] == s[0];
      assert s[1..][..k - 1] == s[..k][1..];
      FirstIndexIs(s[1..], x, k - 1);
    }
  }

  /** `List.IndexOf` with `Track.Equals` (as `Contains` and `Remove` use it): the first
    * track with the same database id, or -1. */
  method IndexOfTrack(ts: seq<Track>, track: Track) returns (k: int)
    ensures k == FirstIndex(DatabaseIdsOf(ts), track.Id())
  {
    ghost var ids := DatabaseIdsOf(ts);
    k := 0;
    while k < |ts|
      invariant 0 <= k <= |ts| && track.Id() !in ids[..k]
    {
      if track.Equals(ts[k]) {
        FirstIndexIs(ids, track.Id(), k);
        return;
      }
      assert ids[..k + 1] == ids[..k] + [ids[k]];
      k := k + 1;
    }
    assert ids[..k] == ids;
    return -1;
  }

  /** A track queued and then taken off its queue again, with no other track of the same
    * database id queued, leaves the queue as it was: adding a new track and removing it
    * before a save, or removing a track and adding it back, cancel out. */
  lemma {:induction false} QueuedThenRemoved(q: seq<Track>, ids: seq<Int64>, t: Track, id: Int64)
    requires |ids| == |q| && id !in ids
    ensures FirstIndex(ids + [id], id) == |q|
    ensures RemovedAt(q + [t], FirstIndex(ids + [id], id)) == q
  {
    var all := ids + [id];
    assert all[|q|] == id && all[..|q|] == ids;
    FirstIndexIs(all, id, |q|);
    assert (q + [t])[..|q|] == q;
  }

  lemma RecordsSnoc(ts: seq<Track>, t: Track)
    ensures Records(ts + [t]) == Records(ts) + [t.record]
  {
  }

  lemma RecordsRemovedAt(ts: seq<Track>, k: nat)
    requires k < |ts|
    ensures Records(RemovedAt(ts, k)) == RemovedAt(Records(ts), k)
  {
  }

  /** What `RemoveFirst` leaves is in the list, and the head stays when it is not x. */
  lemma RemoveFirstKeeps<T>(s: seq<T>, x: T)
    ensures forall y :: y in RemoveFirst(s, x) ==> y in s
    ensures |s| >= 1 && s[0] != x ==> |RemoveFirst(s, x)| >= 1 && RemoveFirst(s, x)[0] == s[0]
  {
    var k := FirstIndex(s, x);
    if k >= 0 {
      var r := s[..k] + s[k + 1..];
      assert forall j :: 0 <= j < |r| ==> r[j] == if j < k then s[j] else s[j + 1];
    }
  }

  // `LoadPlayCounts` (TrackDatabase.cs:1763-1795).

  /** An entry of the play counts file long enough for what the merge reads of it: the
    * play count and the time last played, and the rating when entries are 16 bytes or
    * more. */
  predicate EntryFits(entry: Bytes, entryLength: Int32)
  {
    |entry| >= 8 && (entryLength >= 16 ==> |entry| >= 16)
  }

  /** Where the merge stops, looking from entry i on: at the end, at the first entry
    * without a track (`tracks[i]` throws), or at the first entry too short to read (the
    * reader throws). */
  function MergedFrom(entries: seq<Bytes>, entryLength: Int32, count: nat, i: nat): (n: nat)
    requires i <= |entries|
    ensures i <= n <= |entries|
    decreases |entries| - i
  {
    if i == |entries| || i >= count || !EntryFits(entries[i], entryLength) then i
    else MergedFrom(entries, entryLength, count, i + 1)
  }

  /** Every entry before where the merge stops has a track and can be read. */
  lemma {:induction false} MergedFromFits(entries: seq<Bytes>, entryLength: Int32, count: nat, i: nat, k: nat)
    requires i <= |entries| && i <= k < MergedFrom(entries, entryLength, count, i)
    ensures k < count && EntryFits(entries[k], entryLength)
    decreases |entries| - i
  {
    if i < k {
      MergedFromFits(entries, entryLength, count, i + 1, k);
    }
  }

  /** `a + b` on ints, which wraps round. */
  function Add32(a: Int32, b: Int32): Int32
  {
    Signed32((a + b) % 0x1_0000_0000)
  }

  /** The merge of one entry into a track, as far as the entry can be read: the play
    * count grows by the entry's count, the time last played becomes the entry's when that
    * is set, and with entries of 16 bytes or more the rating becomes the low byte of the
    * entry's rating (`(byte) rating`). Each read of an entry too short for it throws, so
    * a short entry leaves the track with the steps before that read done. */
  function Merged(f: TrackFields, entry: Bytes, entryLength: Int32, isBE: bool): (r: TrackFields)
    ensures r.play.playCount == if |entry| >= 4 then Add32(f.play.playCount, ToInt32(entry, 0, isBE)) else f.play.playCount
    ensures r.play.lastPlayedTime == if |entry| >= 8 && ToUInt32(entry, 4, isBE) > 0 then ToUInt32(entry, 4, isBE)
                                     else f.play.lastPlayedTime
    ensures r.basic.rating == if entryLength >= 16 && |entry| >= 16 then ToInt32(entry, 12, isBE) % 256 else f.basic.rating
    ensures r.basic.(rating := f.basic.rating) == f.basic && r.extra == f.extra
    ensures r.play.(playCount := f.play.playCount, lastPlayedTime := f.play.lastPlayedTime) == f.play
  {
    if |entry| < 4 then f
    else
      var counted := f.(play := f.play.(playCount := Add32(f.play.playCount, ToInt32(entry, 0, isBE))));
      if |entry| < 8 then counted
      else
        var lastPlayed := ToUInt32(entry, 4, isBE);
        var played := if lastPlayed > 0 then counted.(play := counted.play.(lastPlayedTime := lastPlayed)) else counted;
        if entryLength < 16 || |entry| < 16 then played
        else played.(basic := played.basic.(rating := ToInt32(entry, 12, isBE) % 256))
  }

  /** A track's latest play count after the merge of an entry: the entry's, once it can
    * be read. */
  function Latest(latest: Int32, entry: Bytes, isBE: bool): Int32
  {
    if |entry| >= 4 then ToInt32(entry, 0, isBE) else latest
  }

  /** The merge of a play count the iPod recorded with the count already in the database:
    * the total is their sum, in 32-bit arithmetic, so it is exact as long as it fits. */
  lemma PlayCountsAdd(f: TrackFields, entry: Bytes, entryLength: Int32, isBE: bool)
    requires EntryFits(entry, entryLength)
    requires -0x8000_0000 <= f.play.playCount + ToInt32(entry, 0, isBE) < 0x8000_0000
    ensures Merged(f, entry, entryLength, isBE).play.playCount == f.play.playCount + ToInt32(entry, 0, isBE)
  {
    var sum := f.play.playCount + ToInt32(entry, 0, isBE);
    if sum < 0 {
      assert (sum % 0x1_0000_0000) == sum + 0x1_0000_0000;
    }
  }

  /** What `LoadPlayCounts` leaves behind, on the values before (`f0`, `l0`) and after
    * (`fs`, `ls`): it succeeds exactly when every entry is merged, and each entry up to
    * and including the one it stops at is merged into its track, the others untouched. */
  ghost predicate PlayCountsLoaded(f0: seq<TrackFields>, l0: seq<Int32>, fs: seq<TrackFields>, ls: seq<Int32>,
                                   entries: seq<Bytes>, entryLength: Int32, ok: bool, isBE: bool)
  {
    var n := MergedFrom(entries, entryLength, |f0|, 0);
    var upto := if n < |entries| then n + 1 else n;
    (ok <==> n == |entries|)
    && fs == MergedPrefix(f0, entries, entryLength, upto, isBE)
    && ls == LatestPrefix(l0, entries, upto, isBE)
  }

  /** Where the loop of `LoadPlayCounts` stops, it has done what `PlayCountsLoaded` says. */
  lemma LoadedAt(f0: seq<TrackFields>, l0: seq<Int32>, entries: seq<Bytes>, entryLength: Int32, i: nat, isBE: bool)
    requires i <= |entries| && MergedFrom(entries, entryLength, |f0|, i) == MergedFrom(entries, entryLength, |f0|, 0)
    requires i == |entries| || i >= |f0| || !EntryFits(entries[i], entryLength)
    ensures var upto := if i < |entries| then i + 1 else i;
      PlayCountsLoaded(f0, l0, MergedPrefix(f0, entries, entryLength, upto, isBE), LatestPrefix(l0, entries, upto, isBE),
                       entries, entryLength, i == |entries|, isBE)
  {
  }

  /** One pass of `LoadPlayCounts`' loop, on one track: it says whether the whole entry
    * could be read, and a short entry leaves the steps before the failing read done. */
  method MergeEntry(track: Track, entry: Bytes, entryLength: Int32, isBE: bool) returns (ok: bool)
    modifies track`latestPlayCount, track.record`fields
    ensures ok == EntryFits(entry, entryLength)
    ensures track.latestPlayCount == Latest(old(track.latestPlayCount), entry, isBE)
    ensures track.record.fields == Merged(old(track.record.fields), entry, entryLength, isBE)
  {
    if |entry| < 4 {
      return false;
    }
    track.latestPlayCount := ToInt32(entry, 0, isBE);
    var f := track.record.fields;
    track.record.fields := f.(play := f.play.(playCount := Add32(f.play.playCount, track.latestPlayCount)));
    if |entry| < 8 {
      return false;
    }
    var lastPlayed := ToUInt32(entry, 4, isBE);
    if lastPlayed > 0 {
      f := track.record.fields;
      track.record.fields := f.(play := f.play.(lastPlayedTime := lastPlayed));
    }
    if entryLength >= 16 {
      if |entry| < 16 {
        return false;
      }
      var rating := ToInt32(entry, 12, isBE);
      f := track.record.fields;
      track.record.fields := f.(basic := f.basic.(rating := rating % 256));
    }
    return true;
  }

  /** The fields of the tracks' records, in order. */
  function TrackFieldsOf(ts: seq<Track>): (fs: seq<TrackFields>)
    reads set t | t in ts :: t.record
    ensures |fs| == |ts| && forall k :: 0 <= k < |ts| ==> fs[k] == ts[k].record.fields
  {
    seq(|ts|, k reads set t | t in ts :: t.record requires 0 <= k < |ts| => ts[k].record.fields)
  }

  /** The tracks' latest play counts, in order. */
  function LatestCountsOf(ts: seq<Track>): (ls: seq<Int32>)
    reads ts
    ensures |ls| == |ts| && forall k :: 0 <= k < |ts| ==> ls[k] == ts[k].latestPlayCount
  {
    seq(|ts|, k reads ts requires 0 <= k < |ts| => ts[k].latestPlayCount)
  }

  /** Track fields once the entries before `upto` are merged into them, one to one. */
  function MergedPrefix(fs: seq<TrackFields>, entries: seq<Bytes>, entryLength: Int32, upto: nat, isBE: bool): (r: seq<TrackFields>)
    ensures |r| == |fs|
    ensures forall k :: 0 <= k < |fs| ==>
      r[k] == if k < upto && k < |entries| then Merged(fs[k], entries[k], entryLength, isBE) else fs[k]
  {
    seq(|fs|, k requires 0 <= k < |fs| =>
      if k < upto && k < |entries| then Merged(fs[k], entries[k], entryLength, isBE) else fs[k])
  }

  /** Latest play counts once the entries before `upto` are merged, one to one. */
  function LatestPrefix(ls: seq<Int32>, entries: seq<Bytes>, upto: nat, isBE: bool): (r: seq<Int32>)
    ensures |r| == |ls|
    ensures forall k :: 0 <= k < |ls| ==>
      r[k] == if k < upto && k < |entries| then Latest(ls[k], entries[k], isBE) else ls[k]
  {
    seq(|ls|, k requires 0 <= k < |ls| => if k < upto && k < |entries| then Latest(ls[k], entries[k], isBE) else ls[k])
  }

  /** Merging one more entry changes only the track it belongs to. */
  lemma PrefixStep(fs: seq<TrackFields>, ls: seq<Int32>, entries: seq<Bytes>, entryLength: Int32, i: nat, isBE: bool)
    requires i < |fs| && |ls| == |fs| && i < |entries|
    ensures MergedPrefix(fs, entries, entryLength, i + 1, isBE)
         == MergedPrefix(fs, entries, entryLength, i, isBE)[i := Merged(fs[i], entries[i], entryLength, isBE)]
    ensures LatestPrefix(ls, entries, i + 1, isBE) == LatestPrefix(ls, entries, i, isBE)[i := Latest(ls[i], entries[i], isBE)]
  {
  }

  /** An entry past the last track merges into nothing. */
  lemma PrefixPast(fs: seq<TrackFields>, ls: seq<Int32>, entries: seq<Bytes>, entryLength: Int32, i: nat, isBE: bool)
    requires |ls| == |fs| <= i
    ensures MergedPrefix(fs, entries, entryLength, i + 1, isBE) == MergedPrefix(fs, entries, entryLength, i, isBE)
    ensures LatestPrefix(ls, entries, i + 1, isBE) == LatestPrefix(ls, entries, i, isBE)
  {
  }

  /** One pass of `LoadPlayCounts`' loop, seen from the whole track list: only track i
    * changes. */
  method MergeAt(ts: seq<Track>, i: nat, t: Track, entry: Bytes, entryLength: Int32, isBE: bool) returns (ok: bool)
    requires i < |ts| && ts[i] == t && Distinct(Records(ts))
    modifies t`latestPlayCount, t.record`fields
    ensures ok == EntryFits(entry, entryLength)
    ensures TrackFieldsOf(ts) == old(TrackFieldsOf(ts))[i := Merged(old(ts[i].record.fields), entry, entryLength, isBE)]
    ensures LatestCountsOf(ts) == old(LatestCountsOf(ts))[i := Latest(old(ts[i].latestPlayCount), entry, isBE)]
  {
    assert forall k :: 0 <= k < |ts| && k != i ==> ts[k].record != ts[i].record;
    ok := MergeEntry(t, entry, entryLength, isBE);
  }

  /** Why `LoadPlayCounts` throws, at the entry of that index. */
  datatype PlayCountError = NoSuchTrack(index: nat) | ShortEntry(index: nat)

  // `Artists` (TrackDatabase.cs:1691-1716).

  const UnknownArtist: string := "UNKNOWN"

  /** The name a track is grouped under: its artist, or "UNKNOWN" when it has none. */
  function ArtistName(t: Track): string
    reads t.record
  {
    if t.Artist().None? then UnknownArtist else t.Artist().value
  }

  function ArtistNames(ts: seq<Track>): (names: seq<string>)
    reads set t | t in ts :: t.record
    ensures |names| == |ts| && forall k :: 0 <= k < |ts| ==> names[k] == ArtistName(ts[k])
  {
    seq(|ts|, k reads set t | t in ts :: t.record requires 0 <= k < |ts| => ArtistName(ts[k]))
  }

  /** The grouping loop: each track, in order, goes last in the group of its key, which
    * starts out empty the first time the key is met. */
  function GroupBy(ts: seq<Track>, keys: seq<string>): map<string, seq<Track>>
    requires |keys| == |ts|
  {
    if ts == [] then map[]
    else
      var m := GroupBy(ts[..|ts| - 1], keys[..|ts| - 1]);
      var key := keys[|ts| - 1];
      m[key := (if key in m then m[key] else []) + [ts[|ts| - 1]]]
  }

  lemma GroupByStep(ts: seq<Track>, keys: seq<string>, i: nat)
    requires |keys| == |ts| && i < |ts|
    ensures var m := GroupBy(ts[..i], keys[..i]);
      GroupBy(ts[..i + 1], keys[..i + 1]) == m[keys[i] := (if keys[i] in m then m[keys[i]] else []) + [ts[i]]]
  {
    assert ts[..i + 1][..i] == ts[..i] && keys[..i + 1][..i] == keys[..i];
  }

  /** The tracks whose key is `key`, in their order. */
  function Members(ts: seq<Track>, keys: seq<string>, key: string): seq<Track>
    requires |keys| == |ts|
  {
    if ts == [] then []
    else Members(ts[..|ts| - 1], keys[..|ts| - 1], key) + if keys[|ts| - 1] == key then [ts[|ts| - 1]] else []
  }

  /** The groups are exactly the keys met, and each holds the tracks of its key, in
    * order: every track is in the group of its name and in no other. */
  lemma {:induction false} GroupByMembers(ts: seq<Track>, keys: seq<string>)
    requires |keys| == |ts|
    ensures forall key :: key in GroupBy(ts, keys) <==> key in keys
    ensures forall key :: key in GroupBy(ts, keys) ==> GroupBy(ts, keys)[key] == Members(ts, keys, key)
    ensures forall key :: key !in keys ==> Members(ts, keys, key) == []
  {
    if ts != [] {
      var n := |ts| - 1;
      GroupByMembers(ts[..n], keys[..n]);
      assert keys == keys[..n] + [keys[n]];
    }
  }

  // `CheckFreeSpace` (TrackDatabase.cs:1901-1923).

  type UInt64 = x: int | 0 <= x < 0x1_0000_0000_0000_0000

  /** `(UInt64) size`: the int's bits read as an unsigned long. */
  function SizeBits(size: Int32): UInt64
  {
    if size < 0 then size + 0x1_0000_0000_0000_0000 else size
  }

  /** `total += (UInt64) size` over the sizes, in order, in unsigned 64-bit arithmetic. */
  function AddSizes(total: UInt64, sizes: seq<Int32>): UInt64
  {
    if sizes == [] then total
    else (AddSizes(total, sizes[..|sizes| - 1]) + SizeBits(sizes[|sizes| - 1])) % 0x1_0000_0000_0000_0000
  }

  function SumBits(sizes: seq<Int32>): nat
  {
    if sizes == [] then 0 else SumBits(sizes[..|sizes| - 1]) + SizeBits(sizes[|sizes| - 1])
  }

  /** The running total is the starting value plus every size, modulo 2^64. */
  lemma {:induction false} AddSizesIsSum(total: UInt64, sizes: seq<Int32>)
    ensures AddSizes(total, sizes) == (total + SumBits(sizes)) % 0x1_0000_0000_0000_0000
  {
    if sizes != [] {
      var init := sizes[..|sizes| - 1];
      AddSizesIsSum(total, init);
      ModAdd(total + SumBits(init), SizeBits(sizes[|sizes| - 1]));
    }
  }

  lemma ModAdd(a: nat, b: nat)
    ensures (a % 0x1_0000_0000_0000_0000 + b) % 0x1_0000_0000_0000_0000 == (a + b) % 0x1_0000_0000_0000_0000
  {
  }

  /** The sizes of the tracks queued for adding whose files are not yet in the device's
    * music folders, or None when one of the tracks has no file name (`IsTrackOnDevice`
    * then throws). */
  function ToCopy(d: Device, names: seq<Option<string>>, sizes: seq<Int32>): (r: Option<seq<Int32>>)
    requires |names| == |sizes|
    ensures r.None? <==> None in names
  {
    if names == [] then Some([])
    else
      var n := |names| - 1;
      assert names == names[..n] + [names[n]];
      var init := ToCopy(d, names[..n], sizes[..n]);
      if init.None? || names[n].None? then None
      else if IsTrackOnDevice(d, names[n].value) then init
      else Some(init.value + [sizes[n]])
  }

  function Sizes(ts: seq<Track>): (sizes: seq<Int32>)
    reads set t | t in ts :: t.record
    ensures |sizes| == |ts| && forall k :: 0 <= k < |ts| ==> sizes[k] == ts[k].Size()
  {
    seq(|ts|, k reads set t | t in ts :: t.record requires 0 <= k < |ts| => ts[k].Size())
  }

  function FileNames(ts: seq<Track>): (names: seq<Option<string>>)
    reads ts, set t | t in ts :: t.record
    ensures |names| == |ts| && forall k :: 0 <= k < |ts| ==> names[k] == ts[k].FileName()
  {
    seq(|ts|, k reads ts, set t | t in ts :: t.record requires 0 <= k < |ts| => ts[k].FileName())
  }

  lemma AddSizesSnoc(total: UInt64, sizes: seq<Int32>, size: Int32)
    ensures AddSizes(total, sizes + [size]) == (AddSizes(total, sizes) + SizeBits(size)) % 0x1_0000_0000_0000_0000
  {
    assert (sizes + [size])[..|sizes|] == sizes;
  }

  lemma ToCopyStep(d: Device, names: seq<Option<string>>, sizes: seq<Int32>, i: nat)
    requires |names| == |sizes| && i < |names|
    ensures var init := ToCopy(d, names[..i], sizes[..i]);
      ToCopy(d, names[..i + 1], sizes[..i + 1]) ==
        if init.None? || names[i].None? then None
        else if IsTrackOnDevice(d, names[i].value) then init
        else Some(init.value + [sizes[i]])
  {
    assert names[..i + 1][..i] == names[..i] && sizes[..i + 1][..i] == sizes[..i];
  }

  /** The first loop of `CheckFreeSpace`: the sizes of the tracks queued for removal, added
    * to the free space. */
  method SpaceFreed(available: UInt64, ts: seq<Track>) returns (total: UInt64)
    ensures total == AddSizes(available, Sizes(ts))
  {
    ghost var sizes := Sizes(ts);
    total := available;
    var i := 0;
    while i < |ts|
      invariant 0 <= i <= |ts|
      invariant total == AddSizes(available, sizes[..i])
    {
      assert sizes[..i + 1] == sizes[..i] + [sizes[i]];
      AddSizesSnoc(available, sizes[..i], sizes[i]);
      total := (total + SizeBits(ts[i].Size())) % 0x1_0000_0000_0000_0000;
      i := i + 1;
    }
    assert sizes[..i] == sizes;
    assert sizes == Sizes(ts);
  }

  /** Where the second loop of `CheckFreeSpace` stands after j tracks: `total` is the sum
    * of the sizes to copy among them. */
  predicate RequiredSoFar(d: Device, names: seq<Option<string>>, sizes: seq<Int32>, j: nat, total: UInt64)
    requires |names| == |sizes| && j <= |names|
  {
    var copies := ToCopy(d, names[..j], sizes[..j]);
    copies.Some? && total == AddSizes(0, copies.value)
  }

  /** One pass of the second loop: a track whose file is not on the device adds its size. */
  lemma RequiredStep(d: Device, names: seq<Option<string>>, sizes: seq<Int32>, j: nat, total: UInt64)
    requires |names| == |sizes| && j < |names| && names[j].Some?
    requires RequiredSoFar(d, names, sizes, j, total)
    ensures RequiredSoFar(d, names, sizes, j + 1,
                          if IsTrackOnDevice(d, names[j].value) then total
                          else (total + SizeBits(sizes[j])) % 0x1_0000_0000_0000_0000)
  {
    ToCopyStep(d, names, sizes, j);
    var copies := ToCopy(d, names[..j], sizes[..j]).value;
    if !IsTrackOnDevice(d, names[j].value) {
      AddSizesSnoc(0, copies, sizes[j]);
    }
  }

  /** The second loop of `CheckFreeSpace`: the sizes of the tracks queued for adding whose
    * files are not yet on the device, summed; None where a track has no file name. */
  method SpaceRequired(d: Device, ts: seq<Track>) returns (required: Option<UInt64>)
    ensures var copies := ToCopy(d, FileNames(ts), Sizes(ts));
      required == if copies.None? then None else Some(AddSizes(0, copies.value))
  {
    ghost var names, sizes := FileNames(ts), Sizes(ts);
    var total: UInt64 := 0;
    var j := 0;
    while j < |ts|
      invariant 0 <= j <= |ts|
      invariant RequiredSoFar(d, names, sizes, j, total)
    {
      var name := ts[j].FileName();
      assert name == names[j];
      if name.None? {
        assert None in names;
        return None;
      }
      var size := ts[j].Size();
      assert size == sizes[j];
      RequiredStep(d, names, sizes, j, total);
      if !IsTrackOnDevice(d, name.value) {
        total := (total + SizeBits(size)) % 0x1_0000_0000_0000_0000;
      }
      j := j + 1;
    }
    assert names[..j] == names && sizes[..j] == sizes;
    return Some(total);
  }

  /** Why `CheckFreeSpace` throws: a queued track without a file name, or not enough room. */
  datatype SpaceError = NoFileName | InsufficientSpace(required: UInt64, available: UInt64)

  /** The admission rule: the copies fit only when they need strictly less than there is. */
  function Admit(required: UInt64, available: UInt64): (r: Result<(), SpaceError>)
    ensures r.Success? <==> required < available
  {
    if required >= available then Failure(InsufficientSpace(required, available)) else Success(())
  }

  // On-The-Go playlists and errors.

  /** What the database knows of a `Playlist`: an ordinary one stands for its record; an
    * On-The-Go playlist, read from the device's own file, has none. */
  datatype PlaylistHandle = Ordinary(record: PlaylistRecord) | OnTheGo(name: string)

  /** Why `CreatePlaylist` and `RemovePlaylist` throw. */
  datatype PlaylistError = NullName | NullPlaylist | OnTheGoPlaylist

  /** How `RemoveTrack` throws: the artwork database it consults is never assigned. */
  datatype RemoveError = NullArtworkDatabase

  /** The entry `AddTrack` puts in the library playlist: a new entry for the record id. */
  function LibraryEntry(trackId: Int32): (item: PlaylistItem)
    ensures item.Valid() && item.trackId == trackId
  {
    NewItem().(trackId := trackId)
  }

  /** The fields of the record `CreateTrack` makes: a new record's, with the record id,
    * the date added and last modified, and the database id. */
  function CreatedFields(id: Int32, now: UInt32, databaseId: Int64): TrackFields
  {
    var f := DefaultFields();
    f.(basic := f.basic.(id := id, date := now),
       play := f.play.(lastModifiedTime := now),
       extra := f.extra.(databaseId := databaseId))
  }

  /** The playlist `CreatePlaylist` makes, before `AddPlaylist` gives it its id. */
  function NamedPlaylist(name: string): PlaylistValue
  {
    EmptyPlaylist(false).(stringDetails := [NewStringDetail(Title, name)])
  }

  class TrackDatabase {
    const device: Device
    const isBE: bool
    /** The library data set's track list (`dbrec[DataSetIndex.Library].TrackList`). */
    const library: TrackListRecord
    /** The playlist data set's playlist list; its first playlist is the library playlist
      * (`dbrec[DataSetIndex.Playlist].Library`). */
    const lists: PlaylistListRecord
    /** The library playlist, the first of the list (`dbrec[DataSetIndex.Playlist].Library`). */
    const libraryPlaylist: PlaylistRecord
    var tracks: seq<Track>
    var tracksToAdd: seq<Track>
    var tracksToRemove: seq<Track>
    /** The ordinary playlists handed out, by their records; the library playlist, which is
      * hidden, is never one of them. */
    var playlists: seq<PlaylistRecord>
    /** The artist grouping, computed once (`artists`); None while null. */
    var artists: Option<map<string, seq<Track>>>

    predicate Valid()
      reads this, library, library.tracks, lists, lists.playlists
    {
      library.Valid() && library.isBE == isBE
      && lists.Valid() && lists.isBE == isBE && |lists.playlists| >= 1
      && lists.playlists[0] == libraryPlaylist && libraryPlaylist !in playlists
      && Distinct(Records(tracks))
    }

    /** `Reload (true)` on a device: a new database record, so no tracks, the library
      * playlist alone, and database ids from 1. The byte order is the device's. */
    constructor(device: Device)
      ensures Valid() && this.device == device && isBE == IsBE(device)
      ensures library.tracks == [] && library.nextDatabaseId == 1 && lists.Values() == [NewLibrary()]
      ensures tracks == [] && tracksToAdd == [] && tracksToRemove == [] && playlists == [] && artists == None
    {
      this.device := device;
      isBE := IsBE(device);
      library := new TrackListRecord(IsBE(device));
      var l := new PlaylistListRecord(IsBE(device));
      lists := l;
      libraryPlaylist := l.playlists[0];
      tracks := [];
      tracksToAdd := [];
      tracksToRemove := [];
      playlists := [];
      artists := None;
    }

    /** `GetNextTrackId`: one more than the largest record id of the library and 0; it is
      * above every record id unless one is already the largest int. */
    method GetNextTrackId() returns (id: Int32)
      ensures id == NextId(TrackIds(library.Values()))
      ensures (forall k :: 0 <= k < |library.tracks| ==> library.tracks[k].fields.basic.id < 0x7FFF_FFFF) ==>
        id >= 1 && forall k :: 0 <= k < |library.tracks| ==> library.tracks[k].fields.basic.id < id
    {
      ghost var ids := TrackIds(library.Values());
      var ts := library.tracks;
      var m: Int32 := 0;
      var i := 0;
      while i < |ts|
        invariant 0 <= i <= |ts|
        invariant m == MaxId(ids[..i])
      {
        assert ids[..i + 1][..i] == ids[..i];
        if ts[i].fields.basic.id > m {
          m := ts[i].fields.basic.id;
        }
        i := i + 1;
      }
      assert ids[..i] == ids;
      id := if m == 0x7FFF_FFFF then -0x8000_0000 else m + 1;
      if forall k :: 0 <= k < |ids| ==> ids[k] < 0x7FFF_FFFF {
        NextIdIsFresh(ids);
      }
    }

    /** `AddTrack`: the record goes last in the library's track list, an entry for its
      * record id last in the library playlist, and the track last among the tracks. A new
      * track is queued for adding; an existing one queued for removal (by database id)
      * comes off that queue. Its one caller, `CreateTrack`, passes a new record. */
    method AddTrack(track: Track, existing: bool)
      requires Valid() && track.record.isBE == isBE
      requires track.record !in library.tracks && track.record !in Records(tracks)
      modifies this`tracks, this`tracksToAdd, this`tracksToRemove, library`tracks, libraryPlaylist`items
      ensures Valid() && lists.playlists == old(lists.playlists)
      ensures library.tracks == old(library.tracks) + [track.record]
      ensures libraryPlaylist.items == old(libraryPlaylist.items) + [LibraryEntry(old(track.record.fields.basic.id))]
      ensures tracks == old(tracks) + [track]
      ensures !existing ==> tracksToAdd == old(tracksToAdd) + [track] && tracksToRemove == old(tracksToRemove)
      ensures existing ==> (tracksToAdd == old(tracksToAdd)
        && tracksToRemove == RemovedAt(old(tracksToRemove), FirstIndex(old(DatabaseIdsOf(tracksToRemove)), old(track.Id()))))
    {
      ghost var removeIds := DatabaseIdsOf(tracksToRemove);
      AddToLibrary(track);
      assert DatabaseIdsOf(tracksToRemove) == removeIds;
      QueueAddition(track, existing);
      RecordsSnoc(tracks, track);
      DistinctSnoc(Records(tracks), track.record);
      tracks := tracks + [track];
    }

    /** The queues' half of `AddTrack`. */
    method QueueAddition(track: Track, existing: bool)
      modifies this`tracksToAdd, this`tracksToRemove
      ensures !existing ==> tracksToAdd == old(tracksToAdd) + [track] && tracksToRemove == old(tracksToRemove)
      ensures existing ==> (tracksToAdd == old(tracksToAdd)
        && tracksToRemove == RemovedAt(old(tracksToRemove), FirstIndex(old(DatabaseIdsOf(tracksToRemove)), track.Id())))
    {
      if !existing {
        tracksToAdd := tracksToAdd + [track];
      } else {
        var k := IndexOfTrack(tracksToRemove, track);
        tracksToRemove := RemovedAt(tracksToRemove, k);
      }
    }

    /** The record-side half of `AddTrack`. */
    method AddToLibrary(track: Track)
      requires Valid() && track.record.isBE == isBE && track.record !in library.tracks
      modifies library`tracks, libraryPlaylist`items
      ensures Valid() && lists.playlists == old(lists.playlists)
      ensures library.tracks == old(library.tracks) + [track.record]
      ensures libraryPlaylist.items == old(libraryPlaylist.items) + [LibraryEntry(track.record.fields.basic.id)]
    {
      library.Add(track.record);
      libraryPlaylist.AddItem(LibraryEntry(track.record.fields.basic.id));
      lists.Kept();
    }

    /** `CreateTrack`, at the time `now` (`DateToMacTime (DateTime.Now)`): a new record with
      * the next record id, dated now, and the list's next database id, which moves on by
      * one; the track is then added as a new track. */
    method CreateTrack(now: UInt32) returns (t: Track)
      requires Valid()
      modifies this`tracks, this`tracksToAdd, this`tracksToRemove, library`tracks, library`nextDatabaseId, libraryPlaylist`items
      ensures Valid() && fresh(t) && fresh(t.record) && t.device == device
      ensures t.record.Value() == TrackValue(CreatedFields(NextId(TrackIds(old(library.Values()))), now,
                                                           old(library.nextDatabaseId)), [])
      ensures library.nextDatabaseId == Inc64(old(library.nextDatabaseId))
      ensures library.tracks == old(library.tracks) + [t.record]
      ensures lists.playlists == old(lists.playlists)
      ensures libraryPlaylist.items == old(libraryPlaylist.items) + [LibraryEntry(t.record.fields.basic.id)]
      ensures tracks == old(tracks) + [t] && tracksToAdd == old(tracksToAdd) + [t]
      ensures tracksToRemove == old(tracksToRemove)
    {
      var record := NewRecord(now);
      ghost var created := record.Value();
      t := new Track(device, record);
      AddTrack(t, false);
      assert t.record.Value() == created;
    }

    /** The record `CreateTrack` makes, with the next record id and the next database id. */
    method NewRecord(now: UInt32) returns (record: TrackRecord)
      requires Valid()
      modifies library`nextDatabaseId
      ensures Valid() && fresh(record) && record.isBE == isBE
      ensures record.Value() == TrackValue(CreatedFields(NextId(TrackIds(old(library.Values()))), now,
                                                         old(library.nextDatabaseId)), [])
      ensures library.nextDatabaseId == Inc64(old(library.nextDatabaseId))
    {
      var id := GetNextTrackId();
      var databaseId := library.nextDatabaseId;
      library.nextDatabaseId := Inc64(library.nextDatabaseId);
      IdMoved();
      record := new TrackRecord(isBE);
      record.fields := CreatedFields(id, now, databaseId);
    }

    /** Changing what the records hold, each list staying valid, keeps the database
      * valid. */
    twostate lemma ContentsChanged()
      requires old(Valid()) && unchanged(this, library, lists)
      requires library.Valid() && lists.Valid()
      ensures Valid()
    {
    }

    /** Moving the next database id on keeps the database valid. */
    twostate lemma IdMoved()
      requires old(Valid()) && unchanged(this, lists) && unchanged(lists.playlists)
      requires library.tracks == old(library.tracks)
      ensures Valid()
    {
    }

    /** `RemoveTrack`: when a track with the same database id is among the tracks, the
      * first such goes; the track comes off the adding queue when it is on it (by database
      * id) and is queued for removal otherwise; the first record of the library with its
      * record id goes, and so does the library playlist's first entry for that id. Then the
      * source asks the artwork database for the track's photo, and that database is never
      * assigned: the call throws, with the removals above done. A track not among the tracks
      * changes nothing and returns normally. */
    method RemoveTrack(track: Track) returns (r: Result<(), RemoveError>)
      requires Valid()
      modifies this`tracks, this`tracksToAdd, this`tracksToRemove, library`tracks, libraryPlaylist`items
      ensures Valid() && lists.playlists == old(lists.playlists)
      ensures r.Failure? <==> FirstIndex(old(DatabaseIdsOf(tracks)), old(track.Id())) >= 0
      ensures r.Failure? ==> r.error == NullArtworkDatabase
      ensures var k := FirstIndex(old(DatabaseIdsOf(tracks)), old(track.Id()));
        tracks == RemovedAt(old(tracks), k)
      ensures FirstIndex(old(DatabaseIdsOf(tracks)), old(track.Id())) < 0 ==>
        tracksToAdd == old(tracksToAdd) && tracksToRemove == old(tracksToRemove)
      ensures var a := FirstIndex(old(DatabaseIdsOf(tracksToAdd)), old(track.Id()));
        FirstIndex(old(DatabaseIdsOf(tracks)), old(track.Id())) >= 0 && a >= 0 ==>
        tracksToAdd == RemovedAt(old(tracksToAdd), a) && tracksToRemove == old(tracksToRemove)
      ensures var a := FirstIndex(old(DatabaseIdsOf(tracksToAdd)), old(track.Id()));
        FirstIndex(old(DatabaseIdsOf(tracks)), old(track.Id())) >= 0 && a < 0 ==>
        tracksToAdd == old(tracksToAdd) && tracksToRemove == old(tracksToRemove) + [track]
      ensures var k := FirstIndex(old(DatabaseIdsOf(tracks)), old(track.Id()));
        var j := FindId(TrackIds(old(library.Values())), old(track.record.fields.basic.id));
        library.tracks == (if k >= 0 then RemovedAt(old(library.tracks), j) else old(library.tracks))
      ensures var k := FirstIndex(old(DatabaseIdsOf(tracks)), old(track.Id()));
        libraryPlaylist.items == if k >= 0 then WithoutTrack(old(libraryPlaylist.items), old(track.record.fields.basic.id))
                                 else old(libraryPlaylist.items)
    {
      var k := IndexOfTrack(tracks, track);
      if k < 0 {
        return Success(());
      }
      RemoveFound(track, k);
      return Failure(NullArtworkDatabase);
    }

    /** The removals of `RemoveTrack` once the track is found at k among the tracks. */
    method RemoveFound(track: Track, k: nat)
      requires Valid() && k < |tracks|
      modifies this`tracks, this`tracksToAdd, this`tracksToRemove, library`tracks, libraryPlaylist`items
      ensures Valid() && lists.playlists == old(lists.playlists) && track.Id() == old(track.Id())
      ensures tracks == RemovedAt(old(tracks), k)
      ensures var a := FirstIndex(old(DatabaseIdsOf(tracksToAdd)), old(track.Id()));
        (a >= 0 ==> tracksToAdd == RemovedAt(old(tracksToAdd), a) && tracksToRemove == old(tracksToRemove))
        && (a < 0 ==> tracksToAdd == old(tracksToAdd) && tracksToRemove == old(tracksToRemove) + [track])
      ensures library.tracks == RemovedAt(old(library.tracks), FindId(TrackIds(old(library.Values())), old(track.record.fields.basic.id)))
      ensures libraryPlaylist.items == WithoutTrack(old(libraryPlaylist.items), old(track.record.fields.basic.id))
    {
      ghost var addIds, id := DatabaseIdsOf(tracksToAdd), track.Id();
      ghost var libraryIds := TrackIds(library.Values());
      DropTrack(k);
      assert DatabaseIdsOf(tracksToAdd) == addIds;
      QueueRemoval(track);
      var recordId := track.record.fields.basic.id;
      assert TrackIds(library.Values()) == libraryIds;
      RemoveFromLibrary(recordId);
      RemoveLibraryEntry(recordId);
      assert track.Id() == id;
    }

    /** `tracks.Remove (track)`, once found at k. */
    method DropTrack(k: nat)
      requires Valid() && k < |tracks|
      modifies this`tracks
      ensures Valid() && tracks == RemovedAt(old(tracks), k)
    {
      RecordsRemovedAt(tracks, k);
      DistinctRemoveAt(Records(tracks), k);
      tracks := RemovedAt(tracks, k);
    }

    /** The queues' half of `RemoveTrack`: off the adding queue when it is on it, else
      * onto the removal queue. */
    method QueueRemoval(track: Track)
      modifies this`tracksToAdd, this`tracksToRemove
      ensures var a := FirstIndex(old(DatabaseIdsOf(tracksToAdd)), track.Id());
        (a >= 0 ==> tracksToAdd == RemovedAt(old(tracksToAdd), a) && tracksToRemove == old(tracksToRemove))
        && (a < 0 ==> tracksToAdd == old(tracksToAdd) && tracksToRemove == old(tracksToRemove) + [track])
    {
      var a := IndexOfTrack(tracksToAdd, track);
      if a >= 0 {
        tracksToAdd := RemovedAt(tracksToAdd, a);
      } else {
        tracksToRemove := tracksToRemove + [track];
      }
    }

    /** `TrackList.Remove` on the library's track list, by record id. */
    method RemoveFromLibrary(id: Int32)
      requires Valid()
      modifies library`tracks
      ensures Valid()
      ensures library.tracks == RemovedAt(old(library.tracks), FindId(TrackIds(old(library.Values())), id))
    {
      library.Remove(id);
    }

    /** `Library.RemoveTrack` on the library playlist, by record id. */
    method RemoveLibraryEntry(id: Int32)
      requires Valid()
      modifies libraryPlaylist`items
      ensures Valid()
      ensures libraryPlaylist.items == WithoutTrack(old(libraryPlaylist.items), id)
    {
      libraryPlaylist.RemoveTrack(id);
      lists.Kept();
    }

    /** `CreatePlaylist`: null throws; otherwise a new ordinary playlist with the name goes
      * last in the playlist list, with the next playlist id, and among the playlists. */
    method CreatePlaylist(name: Option<string>) returns (r: Result<PlaylistRecord, PlaylistError>)
      requires Valid()
      modifies this`playlists, lists`playlists
      ensures Valid()
      ensures name.None? ==> r == Failure(NullName)
      ensures r.Failure? ==> playlists == old(playlists) && lists.playlists == old(lists.playlists)
      ensures name.Some? ==> (r.Success? && fresh(r.value)
        && lists.playlists == old(lists.playlists) + [r.value] && playlists == old(playlists) + [r.value]
        && lists.Values() == old(lists.Values()) + [NamedPlaylist(name.value).(id := NextId(Ids(old(lists.Values()))))])
    {
      if name.None? {
        return Failure(NullName);
      }
      ghost var before := lists.Values();
      var record := NewPlaylist(name.value);
      assert lists.Values() == before;
      lists.AddPlaylist(record);
      playlists := playlists + [record];
      return Success(record);
    }

    /** The record `CreatePlaylist` makes: an ordinary playlist with the name. */
    method NewPlaylist(name: string) returns (record: PlaylistRecord)
      ensures fresh(record) && record.Valid() && record.isBE == isBE
      ensures record.Value() == NamedPlaylist(name)
    {
      record := new PlaylistRecord(false, isBE);
      record.SetName(name);
    }

    /** `RemovePlaylist`: null and the On-The-Go playlist throw; otherwise the playlist's
      * record leaves the playlist list and the playlists (`List.Remove`, by reference).
      * The library playlist is hidden, so it is never handed out as a playlist. */
    method RemovePlaylist(playlist: Option<PlaylistHandle>) returns (r: Result<(), PlaylistError>)
      requires Valid()
      requires playlist.Some? && playlist.value.Ordinary? ==> playlist.value.record != libraryPlaylist
      modifies this`playlists, lists`playlists
      ensures Valid()
      ensures playlist.None? ==> r == Failure(NullPlaylist)
      ensures playlist.Some? && playlist.value.OnTheGo? ==> r == Failure(OnTheGoPlaylist)
      ensures r.Failure? ==> playlists == old(playlists) && lists.playlists == old(lists.playlists)
      ensures playlist.Some? && playlist.value.Ordinary? ==> (r.Success?
        && lists.playlists == RemoveFirst(old(lists.playlists), playlist.value.record)
        && playlists == RemoveFirst(old(playlists), playlist.value.record))
    {
      if playlist.None? {
        return Failure(NullPlaylist);
      }
      if playlist.value.OnTheGo? {
        return Failure(OnTheGoPlaylist);
      }
      var record := playlist.value.record;
      RemoveFirstKeeps(lists.playlists, record);
      RemoveFirstKeeps(playlists, record);
      lists.RemovePlaylist(record);
      playlists := RemoveFirst(playlists, record);
      return Success(());
    }

    /** `LoadPlayCounts`, with the entry length from the file's header and the entries read
      * from it: entry i is merged into track i, in order, until an entry has no track or is
      * too short. There it throws, with the tracks before it merged and, for a short entry,
      * that entry's track merged as far as the entry could be read. */
    method LoadPlayCounts(entryLength: Int32, entries: seq<Bytes>) returns (r: Result<(), PlayCountError>)
      requires Valid()
      modifies tracks`latestPlayCount, Records(tracks)`fields
      ensures PlayCountsLoaded(old(TrackFieldsOf(tracks)), old(LatestCountsOf(tracks)),
                               TrackFieldsOf(tracks), LatestCountsOf(tracks), entries, entryLength, r.Success?, isBE)
    {
      var ts := tracks;
      ghost var f0, l0 := TrackFieldsOf(ts), LatestCountsOf(ts);
      ghost var n := MergedFrom(entries, entryLength, |ts|, 0);
      var i := 0;
      while i < |entries|
        invariant 0 <= i <= n && MergedFrom(entries, entryLength, |ts|, i) == n
        invariant TrackFieldsOf(ts) == MergedPrefix(f0, entries, entryLength, i, isBE)
        invariant LatestCountsOf(ts) == LatestPrefix(l0, entries, i, isBE)
      {
        if i >= |ts| {
          PrefixPast(f0, l0, entries, entryLength, i, isBE);
          LoadedAt(f0, l0, entries, entryLength, i, isBE);
          return Failure(NoSuchTrack(i));
        }
        PrefixStep(f0, l0, entries, entryLength, i, isBE);
        var ok := MergeAt(ts, i, ts[i], entries[i], entryLength, isBE);
        if !ok {
          LoadedAt(f0, l0, entries, entryLength, i, isBE);
          return Failure(ShortEntry(i));
        }
        i := i + 1;
      }
      LoadedAt(f0, l0, entries, entryLength, i, isBE);
      return Success(());
    }

    /** `Artists`: the grouping computed the first time, and kept from then on (adding or
      * removing tracks does not drop it). The tracks are grouped by artist name, "UNKNOWN"
      * for a track without an artist, each group in the order of the tracks. */
    method Artists() returns (r: map<string, seq<Track>>)
      modifies this`artists
      ensures old(artists).Some? ==> r == old(artists).value && artists == old(artists)
      ensures old(artists).None? ==> r == GroupBy(tracks, ArtistNames(tracks)) && artists == Some(r)
    {
      if artists.Some? {
        return artists.value;
      }
      var ts := tracks;
      ghost var keys := ArtistNames(ts);
      var a: map<string, seq<Track>> := map[];
      var i := 0;
      while i < |ts|
        invariant 0 <= i <= |ts|
        invariant a == GroupBy(ts[..i], keys[..i])
      {
        var track := ts[i];
        var name := if track.Artist().None? then UnknownArtist else track.Artist().value;
        var group := if name in a then a[name] else [];
        GroupByStep(ts, keys, i);
        a := a[name := group + [track]];
        i := i + 1;
      }
      assert ts[..i] == ts && keys[..i] == keys;
      artists := Some(a);
      assert ArtistNames(tracks) == keys;
      return a;
    }

    /** `CheckFreeSpace`, with the volume's free space given: the space the tracks queued
      * for removal free is added to it, and the tracks queued for adding whose files are
      * not yet on the device need their sizes. It throws when a queued track has no file
      * name, and when the copies need as much as there is or more. */
    method CheckFreeSpace(volumeAvailable: UInt64) returns (r: Result<(), SpaceError>)
      ensures var available := AddSizes(volumeAvailable, Sizes(tracksToRemove));
        var copies := ToCopy(device, FileNames(tracksToAdd), Sizes(tracksToAdd));
        (copies.None? ==> r == Failure(NoFileName))
        && (copies.Some? ==> r == Admit(AddSizes(0, copies.value), available))
    {
      ghost var copies := ToCopy(device, FileNames(tracksToAdd), Sizes(tracksToAdd));
      ghost var freed := AddSizes(volumeAvailable, Sizes(tracksToRemove));
      var available := SpaceFreed(volumeAvailable, tracksToRemove);
      assert freed == AddSizes(volumeAvailable, Sizes(tracksToRemove));
      assert copies == ToCopy(device, FileNames(tracksToAdd), Sizes(tracksToAdd));
      var required := SpaceRequired(device, tracksToAdd);
      if required.None? {
        return Failure(NoFileName);
      }
      return Admit(required.value, available);
    }

    /** `CheckFreeSpace` as written: the volume's free space is not asked for, and starts at
      * 0. With no track queued for removal, it throws whatever the copies need. */
    method CheckFreeSpaceAsWritten() returns (r: Result<(), SpaceError>)
      ensures tracksToRemove == [] ==> r.Failure?
      ensures var copies := ToCopy(device, FileNames(tracksToAdd), Sizes(tracksToAdd));
        copies.Some? ==> r == Admit(AddSizes(0, copies.value), AddSizes(0, Sizes(tracksToRemove)))
    {
      r := CheckFreeSpace(0);
    }

    /** The renumbering `Save` begins with (`DatabaseRecord.ReassignTrackIds`), on the
      * records the tracks hold: the library's tracks take the ids from 1000 in order, then
      * every entry of every playlist follows its track. */
    method ReassignTrackIds()
      requires Valid() && Renumberable(|library.tracks|)
      modifies library.tracks, lists.playlists
      ensures Valid()
      ensures library.Values() == Renumbered(old(library.Values()))
      ensures lists.Values() == RemapPlaylists(old(lists.Values()), IdMap(TrackIds(old(library.Values()))))
    {
      ghost var before := lists.Values();
      var oldids := RenumberLibrary();
      assert lists.Values() == before;
      ghost var renumbered := library.Values();
      RemapEntries(oldids);
      assert library.Values() == renumbered;
    }

    /** The first half of `ReassignTrackIds`, on the library's track records. */
    method RenumberLibrary() returns (oldids: map<Int32, Int32>)
      requires Valid() && Renumberable(|library.tracks|)
      modifies library.tracks
      ensures Valid()
      ensures library.Values() == Renumbered(old(library.Values()))
      ensures oldids == IdMap(TrackIds(old(library.Values())))
    {
      oldids := RenumberTracks(library);
      ContentsChanged();
    }

    /** The second half of `ReassignTrackIds`, on the playlist records. */
    method RemapEntries(oldids: map<Int32, Int32>)
      requires Valid()
      modifies lists.playlists
      ensures Valid()
      ensures lists.Values() == RemapPlaylists(old(lists.Values()), oldids)
    {
      RemapLists(lists, oldids);
      ContentsChanged();
    }
  }
}
