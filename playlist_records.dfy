// The playlist record as the database holds it: an object whose lists and fields its
// methods change in place. Its contents at any moment are a PlaylistValue, and every
// method is specified by what it does to that value.
module PlaylistRecords {
  import opened Wrappers
  import opened Binary
  import opened Details
  import opened PlaylistItems
  import opened Playlists

  /** `foreach (rec in otherDetails) rec.Save (...)`: the children one after another. */
  method SaveOthers(cs: seq<Child>, isBE: bool) returns (data: Bytes)
    requires forall i :: 0 <= i < |cs| ==> ChildSaveable(cs[i])
    ensures data == Concat(ChildParts(cs, isBE))
  {
    ghost var parts := ChildParts(cs, isBE);
    data := [];
    var i := 0;
    while i < |cs|
      invariant 0 <= i <= |cs|
      invariant data == Concat(parts[..i])
    {
      PrefixSnoc(parts, i);
      ConcatAppend(parts[..i], parts[i]);
      data := data + SaveChildRecord(cs[i], isBE);
      i := i + 1;
    }
    assert parts[..i] == parts;
  }

  /** The entries loop of `PlaylistRecord.Save`: entry i gets position i + 1 and is
    * saved. */
  method SaveEntries(items: seq<PlaylistItem>, version: int, isBE: bool) returns (renumbered: seq<PlaylistItem>, data: Bytes)
    requires forall i :: 0 <= i < |items| ==> items[i].Valid()
    requires |items| < 0x7FFF_FFFF
    requires forall i :: 0 <= i < |items| ==> Saveable(Renumber(items)[i], isBE)
    ensures renumbered == Renumber(items)
    ensures data == Concat(ItemParts(renumbered, version, isBE))
  {
    ghost var target := Renumber(items);
    ghost var parts := ItemParts(target, version, isBE);
    renumbered := [];
    data := [];
    var i := 0;
    while i < |items|
      invariant 0 <= i <= |items|
      invariant renumbered == target[..i]
      invariant data == Concat(parts[..i])
    {
      var item := items[i].WithPosition(i + 1);
      var bytes := SaveItem(item, version, isBE);
      PrefixSnoc(target, i);
      PrefixSnoc(parts, i);
      ConcatAppend(parts[..i], parts[i]);
      renumbered := renumbered + [item];
      data := data + bytes;
      i := i + 1;
    }
    assert target[..i] == target;
    assert parts[..i] == parts;
  }

  /** The children loops of `PlaylistRecord.Read`: the name detail when the detail count
    * is positive, then the others. */
  method ReadChildren(s: Bytes, numDetails: Int32, numItems: Int32, isLibrary: bool, isBE: bool)
    returns (r: Read<Parsed<PlaylistChildren>>)
    ensures r == ReadPlaylistChildren(s, numDetails, numItems, isLibrary, isBE)
  {
    var name := ReadList(DetailReader(isBE), s, if numDetails >= 1 then 1 else 0);
    if name.Failure? {
      return Failure(name.error);
    }
    r := ReadOthers(name.value.value, name.value.rest, numDetails, numItems, isLibrary, isBE);
  }

  /** The other details, then the entries. */
  method ReadOthers(names: seq<Detail>, s: Bytes, numDetails: Int32, numItems: Int32, isLibrary: bool, isBE: bool)
    returns (r: Read<Parsed<PlaylistChildren>>)
    ensures r == ReadOtherChildren(names, s, numDetails, numItems, isLibrary, isBE)
  {
    var others := ReadList(ChildReader(isLibrary, isBE), s, numDetails - 1);
    if others.Failure? {
      return Failure(others.error);
    }
    r := ReadEntries(names, others.value.value, others.value.rest, numItems, isBE);
  }

  /** The entries. */
  method ReadEntries(names: seq<Detail>, others: seq<Child>, s: Bytes, numItems: Int32, isBE: bool)
    returns (r: Read<Parsed<PlaylistChildren>>)
    ensures r == ReadEntryChildren(names, others, s, numItems, isBE)
  {
    var entries := ReadList(ItemReader(isBE), s, numItems);
    if entries.Failure? {
      return Failure(entries.error);
    }
    return Success(Parsed(PlaylistChildren(names, others, entries.value.value), entries.value.rest));
  }

  class PlaylistRecord {
    const isLibrary: bool
    const isBE: bool
    var unknownOne: Int32
    /** The name detail, when there is one (`nameRecord`). */
    var stringDetails: seq<Detail>
    var otherDetails: seq<Child>
    var items: seq<PlaylistItem>
    var isHidden: bool
    var timestamp: Int32
    var id: Int32
    var isPodcast: bool
    var order: Int32

    /** The record's contents. */
    function Value(): PlaylistValue
      reads this
    {
      PlaylistValue(isLibrary, unknownOne, stringDetails, otherDetails, items, isHidden, timestamp, id,
                    isPodcast, order)
    }

    /** At most the one name detail, no other details without it, and every entry's
      * position reference pointing at a position detail. */
    predicate Valid()
      reads this
    {
      |stringDetails| <= 1 && (stringDetails == [] ==> otherDetails == [])
      && forall i :: 0 <= i < |items| ==> items[i].Valid()
    }

    constructor(isLibrary: bool, isBE: bool)
      ensures Valid() && this.isBE == isBE
      ensures Value() == EmptyPlaylist(isLibrary)
    {
      this.isLibrary := isLibrary;
      this.isBE := isBE;
      unknownOne := 0;
      stringDetails := [];
      otherDetails := [];
      items := [];
      isHidden := false;
      timestamp := 0;
      id := 0;
      isPodcast := false;
      order := Manual;
    }

    /** `PlaylistName`'s getter: the value of the name detail; None where the source
      * dereferences a missing name record, or the name detail keeps no value. */
    function Name(): (r: Option<string>)
      reads this
      ensures r.Some? <==> stringDetails != [] && (stringDetails[0].StringDetail? || stringDetails[0].UrlDetail?)
    {
      if stringDetails == [] then None else ValueOf(stringDetails[0])
    }

    /** `PlaylistName`'s setter: a new title detail when there is no name detail, else the
      * name detail's value replaced. */
    method SetName(value: string)
      requires Valid()
      modifies this`stringDetails
      ensures Valid() && |stringDetails| == 1
      ensures old(stringDetails) == [] ==> stringDetails == [NewStringDetail(Title, value)]
      ensures old(stringDetails) != [] ==> stringDetails == [WithValue(old(stringDetails)[0], value)]
      ensures old(stringDetails) == [] || old(stringDetails)[0].StringDetail? || old(stringDetails)[0].UrlDetail?
              ==> Name() == Some(value)
    {
      if stringDetails == [] {
        stringDetails := [NewStringDetail(Title, value)];
      } else {
        stringDetails := [WithValue(stringDetails[0], value)];
      }
    }

    method Clear()
      modifies this`items
      ensures items == []
    {
      items := [];
    }

    /** `RemoveItem`: false, and nothing changes, for an index out of range. */
    method RemoveItem(index: int) returns (ok: bool)
      requires Valid()
      modifies this`items
      ensures Valid()
      ensures ok <==> 0 <= index < |old(items)|
      ensures ok ==> items == old(items)[..index] + old(items)[index + 1..]
      ensures !ok ==> items == old(items)
    {
      if index < 0 || index >= |items| {
        return false;
      }
      items := items[..index] + items[index + 1..];
      return true;
    }

    /** `RemoveTrack`: the first entry of the track goes. */
    method RemoveTrack(trackId: Int32)
      requires Valid()
      modifies this`items
      ensures Valid()
      ensures items == WithoutTrack(old(items), trackId)
    {
      var i := 0;
      while i < |items|
        invariant 0 <= i <= |items| && items == old(items)
        invariant forall j :: 0 <= j < i ==> items[j].trackId != trackId
      {
        if items[i].trackId == trackId {
          items := items[..i] + items[i + 1..];
          return;
        }
        i := i + 1;
      }
    }

    /** `AddItem`: the entry goes last. */
    method AddItem(item: PlaylistItem)
      requires Valid() && item.Valid()
      modifies this`items
      ensures Valid()
      ensures items == old(items) + [item]
    {
      var ok := InsertItem(-1, item);
    }

    /** `InsertItem`: a negative index appends; an index past the end is where the source
      * throws, and here nothing changes and false comes back. */
    method InsertItem(index: int, item: PlaylistItem) returns (ok: bool)
      requires Valid() && item.Valid()
      modifies this`items
      ensures Valid()
      ensures ok <==> InsertAt(old(items), index, item).Some?
      ensures items == if ok then InsertAt(old(items), index, item).value else old(items)
    {
      if index < 0 {
        items := items + [item];
        return true;
      } else if index > |items| {
        return false;
      }
      items := items[..index] + [item] + items[index..];
      return true;
    }

    /** `IndexOf`: the index of the first entry of the track, or -1. */
    method IndexOf(trackId: Int32) returns (k: int)
      ensures k == FindTrack(items, trackId)
    {
      var i := 0;
      while i < |items|
        invariant 0 <= i <= |items|
        invariant forall j :: 0 <= j < i ==> items[j].trackId != trackId
      {
        if items[i].trackId == trackId {
          return i;
        }
        i := i + 1;
      }
      return -1;
    }

    /** `CreateLibraryIndices`: only the details that are not library indices stay. */
    method CreateLibraryIndices()
      requires Valid()
      modifies this`otherDetails
      ensures Valid()
      ensures otherDetails == WithoutLibraryIndices(old(otherDetails))
    {
      var details: seq<Child> := [];
      var i := 0;
      while i < |otherDetails|
        invariant 0 <= i <= |otherDetails| && otherDetails == old(otherDetails)
        invariant details == WithoutLibraryIndices(otherDetails[..i])
      {
        var rec := otherDetails[i];
        WithoutLibraryIndicesSnoc(otherDetails[..i], rec);
        assert otherDetails[..i + 1] == otherDetails[..i] + [rec];
        if rec.DetailChild? && rec.detail.Type() != LibraryIndex {
          details := details + [rec];
        }
        i := i + 1;
      }
      assert otherDetails[..i] == otherDetails;
      otherDetails := details;
    }

    /** The children of `Save`: the name detail, the other details, then the entries,
      * which get the positions 1, 2, 3, ... as they are saved. */
    method SaveChildData(version: int) returns (children: Bytes)
      requires Valid() && |items| < 0x7FFF_FFFF
      requires PartsSaveable(Value().(items := Renumber(items)), isBE)
      modifies this`items
      ensures Valid() && items == Renumber(old(items))
      ensures PartsSaveable(Value(), isBE) && children == ChildrenBytes(Value(), version, isBE)
    {
      var names := SaveChildren(stringDetails, isBE);
      var others := SaveOthers(otherDetails, isBE);
      var renumbered, entries := SaveEntries(items, version, isBE);
      RenumberPositions(items);
      items := renumbered;
      children := names + (others + entries);
    }

    /** `Save`: the library loses its library indices, the entries are numbered from 1,
      * and the record is written with its children. */
    method Save(version: int) returns (bytes: Bytes)
      requires Valid() && |items| < 0x7FFF_FFFF
      requires PlaylistSaveable(PrepareForSave(Value()), version, isBE)
      modifies this
      ensures Valid()
      ensures Value() == PrepareForSave(old(Value()))
      ensures bytes == EncodePlaylist(Value(), version, isBE)
    {
      ghost var before := Value();
      if isLibrary {
        CreateLibraryIndices();
      }
      var children := SaveChildData(version);
      Prepared(before, Value());
      bytes := PlaylistBytes(Value(), children, version, isBE);
    }

    /** The fields of `Read` once the body and the children are read. */
    method Load(v: PlaylistValue, version: int)
      requires v.isLibrary == isLibrary
      requires |v.stringDetails| <= 1 && (v.stringDetails == [] ==> v.otherDetails == [])
      requires forall i :: 0 <= i < |v.items| ==> v.items[i].Valid()
      modifies this
      ensures Valid()
      ensures Value() == AfterRead(old(Value()), v, version)
    {
      if v.isHidden {
        isHidden := true;
      }
      timestamp := v.timestamp;
      id := v.id;
      unknownOne := v.unknownOne;
      if version >= 13 {
        isPodcast := v.isPodcast;
        order := v.order;
      }
      stringDetails := v.stringDetails;
      otherDetails := v.otherDetails;
      items := v.items;
    }

    /** `Read`: the header, the fields, the name detail, the other details and the
      * entries. */
    method Read(s: Bytes, version: int) returns (r: Read<Bytes>)
      requires Valid()
      modifies this
      ensures Valid()
      ensures var p := ReadPlaylist(s, isLibrary, version, isBE);
        (r.Success? <==> p.Success?)
        && (p.Success? ==> r.value == p.value.rest && Value() == AfterRead(old(Value()), p.value.value, version))
        && (p.Failure? ==> Value() == old(Value()))
    {
      var h := ReadHeader(s, Some(PlaylistTag), isBE);
      if h.Failure? {
        return Failure(h.error);
      }
      var b := ReadBytes(h.value.rest, h.value.value.headerOne - 12);
      if b.Failure? {
        return Failure(b.error);
      }
      var body := b.value.value;
      ReadPlaylistBody(s, isLibrary, version, isBE, body, b.value.rest);
      if |body| < 24 || (version >= 13 && |body| < 36) {
        return Failure(IndexOutOfRange);
      }
      var c := ReadChildren(b.value.rest, ToInt32(body, 0, isBE), ToInt32(body, 4, isBE), isLibrary, isBE);
      if c.Failure? {
        return Failure(c.error);
      }
      ChildrenShape(b.value.rest, ToInt32(body, 0, isBE), ToInt32(body, 4, isBE), isLibrary, isBE);
      Load(ValueOfBody(body, c.value.value, isLibrary, version, isBE), version);
      return Success(c.value.rest);
    }
  }

  /** What `Read` leaves in a record: what it read, except that the hidden flag is only
    * ever set, never cleared, and before version 13 the podcast flag and the sort order
    * keep the values they had. */
  function AfterRead(before: PlaylistValue, read: PlaylistValue, version: int): PlaylistValue
  {
    read.(isHidden := before.isHidden || read.isHidden,
          isPodcast := if version >= 13 then read.isPodcast else before.isPodcast,
          order := if version >= 13 then read.order else before.order)
  }
}
