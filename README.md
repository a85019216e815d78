# iTunesDB record tree and track database, in Dafny

This project models the part of ipod-sharp that reads and writes an iPod's music
database, the iTunesDB file, and the classes programs use to edit it.

- **The record tree.** Each record is a four-letter tag plus two lengths and a body. The
  modelled records are:
  - the database record (mhbd);
  - its data sets (mhsd): the library, the playlists, and the duplicate playlist set
    that shares the playlist list;
  - the track list (mhlt) and track records (mhit);
  - the detail records (mhod): strings, URLs, chapter data, playlist data and position
    records;
  - the playlist list (mhlp), playlists (mhyp) and playlist items (mhip);
  - records of unknown kind, which are kept verbatim.

  Each record's reader is a function from bytes to a `Result`, and each writer is a
  function to bytes. Round-trip lemmas connect the two. The records a program edits in
  place are classes whose methods are proved against those functions.
- **The `Track` wrapper.** This is the object a program sees: text details, rating,
  compilation flag, file name, the URI setter and the track order.
  `IsProtected` is the predicate `UserId != 0`.
- **The `TrackDatabase` orchestrator.** It handles:
  - adding, creating and removing tracks and playlists;
  - the queues of files to copy to and delete from the device;
  - merging the device's play counts;
  - the free-space check;
  - grouping tracks by artist;
  - renumbering track ids before a save.

Integers are modelled at the widths the source uses (`Int16`, `Int32`, `Int64` and their
unsigned forms as subset types). Arithmetic that wraps in the source is written out with
an explicit modulus: the database id counter, the play-count sum and the size totals.

## Model

Rows marked *as written* model a defect the source has; the row marked *corrected* next to
it models the evident intent, which the rest of the model uses (see "## Findings").

| member | source | states |
|---|---|---|
| Binary.SwapInvolution | trunk/ipod-sharp/TrackDatabase.cs:56-71 | byte reversal undoes itself, so a tag written swapped for a big-endian device reads back as written |
| Binary.Swap | trunk/ipod-sharp/TrackDatabase.cs:26-27 | byte reversal (`Utility.Swap`): the same length, byte k taken from the other end |
| Binary.MaybeSwap | trunk/ipod-sharp/TrackDatabase.cs:56-70 | the length is kept; by definition the bytes are reversed on a big-endian database and unchanged otherwise |
| Binary.ToInt16 | trunk/ipod-sharp/TrackDatabase.cs:48-50 | definition: the two bytes at the offset as a signed 16-bit number in the device's byte order (no contract; `WriteInt16` is its inverse) |
| Binary.ToUInt16 | trunk/ipod-sharp/TrackDatabase.cs:52-54 | definition: `ToInt16` cast to unsigned (no contract; `WriteUInt16` is its inverse) |
| Binary.ToInt32 | trunk/ipod-sharp/TrackDatabase.cs:40-42 | definition: the four bytes at the offset as a signed 32-bit number in the device's byte order (no contract; `WriteInt32` and `WriteReadInt32` relate it to its inverse) |
| Binary.ToUInt32 | trunk/ipod-sharp/TrackDatabase.cs:44-46 | definition: `ToInt32` cast to unsigned (no contract; `WriteUInt32` is its inverse) |
| Binary.ToInt64 | trunk/ipod-sharp/TrackDatabase.cs:36-38 | definition: the eight bytes at the offset as a signed 64-bit number (no contract; `WriteInt64` is its inverse) |
| Binary.WriteInt16 | trunk/ipod-sharp/TrackDatabase.cs:48-50 | two bytes that `ToInt16` reads back as the same value in the device's byte order |
| Binary.WriteUInt16 | trunk/ipod-sharp/TrackDatabase.cs:52-55 | two bytes that `ToUInt16` reads back as the same value |
| Binary.WriteInt32 | trunk/ipod-sharp/TrackDatabase.cs:40-42 | four bytes that `ToInt32` reads back as the same value |
| Binary.WriteUInt32 | trunk/ipod-sharp/TrackDatabase.cs:44-46 | four bytes that `ToUInt32` reads back as the same value |
| Binary.WriteInt64 | trunk/ipod-sharp/TrackDatabase.cs:36-38 | eight bytes that `ToInt64` reads back as the same value |
| Binary.WriteReadInt32 | trunk/ipod-sharp/TrackDatabase.cs:40-42 | any four bytes are the encoding of the int `ToInt32` reads from them, so the reader loses nothing |
| Binary.Int32ByteOrder | trunk/ipod-sharp/TrackDatabase.cs:56-71 | the big-endian encoding of an int is the byte reversal of the little-endian one |
| Binary.Int32sRead | trunk/ipod-sharp/TrackDatabase.cs:40-42 | the k-th int of a run of written ints is read back at offset 4k |
| Binary.ReadBytes | trunk/ipod-sharp/TrackDatabase.cs:124-128 | fails exactly for a negative count; otherwise the bytes taken followed by the bytes left are the input, and exactly `count` bytes are taken when that many remain |
| Binary.WriteName | trunk/ipod-sharp/TrackDatabase.cs:24-30 | the four tag bytes, swapped on a big-endian device, spell the record's name |
| Binary.WriteHeader | trunk/ipod-sharp/TrackDatabase.cs:24-30 | twelve bytes: the tag, then the two lengths, readable at offsets 4 and 8 |
| Binary.TagRoundTrip | trunk/ipod-sharp/TrackDatabase.cs:72-83 | the tag written for a name is read back as that name in either byte order |
| Binary.ReadHeader | trunk/ipod-sharp/TrackDatabase.cs:72-92 | on success twelve bytes are consumed and the name read is the one expected |
| Binary.HeaderRoundTrip | trunk/ipod-sharp/TrackDatabase.cs:72-92 | a written header is read back with its name and both lengths |
| Binary.TagVerbatim | trunk/ipod-sharp/TrackDatabase.cs:72-83 | four ASCII tag bytes are what writing the name read from them produces |
| Binary.HeaderVerbatim | trunk/ipod-sharp/TrackDatabase.cs:72-92 | any header with an ASCII tag is reproduced byte for byte by writing what was read |
| Binary.AnyHeaderRoundTrip | trunk/ipod-sharp/TrackDatabase.cs:72-92 | with no expected name, a written header reads back as its own name and lengths |
| Binary.TagMismatchFails | trunk/ipod-sharp/TrackDatabase.cs:79-81 | reading a header fails with a tag mismatch exactly when the tag differs from the expected name |
| Binary.ReadList | trunk/ipod-sharp/TrackDatabase.cs:1213-1222 | the counted read loop returns exactly what reading that many records one after another gives |
| Binary.ReadManyRoundTrip | trunk/ipod-sharp/TrackDatabase.cs:1213-1222 | reading n records from the concatenation of their encodings gives the n records back and the rest untouched |
| Binary.ReadManyKeeps | trunk/ipod-sharp/TrackDatabase.cs:1213-1222 | a property every successful single read has holds of every record a counted read yields |
| Binary.ReadIndexedRoundTrip | trunk/ipod-sharp/TrackDatabase.cs:579-588 | the same round trip for a reader told whether it reads the first record, as the playlist list does |
| Binary.ReadIndexedKeeps | trunk/ipod-sharp/TrackDatabase.cs:579-588 | a property every successful single read has, given whether it read the first record, holds of every record an indexed read yields |
| Text.Utf8Char | trunk/ipod-sharp/TrackDatabase.cs:762-768 | one byte for an ASCII character, else two to four bytes starting with a lead byte and a continuation byte |
| Text.Utf8CharDecodes | trunk/ipod-sharp/TrackDatabase.cs:717-721 | the one to four bytes written for a character decode to that character |
| Text.Utf8RoundTrip | trunk/ipod-sharp/TrackDatabase.cs:717-721 | decoding the UTF-8 encoding of any string gives the string |
| Text.Utf8SecondByteZero | trunk/ipod-sharp/TrackDatabase.cs:717-718 | the second UTF-8 byte is zero exactly when the string starts with an ASCII character followed by NUL |
| Text.Utf16Char | trunk/ipod-sharp/TrackDatabase.cs:768 | two bytes, or four for a character beyond 0xFFFF, whose second byte is zero exactly when the code is below 0x100 |
| Text.Utf16Encode | trunk/ipod-sharp/TrackDatabase.cs:768 | at least two bytes per character, and the second byte is zero exactly when the first character's code is below 0x100 |
| Text.Utf16CharDecodes | trunk/ipod-sharp/TrackDatabase.cs:717-718 | the two bytes written for a character decode to it |
| Text.Utf16RoundTrip | trunk/ipod-sharp/TrackDatabase.cs:717-721 | decoding the UTF-16 encoding of any string gives the string |
| Text.Utf16NeverReadsAsUtf8 | trunk/ipod-sharp/TrackDatabase.cs:717-721 | the UTF-16 bytes of any non-empty string, decoded as UTF-8, never give that string back |
| GenericRecords.SaveGeneric | trunk/ipod-sharp/TrackDatabase.cs:130-135 | an unknown record is written with its own name, lengths and data, twelve header bytes plus the data |
| GenericRecords.ReadGeneric | trunk/ipod-sharp/TrackDatabase.cs:124-128 | definition: any tag, then HeaderTwo - 12 bytes of data kept verbatim (no contract; `GenericRoundTrip` and `GenericVerbatim` are its partners) |
| GenericRecords.ReadGenericFramed | trunk/ipod-sharp/TrackDatabase.cs:124-128 | a record read has a tag name, and unless the input ran out its data is `HeaderTwo - 12` bytes long |
| GenericRecords.GenericRoundTrip | trunk/ipod-sharp/TrackDatabase.cs:124-135 | saving an unknown record and reading it back gives the same record |
| GenericRecords.GenericVerbatim | trunk/ipod-sharp/TrackDatabase.cs:124-135 | for a record with an ASCII tag, saving what was read reproduces the bytes it was read from |
| GenericRecords.GenericSplit | trunk/ipod-sharp/TrackDatabase.cs:124-128 | the input is the twelve header bytes, the data and the rest, and the name and lengths are the header's |
| Details.WithValue | trunk/ipod-sharp/TrackDatabase.cs:274-285 | a string or URL detail then holds the value; any other detail is unchanged; the type never changes |
| Details.NewStringDetail | trunk/ipod-sharp/TrackDatabase.cs:667-675 | a new detail of a string type holds the given value |
| Details.ReadDetail | trunk/ipod-sharp/TrackDatabase.cs:677-745 | a successful read consumes input, so a list of details is read in finitely many steps |
| Details.DetailFromBody | trunk/ipod-sharp/TrackDatabase.cs:680-745 | definition: dispatch on the type code; codes above 50 other than library index and Misc are refused (no contract; `BodyRoundTrip` and `ShortBodyRefused` are its partners) |
| Details.DecodeStringValue | trunk/ipod-sharp/TrackDatabase.cs:717-721 | *as written*, by definition: UTF-16 from offset 28 when strlen >= 2 and body byte 29 is 0, UTF-8 otherwise (no contract; partners `DecodeAfterFields`, `StringValueRoundTrip`, `Utf16ValueMisread`, `Utf8ValueMisread`) |
| Details.DecodeStringValueByOrder | trunk/ipod-sharp/TrackDatabase.cs:717-770 | *corrected*: the value decodes exactly when its byte count is non-negative and within the body, as UTF-8 on a big-endian database and UTF-16 otherwise, the encodings the writer uses (lines 766-770) |
| Details.StringValueByOrderRoundTrip | trunk/ipod-sharp/TrackDatabase.cs:717-770 | *corrected*: every string value, saved in the database's encoding and decoded in it, comes back as itself |
| Details.DecodeAfterFields | trunk/ipod-sharp/TrackDatabase.cs:717-721 | *as written*: on a saved value, the source's rule gives `ReadBackValue` of the value's bytes: UTF-16 when the second byte is 0, UTF-8 otherwise |
| Details.SaveDetail | trunk/ipod-sharp/TrackDatabase.cs:747-807 | corrected, by definition: HeaderOne 24, HeaderTwo the record's whole length, then the body (no contract; partners `HeaderTwoIsLength`, `DetailRoundTrip`) |
| Details.SaveDetailAsWritten | trunk/ipod-sharp/TrackDatabase.cs:747-778 | as written, by definition: a playlist-data detail gets no HeaderTwo; every other detail is saved as `SaveDetail` (no contract; partner `PlaylistDataAsWrittenMisread`) |
| Details.HeaderTwoIsLength | trunk/ipod-sharp/TrackDatabase.cs:747-807 | *corrected*: every detail's second length is 12 plus its body, the number of bytes written for it |
| Details.SavedDetailLengths | trunk/ipod-sharp/TrackDatabase.cs:747-807 | the first length is 24; a string detail is 40 bytes plus its encoded value, with the value's length at offset 28 |
| Details.StringLengthField | trunk/ipod-sharp/TrackDatabase.cs:785-789 | the length written for a string is the byte count of its encoding |
| Details.StringValueRoundTrip | trunk/ipod-sharp/TrackDatabase.cs:717-721 | *as written*: a value for which the source's second-byte test picks the encoding it was written in (`ValueSurvives`) reads back as itself |
| Details.Utf16ValueMisread | trunk/ipod-sharp/TrackDatabase.cs:717-721 | *as written*: on a little-endian database, every value whose first character is U+0100 or above is decoded by the source's rule as UTF-8 and never comes back as itself |
| Details.Utf8ValueMisread | trunk/ipod-sharp/TrackDatabase.cs:717-721 | *as written*: "a" followed by NUL, written as UTF-8 on a big-endian device, is read back as UTF-16, giving "a" |
| Details.DetailRoundTrip | trunk/ipod-sharp/TrackDatabase.cs:677-807 | *corrected*: every saveable detail (every type but the library index, whose save is disabled) saved and read back is the same detail, whatever its string value |
| Details.BodyRoundTrip | trunk/ipod-sharp/TrackDatabase.cs:680-745 | each supported body type reads back as written |
| Details.UrlBodyRoundTrip | trunk/ipod-sharp/TrackDatabase.cs:691-694 | a URL body reads back as its UTF-8 text |
| Details.ChapterBodyRoundTrip | trunk/ipod-sharp/TrackDatabase.cs:695-699 | chapter data is kept verbatim |
| Details.PlaylistDataBodyRoundTrip | trunk/ipod-sharp/TrackDatabase.cs:747-807 | *corrected*: a playlist-data detail reads back as the same detail |
| Details.PositionBodyRoundTrip | trunk/ipod-sharp/TrackDatabase.cs:742-744 | a position detail reads back with its position |
| Details.ShortBodyRefused | trunk/ipod-sharp/TrackDatabase.cs:680-688 | a body shorter than the twelve bytes of type and unknown fields fails |
| Details.PlaylistDataAsWrittenMisread | trunk/ipod-sharp/TrackDatabase.cs:747-778 | *as written*: a playlist-data detail saved by the source does not read back as itself |
| Details.AsWrittenHeader | trunk/ipod-sharp/TrackDatabase.cs:752-778 | *as written*: the second length the reader finds in such a record is the type code 50 |
| Details.SaveChildren | trunk/ipod-sharp/TrackDatabase.cs:1001-1003 | the loop writing a record's details produces their concatenated encodings |
| Details.DetailsRoundTrip | trunk/ipod-sharp/TrackDatabase.cs:987-993 | n details saved one after another read back as the same n details |
| PlaylistItems.PlaylistItem.WithPosition | trunk/ipod-sharp/TrackDatabase.cs:146-149 | setting the position changes only the position record, keeping the track id and every other detail |
| PlaylistItems.NewItem | trunk/ipod-sharp/TrackDatabase.cs:153-158 | a new item has track id 0, position 1 and its one position detail |
| PlaylistItems.LastPosition | trunk/ipod-sharp/TrackDatabase.cs:178-182 | the item's position record is the last position detail read, if there is one |
| PlaylistItems.WithPositionAsRead | trunk/ipod-sharp/TrackDatabase.cs:178-182 | an item as read still looks as read after its position is set, exactly when it has a position detail or the position is 1 |
| PlaylistItems.LastPositionSameKinds | trunk/ipod-sharp/TrackDatabase.cs:178-182 | the last position record depends only on where the position details are |
| PlaylistItems.SaveItem | trunk/ipod-sharp/TrackDatabase.cs:186-221 | *corrected*: the save method writes exactly `ItemBytes`: header, fields, then the details' own bytes back to back |
| PlaylistItems.PaddedConcat | trunk/ipod-sharp/TrackDatabase.cs:105-113 | the buffers `SaveChild` hands back, collected one after another, are at least as long as the details they hold |
| PlaylistItems.PaddedConcatStart | trunk/ipod-sharp/TrackDatabase.cs:105-113 | the collected buffers start with the whole first buffer: the first detail, then zeros |
| PlaylistItems.PaddedConcatAppend | trunk/ipod-sharp/TrackDatabase.cs:196-200 | appending one buffer to the collection appends it to the collected bytes |
| PlaylistItems.CollectBuffers | trunk/ipod-sharp/TrackDatabase.cs:189-201 | *as written*: the loop's length is the details' own bytes and its data the whole buffers, padding included |
| PlaylistItems.SaveItemAsWritten | trunk/ipod-sharp/TrackDatabase.cs:186-221 | *as written*: the save writes `ItemBytesAsWritten`: HeaderTwo counts the details' bytes, and that many bytes of the padded buffers follow the fields |
| PlaylistItems.SingleDetailAsWritten | trunk/ipod-sharp/TrackDatabase.cs:186-221 | *as written*: with at most one detail the padding is never written, and the source saves exactly `ItemBytes` |
| PlaylistItems.ItemAsWrittenMisread | trunk/ipod-sharp/TrackDatabase.cs:105-221 | *as written*: with two or more details and a first buffer at least four bytes longer than the first detail, the saved item cannot be read back |
| PlaylistItems.TwoDetailsLength | trunk/ipod-sharp/TrackDatabase.cs:189-201 | two or more details take the first detail's bytes and at least 24 more |
| PlaylistItems.PaddedChildren | trunk/ipod-sharp/TrackDatabase.cs:196-221 | the bytes written after the fields are the first detail, then at least four zeros |
| PlaylistItems.ZeroTagFails | trunk/ipod-sharp/TrackDatabase.cs:677-680 | a detail whose tag is four zero bytes cannot be read |
| PlaylistItems.SecondDetailFails | trunk/ipod-sharp/TrackDatabase.cs:170-176 | a list of details fails when its second detail cannot be read |
| PlaylistItems.ItemFailsWithDetails | trunk/ipod-sharp/TrackDatabase.cs:160-176 | an item whose details cannot be read cannot be read |
| PlaylistItems.ItemLengths | trunk/ipod-sharp/TrackDatabase.cs:204-212 | the first length is 40; the second covers the details from version 13 on and is 40 before; the record is 40 bytes plus its details |
| PlaylistItems.ReadItem | trunk/ipod-sharp/TrackDatabase.cs:160-184 | a successful read gives an item whose position record is the last position detail |
| PlaylistItems.ItemRoundTrip | trunk/ipod-sharp/TrackDatabase.cs:160-221 | *corrected*: an item saved as `ItemBytes` and read back is the same item, whatever the number of details |
| Playlists.ReadChild | trunk/ipod-sharp/TrackDatabase.cs:374-388 | a child is read as a detail in the library playlist and as an unknown record elsewhere |
| Playlists.ChildRoundTrip | trunk/ipod-sharp/TrackDatabase.cs:374-388 | a child saved and read back is the same child |
| Playlists.EmptyPlaylist | trunk/ipod-sharp/TrackDatabase.cs:293-296 | a new playlist has no details and no items, is not hidden and not a podcast, and is ordered manually |
| Playlists.FindTrack | trunk/ipod-sharp/TrackDatabase.cs:335-347 | the index of the first item with that track id, and -1 exactly when there is none |
| Playlists.WithoutTrackRemovesOne | trunk/ipod-sharp/TrackDatabase.cs:310-317 | removing a track drops its first item and keeps every other item in order |
| Playlists.WithoutTrack | trunk/ipod-sharp/TrackDatabase.cs:310-317 | definition: the first entry with the track id is removed (no contract; `WithoutTrackRemovesOne` states its effect) |
| Playlists.InsertAt | trunk/ipod-sharp/TrackDatabase.cs:323-329 | fails exactly when the index is past the end; a negative index appends; otherwise the item lands at the index and the rest keep their order |
| Playlists.RenumberPositions | trunk/ipod-sharp/TrackDatabase.cs:459-463 | after a save the items' positions are 1 to n in order, with track ids unchanged |
| Playlists.Renumber | trunk/ipod-sharp/TrackDatabase.cs:459-463 | the entries in order with positions 1, 2, 3, ...; `RenumberPositions` states the positions |
| Playlists.RenumberAsRead | trunk/ipod-sharp/TrackDatabase.cs:459-463 | renumbering keeps items that were read in their read shape |
| Playlists.WithoutLibraryIndices | trunk/ipod-sharp/TrackDatabase.cs:419-431 | library-index details are dropped and every other detail is kept in order |
| Playlists.WithoutLibraryIndicesIdempotent | trunk/ipod-sharp/TrackDatabase.cs:419-431 | dropping library-index details twice is the same as once |
| Playlists.StrippedIsSubset | trunk/ipod-sharp/TrackDatabase.cs:419-431 | every child left after dropping library indices was a child before |
| Playlists.PrepareForSave | trunk/ipod-sharp/TrackDatabase.cs:442-463 | saving renumbers the items, drops the library playlist's old indices, and changes nothing else |
| Playlists.PlaylistLengths | trunk/ipod-sharp/TrackDatabase.cs:470-497 | the header is 48 or 42 bytes plus padding by version 13, the second length covers the children, and the children come last |
| Playlists.EncodePlaylist | trunk/ipod-sharp/TrackDatabase.cs:442-498 | definition: header, body fields, then the saved children (no contract; `PlaylistLengths` and `PlaylistRoundTrip` are its partners) |
| Playlists.ReadPlaylist | trunk/ipod-sharp/TrackDatabase.cs:349-395 | a playlist read has at most one name detail; before version 13 it is no podcast and ordered manually |
| Playlists.PlaylistFieldsRead | trunk/ipod-sharp/TrackDatabase.cs:480-489 | the counts, hidden flag, timestamp and id written read back as written |
| Playlists.PlaylistPodcastRead | trunk/ipod-sharp/TrackDatabase.cs:491-494 | from version 13 on, the podcast flag and sort order read back as written |
| Playlists.ChildrenShape | trunk/ipod-sharp/TrackDatabase.cs:374-394 | children read give at most one name, and other details only after a name |
| Playlists.PlaylistRoundTrip | trunk/ipod-sharp/TrackDatabase.cs:349-498 | *corrected*: a playlist saved and read back is the same playlist (its entries saved as `ItemBytes`, its strings read in the database's encoding) |
| Playlists.SavedPlaylistReadsBack | trunk/ipod-sharp/TrackDatabase.cs:442-498 | what `Save` writes reads back as the prepared playlist |
| Playlists.PreparedRoundTrips | trunk/ipod-sharp/TrackDatabase.cs:442-463 | preparing for save keeps a playlist that round-trips one that round-trips |
| PlaylistRecords.SaveOthers | trunk/ipod-sharp/TrackDatabase.cs:453-457 | writes exactly the encodings of the other details |
| PlaylistRecords.SaveEntries | trunk/ipod-sharp/TrackDatabase.cs:459-463 | the item loop renumbers the items and writes exactly their encodings |
| PlaylistRecords.ReadChildren | trunk/ipod-sharp/TrackDatabase.cs:374-394 | the child loops fill the record with what the children reader specifies |
| PlaylistRecords.PlaylistRecord.constructor | trunk/ipod-sharp/TrackDatabase.cs:293-296 | a new record holds the empty playlist |
| PlaylistRecords.PlaylistRecord.Name | trunk/ipod-sharp/TrackDatabase.cs:274-275 | the value of the first name detail, or null without one |
| PlaylistRecords.PlaylistRecord.SetName | trunk/ipod-sharp/TrackDatabase.cs:276-284 | creates a title detail when there is none, else sets the first one; afterwards the name is the value set |
| PlaylistRecords.PlaylistRecord.Clear | trunk/ipod-sharp/TrackDatabase.cs:298-300 | the items become empty and nothing else changes |
| PlaylistRecords.PlaylistRecord.RemoveItem | trunk/ipod-sharp/TrackDatabase.cs:302-308 | succeeds exactly for an index in range and removes that item; otherwise nothing changes |
| PlaylistRecords.PlaylistRecord.RemoveTrack | trunk/ipod-sharp/TrackDatabase.cs:310-317 | removes the first item of that track, as `WithoutTrack` specifies |
| PlaylistRecords.PlaylistRecord.AddItem | trunk/ipod-sharp/TrackDatabase.cs:319-321 | appends the item |
| PlaylistRecords.PlaylistRecord.InsertItem | trunk/ipod-sharp/TrackDatabase.cs:323-329 | the items become what `InsertAt` gives, or stay as they were when it fails |
| PlaylistRecords.PlaylistRecord.IndexOf | trunk/ipod-sharp/TrackDatabase.cs:335-347 | returns `FindTrack` of the items |
| PlaylistRecords.PlaylistRecord.CreateLibraryIndices | trunk/ipod-sharp/TrackDatabase.cs:419-440 | drops the old library-index details of the library playlist |
| PlaylistRecords.PlaylistRecord.SaveChildData | trunk/ipod-sharp/TrackDatabase.cs:448-468 | writes the prepared playlist's children and leaves the record prepared |
| PlaylistRecords.PlaylistRecord.Save | trunk/ipod-sharp/TrackDatabase.cs:442-498 | the record becomes the prepared playlist and the bytes are its encoding |
| PlaylistRecords.PlaylistRecord.Load | trunk/ipod-sharp/TrackDatabase.cs:349-395 | stores the fields and children of a playlist read |
| PlaylistRecords.PlaylistRecord.Read | trunk/ipod-sharp/TrackDatabase.cs:349-395 | on success the record holds the playlist `ReadPlaylist` gives |
| PlaylistLists.MaxId | trunk/ipod-sharp/TrackDatabase.cs:602-610 | at least 0 and every id, and either 0 or one of the ids |
| PlaylistLists.NextId | trunk/ipod-sharp/TrackDatabase.cs:602-610 | definition: one more than the largest id and 0, in 32-bit arithmetic (no contract; `NextIdIsFresh` and `NextIdWraps` state its properties) |
| PlaylistLists.NextIdIsFresh | trunk/ipod-sharp/TrackDatabase.cs:602-615 | when no id is the largest int, the next id is positive and above every playlist's id |
| PlaylistLists.NextIdWraps | trunk/ipod-sharp/TrackDatabase.cs:602-610 | after the largest int the next id wraps to the smallest |
| PlaylistLists.EncodePlaylistList | trunk/ipod-sharp/TrackDatabase.cs:591-600 | the list header's second length is the playlist count, not a byte length |
| PlaylistLists.ReadPlaylistList | trunk/ipod-sharp/TrackDatabase.cs:570-589 | definition: the header, HeaderOne - 12 padding bytes, then HeaderTwo playlists, the first read as the library (no contract; `PlaylistListRoundTrip` and `ReadPlaylistListLibraryFirst` are its partners) |
| PlaylistLists.ReadPlaylistListLibraryFirst | trunk/ipod-sharp/TrackDatabase.cs:570-589 | a list read has the library playlist first and only first |
| PlaylistLists.PlaylistListRoundTrip | trunk/ipod-sharp/TrackDatabase.cs:570-600 | *corrected*: a playlist list saved and read back is the same list (entries and strings as in `PlaylistRoundTrip`) |
| PlaylistLists.SavedListReadsBack | trunk/ipod-sharp/TrackDatabase.cs:591-600 | what `Save` writes reads back as the prepared playlists |
| PlaylistLists.PlaylistListRecord.constructor | trunk/ipod-sharp/TrackDatabase.cs:557-564 | a new list holds the library playlist alone |
| PlaylistLists.PlaylistListRecord.FindNextId | trunk/ipod-sharp/TrackDatabase.cs:602-610 | returns one past the largest id, which `NextIdIsFresh` shows is unused |
| PlaylistLists.PlaylistListRecord.AddPlaylist | trunk/ipod-sharp/TrackDatabase.cs:612-615 | appends the playlist with the next id |
| PlaylistLists.PlaylistListRecord.RemovePlaylist | trunk/ipod-sharp/TrackDatabase.cs:617-619 | removes the first occurrence of the playlist |
| PlaylistLists.PlaylistListRecord.Save | trunk/ipod-sharp/TrackDatabase.cs:591-600 | the playlists become prepared and the bytes are the list's encoding |
| PlaylistLists.PlaylistListRecord.Read | trunk/ipod-sharp/TrackDatabase.cs:570-589 | on success the list holds the playlists the list reader gives; a header that cannot be read leaves the list as it was |
| Tracks.MediaTypeRoundTrip | trunk/ipod-sharp/TrackDatabase.cs:1106-1151 | the media type code round-trips, except that a movie is stored as video; unknown codes read as AudioVideo and are stored as code 0; no code reads as Movie |
| Tracks.FromMediaType | trunk/ipod-sharp/TrackDatabase.cs:1106-1128 | definition: the code of each media type, with Movie stored as the video code (no contract; partner `MediaTypeRoundTrip`) |
| Tracks.ToMediaType | trunk/ipod-sharp/TrackDatabase.cs:1130-1151 | definition: the media type of each known code, AudioVideo for any other (no contract; partner `MediaTypeRoundTrip`) |
| Tracks.DefaultFields | trunk/ipod-sharp/TrackDatabase.cs:817-886 | a new track is an MP3 audio track, number 1 of 1, with the source's fixed unknown constants |
| Tracks.TrackBody | trunk/ipod-sharp/TrackDatabase.cs:1021-1098 | the body is 152 bytes, plus 80 more from version 12 on |
| Tracks.TrackHeaderOne | trunk/ipod-sharp/TrackDatabase.cs:1010-1015 | *corrected*: the first length is 12 plus the body's length for every version |
| Tracks.TrackLengthsAsWritten | trunk/ipod-sharp/TrackDatabase.cs:1010-1019 | *as written*: the first length is 244 or 156, so before version 12 the record is 8 bytes longer than its lengths say |
| Tracks.TrackLengths | trunk/ipod-sharp/TrackDatabase.cs:1010-1019 | *corrected*: the second length is the record's size and the details follow the body |
| Tracks.EncodeTrackAsWritten | trunk/ipod-sharp/TrackDatabase.cs:996-1104 | as written, by definition: `TrackRecord.Save` with HeaderOne 156 before version 12 (no contract; partner `OldSaveUnreadable`) |
| Tracks.EncodeTrack | trunk/ipod-sharp/TrackDatabase.cs:996-1104 | corrected: `TrackRecord.Save` with HeaderOne the header and body length it writes (no contract; `TrackLengths` and `TrackRoundTrip` are its partners) |
| Tracks.MediaTypeOf | trunk/ipod-sharp/TrackDatabase.cs:965-981 | a track reads as a movie exactly when the movie flag byte is 1 or it was a movie already |
| Tracks.TrackFromBody | trunk/ipod-sharp/TrackDatabase.cs:909-994 | a body too short for its version fails with an out-of-range error; on success the fields are the ones at their offsets |
| Tracks.FieldsOf | trunk/ipod-sharp/TrackDatabase.cs:913-985 | definition: the fields read from a body; before version 12 the newer fields keep their old values (no contract; partners `CommonRead`, `NewerRead`) |
| Tracks.ReadTrack | trunk/ipod-sharp/TrackDatabase.cs:909-994 | definition: header, HeaderOne - 12 body bytes, then as many details as the body says; a short body fails (no contract; partners `TrackRoundTrip`, `FrameShort`) |
| Tracks.BasicRead | trunk/ipod-sharp/TrackDatabase.cs:913-929 | the detail count, id, type, flags and the fields up to offset 52 read back as written |
| Tracks.PlayRead | trunk/ipod-sharp/TrackDatabase.cs:930-941 | the play fields at offsets 52 to 100 read back as written |
| Tracks.ExtraRead | trunk/ipod-sharp/TrackDatabase.cs:942-957 | *corrected*: the fields at offsets 100 to 152, the artwork count among them, read back as written |
| Tracks.ExtraOf | trunk/ipod-sharp/TrackDatabase.cs:942-957 | corrected: offsets 100-151, the artwork count from 112 where `Save` writes it (no contract; partner `ExtraRead`) |
| Tracks.ExtraOfAsWritten | trunk/ipod-sharp/TrackDatabase.cs:942-957 | as written: the artwork count from 114 and the field beside it from 112 (no contract; partner `ArtworkCountSwapped`) |
| Tracks.ArtworkCountSwapped | trunk/ipod-sharp/TrackDatabase.cs:946-947 | *as written*: the source reads the artwork count and the field beside it from each other's offsets |
| Tracks.FlagsRead | trunk/ipod-sharp/TrackDatabase.cs:959-970 | the version-12 flag bytes read back as written |
| Tracks.LaterRead | trunk/ipod-sharp/TrackDatabase.cs:971-985 | the version-12 fields from offset 168 read back as written, the media code at offset 196 |
| Tracks.MediaTypeRead | trunk/ipod-sharp/TrackDatabase.cs:965-981 | the media type written reads back, a movie staying a movie |
| Tracks.CommonRead | trunk/ipod-sharp/TrackDatabase.cs:913-957 | the first 152 bytes read back as the fields every version has |
| Tracks.NewerRead | trunk/ipod-sharp/TrackDatabase.cs:959-985 | the 80 version-12 bytes read back as the fields they hold |
| Tracks.BodyRoundTrip | trunk/ipod-sharp/TrackDatabase.cs:909-1098 | a track body written and read back gives the same fields |
| Tracks.TrackRoundTrip | trunk/ipod-sharp/TrackDatabase.cs:909-1104 | *corrected*: a track saved and read back is the same track |
| Tracks.OldSaveUnreadable | trunk/ipod-sharp/TrackDatabase.cs:1010-1019 | *as written*: a track saved by the source for a version before 12 cannot be read back |
| Tracks.FrameShort | trunk/ipod-sharp/TrackDatabase.cs:909-913 | a track whose first length leaves less than 152 body bytes fails with an out-of-range error |
| TrackRecords.FindDetail | trunk/ipod-sharp/TrackDatabase.cs:896-900 | the index of the first detail of that type, and -1 exactly when there is none |
| TrackRecords.FreshDetail | trunk/ipod-sharp/TrackDatabase.cs:902-905 | a new detail of the requested type with the empty value |
| TrackRecords.WithDetail | trunk/ipod-sharp/TrackDatabase.cs:896-907 | the details are unchanged when one of that type exists, else they gain a fresh one at the end |
| TrackRecords.WithDetailFinds | trunk/ipod-sharp/TrackDatabase.cs:896-907 | after getting a detail, looking it up again finds it, and getting it again changes nothing |
| TrackRecords.TrackRecord.constructor | trunk/ipod-sharp/TrackDatabase.cs:884-886 | a new record has the default fields and no details |
| TrackRecords.TrackRecord.AddDetail | trunk/ipod-sharp/TrackDatabase.cs:888-890 | appends the detail |
| TrackRecords.TrackRecord.RemoveDetail | trunk/ipod-sharp/TrackDatabase.cs:892-894 | removes the detail's first occurrence |
| TrackRecords.TrackRecord.GetDetail | trunk/ipod-sharp/TrackDatabase.cs:896-907 | the details become what `WithDetail` gives and the index returned holds the type asked for |
| TrackRecords.TrackRecord.Save | trunk/ipod-sharp/TrackDatabase.cs:996-1104 | *corrected*: the bytes are the track's encoding, which `TrackRoundTrip` reads back |
| TrackRecords.TrackRecord.Read | trunk/ipod-sharp/TrackDatabase.cs:909-994 | on success the record holds the track read; on failure it is unchanged |
| TrackLists.NextAfterAsWrittenRepeats | trunk/ipod-sharp/TrackDatabase.cs:1217-1219 | *as written*: reading a track whose database id equals the counter leaves the counter where it is, so the next new track repeats that id |
| TrackLists.BumpAsWritten | trunk/ipod-sharp/TrackDatabase.cs:1217-1219 | as written: the counter moves to id + 1 only for an id strictly above it (no contract; partner `NextAfterAsWrittenRepeats`) |
| TrackLists.NextAfterAsWritten | trunk/ipod-sharp/TrackDatabase.cs:1213-1222 | as written: the counter after the read loop has seen the ids in order (no contract; partner `NextAfterAsWrittenRepeats`) |
| TrackLists.Bump | trunk/ipod-sharp/TrackDatabase.cs:1217-1219 | corrected: an id equal to the counter moves it on as well (no contract; partner `NextAfterMovesPast`) |
| TrackLists.NextAfter | trunk/ipod-sharp/TrackDatabase.cs:1213-1222 | corrected: the counter after the read loop has seen the ids in order (no contract; partners `NextAfterIsFresh`, `NextAfterSnoc`) |
| TrackLists.NextAfterMovesPast | trunk/ipod-sharp/TrackDatabase.cs:1217-1219 | *corrected*: reading a track whose database id equals the counter moves the counter one past it |
| TrackLists.NextAfterIsFresh | trunk/ipod-sharp/TrackDatabase.cs:1203-1223 | *corrected*: short of the largest id, the counter after reading never decreases and is above every database id read |
| TrackLists.NextAfterSnoc | trunk/ipod-sharp/TrackDatabase.cs:1217-1219 | the counter after one more track is the counter bumped past that track |
| TrackLists.FindId | trunk/ipod-sharp/TrackDatabase.cs:1185-1201 | the index of the first track with that id, and -1 exactly when there is none |
| TrackLists.TrackListRoundTrip | trunk/ipod-sharp/TrackDatabase.cs:1203-1244 | a track list saved and read back is the same list |
| TrackLists.ReadTrackList | trunk/ipod-sharp/TrackDatabase.cs:1203-1223 | definition: the header, HeaderOne - 12 padding bytes, then HeaderTwo tracks (no contract; partner `TrackListRoundTrip`) |
| TrackLists.EncodeTrackList | trunk/ipod-sharp/TrackDatabase.cs:1225-1244 | the header's second length is the track count and the tracks follow the padding; partner `TrackListRoundTrip` |
| TrackLists.TracksReadBack | trunk/ipod-sharp/TrackDatabase.cs:1213-1222 | the tracks written one after another read back in order |
| TrackLists.TrackListRecord.constructor | trunk/ipod-sharp/TrackDatabase.cs:1156-1166 | a new list has no tracks and a database id counter of 1 |
| TrackLists.TrackListRecord.Add | trunk/ipod-sharp/TrackDatabase.cs:1177-1179 | appends the track |
| TrackLists.TrackListRecord.Remove | trunk/ipod-sharp/TrackDatabase.cs:1168-1175 | removes the first track with that id, if any |
| TrackLists.TrackListRecord.LookupTrack | trunk/ipod-sharp/TrackDatabase.cs:1185-1192 | the first track with that id, and null exactly when there is none |
| TrackLists.TrackListRecord.IndexOf | trunk/ipod-sharp/TrackDatabase.cs:1194-1201 | returns `FindId` of the track ids |
| TrackLists.TrackListRecord.Save | trunk/ipod-sharp/TrackDatabase.cs:1225-1244 | the bytes are the list's encoding, which `TrackListRoundTrip` reads back |
| TrackLists.TrackListRecord.Read | trunk/ipod-sharp/TrackDatabase.cs:1203-1223 | *corrected*: succeeds exactly when the list reader does, and then holds the tracks read with the counter moved past their database ids |
| Databases.DataSetFraming | trunk/ipod-sharp/TrackDatabase.cs:1331-1336 | a data set's first length is its header size, its second its total size, its index at offset 12 |
| Databases.ReadDataSetList | trunk/ipod-sharp/TrackDatabase.cs:1284-1304 | a data set read carries the index read, and an unknown index fails |
| Databases.DataSetRoundTrip | trunk/ipod-sharp/TrackDatabase.cs:1284-1337 | a data set saved and read back is the same data set |
| Databases.ReadDataSet | trunk/ipod-sharp/TrackDatabase.cs:1284-1304 | definition: the header, HeaderOne - 12 body bytes whose first int is the index, then the list that index calls for (no contract; partners `DataSetRoundTrip`, `UnknownIndexFails`) |
| Databases.EncodeDataSet | trunk/ipod-sharp/TrackDatabase.cs:1306-1337 | definition: the list saved first, then the header with both lengths (no contract; partners `DataSetFraming`, `DataSetRoundTrip`) |
| Databases.ListRoundTrip | trunk/ipod-sharp/TrackDatabase.cs:1290-1302 | the list inside a data set reads back as written |
| Databases.TrackSetRoundTrip | trunk/ipod-sharp/TrackDatabase.cs:1292-1294 | the library data set reads back as its track list |
| Databases.PlaylistSetRoundTrip | trunk/ipod-sharp/TrackDatabase.cs:1296-1300 | the playlist and duplicate data sets read back as their playlist list |
| Databases.UnknownIndexFails | trunk/ipod-sharp/TrackDatabase.cs:1301-1302 | a data set with an index other than 1, 2 and 3 fails with that index |
| Databases.ShareDuplicate | trunk/ipod-sharp/TrackDatabase.cs:1399-1401 | afterwards the duplicate set shares the playlist set's list; it fails exactly when there is a duplicate set but no playlist set; it leaves shared data sets unchanged |
| Databases.NewDataSets | trunk/ipod-sharp/TrackDatabase.cs:1364-1375 | a new database has the library, playlist and duplicate sets, shared, with no tracks and the library playlist alone |
| Databases.DatabaseBodyFields | trunk/ipod-sharp/TrackDatabase.cs:1443-1447 | the unknown field, version, data set count, id and second unknown field are at their offsets |
| Databases.ReadDatabase | trunk/ipod-sharp/TrackDatabase.cs:1377-1402 | a database read has a version the library supports and shared data sets |
| Databases.ReadDatabaseFields | trunk/ipod-sharp/TrackDatabase.cs:1377-1402 | a newer version fails; otherwise the data sets are read, the duplicate set is shared, and the fields are the ones written |
| Databases.NewerVersionRefused | trunk/ipod-sharp/TrackDatabase.cs:1388-1389 | a version above the supported one fails with that version |
| Databases.DatabaseRoundTrip | trunk/ipod-sharp/TrackDatabase.cs:1377-1450 | *corrected*: a database saved and read back is the same database (playlist entries saved as `ItemBytes`, strings read in the database's encoding, and the other corrections in "## Findings") |
| Databases.EncodeDatabase | trunk/ipod-sharp/TrackDatabase.cs:1423-1450 | definition: every data set, then the header with both lengths (no contract; partner `DatabaseRoundTrip`) |
| Databases.DataSetsReadBack | trunk/ipod-sharp/TrackDatabase.cs:1393-1397 | the data sets written one after another read back in order |
| Reassignment.IdMap | trunk/ipod-sharp/TrackDatabase.cs:1405-1411 | the map has an entry exactly for each old track id |
| Reassignment.IdMapLast | trunk/ipod-sharp/TrackDatabase.cs:1405-1411 | an old id maps to 1000 plus the position of its last occurrence |
| Reassignment.IdMapOfDistinct | trunk/ipod-sharp/TrackDatabase.cs:1405-1411 | with distinct ids, the k-th track's id maps to 1000 plus k |
| Reassignment.Renumbered | trunk/ipod-sharp/TrackDatabase.cs:1407-1411 | tracks keep their order and everything but the id, which becomes 1000 plus the position |
| Reassignment.RenumberedDistinct | trunk/ipod-sharp/TrackDatabase.cs:1407-1411 | renumbered ids are distinct |
| Reassignment.RemapItem | trunk/ipod-sharp/TrackDatabase.cs:1414-1419 | an item's track id is replaced by its new id and the rest is kept |
| Reassignment.RemapItems | trunk/ipod-sharp/TrackDatabase.cs:1414-1419 | every item is remapped, in order |
| Reassignment.RemapPlaylists | trunk/ipod-sharp/TrackDatabase.cs:1413-1420 | every playlist's items are remapped, in order |
| Reassignment.ReassignedIds | trunk/ipod-sharp/TrackDatabase.cs:1404-1421 | remapping changes only an item's track id, and an item of a library track then refers to that track's new id |
| Reassignment.ReferencesKept | trunk/ipod-sharp/TrackDatabase.cs:1404-1421 | with distinct ids, an entry that referred to the k-th track still refers to the k-th track after renumbering |
| Reassignment.FirstOf | trunk/ipod-sharp/TrackDatabase.cs:1353-1362 | the first data set with the index, or -1 |
| Reassignment.ReassignedSets | trunk/ipod-sharp/TrackDatabase.cs:1404-1421 | reassignment keeps the number and indices of the data sets |
| Reassignment.ReassignedSetsAre | trunk/ipod-sharp/TrackDatabase.cs:1404-1421 | without a library nothing changes; otherwise the library is renumbered, the playlist and duplicate sets are remapped when a playlist set exists, and other sets are kept |
| Reassignment.ReassignedShared | trunk/ipod-sharp/TrackDatabase.cs:1399-1401 | reassignment keeps the duplicate set sharing the playlist list |
| Reassignment.PrepareOneTwice | trunk/ipod-sharp/TrackDatabase.cs:442-463 | preparing a playlist twice is the same as once |
| Reassignment.PreparedSetTwice | trunk/ipod-sharp/TrackDatabase.cs:1306-1322 | preparing a data set twice is the same as once |
| Reassignment.PreparedSetIsPrepareAll | trunk/ipod-sharp/TrackDatabase.cs:591-600 | preparing a playlist data set prepares each of its playlists |
| DatabaseRecords.RenumberTracks | trunk/ipod-sharp/TrackDatabase.cs:1405-1411 | the tracks become `Renumbered` and the map returned is the old-to-new id map |
| DatabaseRecords.RemapEntries | trunk/ipod-sharp/TrackDatabase.cs:1414-1419 | a playlist's items become remapped by the id map |
| DatabaseRecords.RemapLists | trunk/ipod-sharp/TrackDatabase.cs:1413-1420 | every playlist of the list is remapped |
| DatabaseRecords.SaveEach | trunk/ipod-sharp/TrackDatabase.cs:1430-1432 | the data sets are saved one after another into their concatenated encodings |
| DatabaseRecords.DatabaseRecord.constructor | trunk/ipod-sharp/TrackDatabase.cs:1364-1375 | a new database has version 19, two fixed fields, and the new data sets |
| DatabaseRecords.DatabaseRecord.Lookup | trunk/ipod-sharp/TrackDatabase.cs:1353-1362 | returns the first data set with the index, or -1 |
| DatabaseRecords.DatabaseRecord.Read | trunk/ipod-sharp/TrackDatabase.cs:1377-1402 | succeeds exactly when `ReadDatabase` does, and then holds what it read |
| DatabaseRecords.DatabaseRecord.Share | trunk/ipod-sharp/TrackDatabase.cs:1399-1401 | succeeds exactly when `ShareDuplicate` does, and then the data sets are shared |
| DatabaseRecords.DatabaseRecord.ReassignTrackIds | trunk/ipod-sharp/TrackDatabase.cs:1404-1421 | succeeds exactly when both lists exist; the data sets become `ReassignedSets` |
| DatabaseRecords.DatabaseRecord.Save | trunk/ipod-sharp/TrackDatabase.cs:1423-1450 | when reassignment succeeds, the database becomes the saved one and the bytes are its encoding, which `DatabaseRoundTrip` reads back |
| DatabaseRecords.DatabaseRecord.WriteDatabase | trunk/ipod-sharp/TrackDatabase.cs:1427-1449 | the data sets become prepared and the bytes are the database's encoding |
| DatabaseRecords.DatabaseRecord.SaveDataSets | trunk/ipod-sharp/TrackDatabase.cs:1427-1437 | the data sets become prepared and the bytes are their concatenated encodings |
| PodPaths.ReplaceChar | trunk/ipod-sharp/TrackDatabase.cs:2087-2094 | every occurrence of one character is replaced and nothing else changes |
| PodPaths.RemoveAllAbsent | trunk/ipod-sharp/TrackDatabase.cs:2096-2102 | removing a pattern that does not occur changes nothing |
| PodPaths.GetFilesystemPath | trunk/ipod-sharp/TrackDatabase.cs:2087-2094 | null stays null and empty stays empty; otherwise the path is under the mount point and has no colon |
| PodPaths.GetPodPath | trunk/ipod-sharp/TrackDatabase.cs:2096-2102 | null exactly for null or a path outside the mount point; otherwise a path with no slash |
| PodPaths.GetUniquePodPath | trunk/ipod-sharp/TrackDatabase.cs:2104-2109 | null exactly for a null path |
| PodPaths.FilesystemPathRoundTrip | trunk/ipod-sharp/TrackDatabase.cs:2087-2102 | a file path under the mount point maps to a pod path that maps back to it |
| PodPaths.PodPathRoundTrip | trunk/ipod-sharp/TrackDatabase.cs:2087-2102 | a pod path maps to a file path that maps back to it |
| PodPaths.ConstructedControlDirectory | trunk/ipod-sharp/TrackDatabase.cs:1624-1632 | a constructed device's control directory is iPod_Control, so it is little-endian |
| PodPaths.OnDeviceHasPodPath | trunk/ipod-sharp/TrackDatabase.cs:1893-1895 | a file already on the device has a pod path |
| PodPaths.MusicBasePath | trunk/ipod-sharp/TrackDatabase.cs:1642-1644 | definition: the control path followed by "Music" (no contract) |
| PodPaths.IsTrackOnDevice | trunk/ipod-sharp/TrackDatabase.cs:1893-1895 | definition: the path starts with the music folder followed by "/F" (no contract; partner `OnDeviceHasPodPath`) |
| TrackWrapper.RatingOf | ipod-sharp/Track.cs:10-17 | a rating byte maps to the rating with that code, if there is one |
| TrackWrapper.RatingCode | ipod-sharp/Track.cs:10-17 | definition: the byte stored for each rating, 0, 20, 40, 60, 80, 100 (no contract; partner `RatingRoundTrip`) |
| TrackWrapper.RatingRoundTrip | ipod-sharp/Track.cs:237-240 | a rating set reads back as itself |
| TrackWrapper.HexEscape | ipod-sharp/Track.cs:374-384 | a character becomes "%" and two hex digits of its code |
| TrackWrapper.Quoted | ipod-sharp/Track.cs:364-387 | definition: each character to quote replaced by its escape, every other kept in order (no contract; partners `QuotedAppend`, `QuotedPlain`, `QuotedRoundTrip`) |
| TrackWrapper.QuotedAppend | ipod-sharp/Track.cs:364-387 | quoting distributes over concatenation |
| TrackWrapper.QuotedPlain | ipod-sharp/Track.cs:364-387 | a path without characters to quote is kept as it is |
| TrackWrapper.QuotedRoundTrip | ipod-sharp/Track.cs:364-387 | unquoting a quoted path gives the path |
| TrackWrapper.IndexOfAny | ipod-sharp/Track.cs:375 | the index of the first character in the set, or -1 when none is |
| TrackWrapper.PathToFileUri | ipod-sharp/Track.cs:364-387 | null stays null; otherwise "file://" followed by the quoted path |
| TrackWrapper.ToLower | ipod-sharp/Track.cs:113-116 | ASCII capitals become lower case and nothing else changes |
| TrackWrapper.InvalidFileNameCharsListed | ipod-sharp/Track.cs:285-296 | the listed characters are exactly the invalid file-name characters |
| TrackWrapper.Sanitized | ipod-sharp/Track.cs:285-296 | invalid file-name characters become "_" and nothing else changes |
| TrackWrapper.ReplaceInvalid | ipod-sharp/Track.cs:285-296 | the loop gives `Sanitized` of the name |
| TrackWrapper.Track.constructor | ipod-sharp/Track.cs:265-268 | a new track wraps the record, with no URI and no latest play count |
| TrackWrapper.Track.Id | ipod-sharp/Track.cs:62-64 | definition: the record's permanent database id, not its local id (no contract) |
| TrackWrapper.Track.Size | ipod-sharp/Track.cs:120-122 | definition: the record's size (no contract) |
| TrackWrapper.Track.TrackNumber | ipod-sharp/Track.cs:129-131 | definition: the record's track number (no contract) |
| TrackWrapper.Track.Text | ipod-sharp/Track.cs:154-202 | definition: the value of the first detail of the type, or null when there is none (no contract; partner `SetText`) |
| TrackWrapper.Track.Title | ipod-sharp/Track.cs:154-162 | definition: `Text` of the title detail (no contract) |
| TrackWrapper.Track.Artist | ipod-sharp/Track.cs:164-172 | definition: `Text` of the artist detail (no contract) |
| TrackWrapper.Track.Album | ipod-sharp/Track.cs:174-182 | definition: `Text` of the album detail (no contract) |
| TrackWrapper.Track.FileName | ipod-sharp/Track.cs:71-80 | definition: the local path of the URI held, or of the one made from the location detail (no contract; partner `QuotedRoundTrip`) |
| TrackWrapper.Track.Equals | ipod-sharp/Track.cs:275-282 | definition: a non-null track with the same database id (no contract; partners `EqualsIsEquivalence`, `EqualTracksHashEqually`) |
| TrackWrapper.Track.GetHashCode | ipod-sharp/Track.cs:297-299 | definition: `Int64.GetHashCode` of the database id (no contract; partner `EqualTracksHashEqually`) |
| TrackWrapper.Track.IsCompilation | ipod-sharp/Track.cs:214-215 | definition: the compilation byte is 1 (no contract; partner `SetCompilation`) |
| TrackWrapper.Track.Rating | ipod-sharp/Track.cs:237-238 | definition: the rating byte (no contract; partners `SetRating`, `RatingRoundTrip`) |
| TrackWrapper.Track.IsProtected | ipod-sharp/Track.cs:257-259 | definition: the record's user id is not 0 (no contract) |
| TrackWrapper.Track.ToString | ipod-sharp/Track.cs:270-273 | definition: "(number) artist - album - title", a null text shown as empty (no contract; used by `CorrectedFileName`) |
| TrackWrapper.Track.SetCompilation | ipod-sharp/Track.cs:214-219 | only the compilation byte changes, and `IsCompilation` reads back the value set |
| TrackWrapper.Track.SetRating | ipod-sharp/Track.cs:237-240 | only the rating changes, and it reads back as the rating set |
| TrackWrapper.Track.SetText | ipod-sharp/Track.cs:154-202 | sets the first detail of that type, or appends a new one, and the text reads back as the value set |
| TrackWrapper.Track.CorrectedFileName | ipod-sharp/Track.cs:285-296 | `Sanitized` of `ToString()` ("(number) artist - album - title") followed by ".mp3", containing no invalid file-name character |
| TrackWrapper.Track.SetUri | ipod-sharp/Track.cs:90-117 | null fails; an equal URI changes nothing; a non-file URI fails; otherwise the location detail, size and type are set from the path, MP3 exactly when the path ends in "mp3" |
| TrackWrapper.FindDetailKept | ipod-sharp/Track.cs:154-182 | after a text is set, looking it up again finds the same detail with the new value |
| TrackWrapper.EqualTracksHashEqually | ipod-sharp/Track.cs:275-299 | equal tracks have equal hash codes |
| TrackWrapper.EqualsIsEquivalence | ipod-sharp/Track.cs:275-282 | track equality is reflexive, symmetric and transitive, and no track equals null |
| TrackWrapper.Int64Hash | ipod-sharp/Track.cs:297-299 | definition: the low and high 32 bits of the id exclusive-or'ed, as `Int64.GetHashCode` (no contract) |
| TrackWrapper.Compare | ipod-sharp/Track.cs:33-41 | compares by artist, then album, then track number |
| TrackWrapper.CompareKeys | ipod-sharp/Track.cs:33-41 | definition: the artist comparison when the artists differ, else the album comparison when the albums differ, else the track numbers' (no contract; partner `CompareKeysOrder`) |
| TrackWrapper.CompareKeysOrder | ipod-sharp/Track.cs:33-41 | for a strict string order the comparison is antisymmetric, and it is 0 exactly when all three keys are equal |
| TrackDatabases.IsAscii | trunk/ipod-sharp/TrackDatabase.cs:1566-1580 | true exactly for null or a string whose every character code is between 30 and 127 |
| TrackDatabases.Ascii | trunk/ipod-sharp/TrackDatabase.cs:1566-1580 | definition: null, or every character code from 30 to 127 (no contract; `IsAscii` is proved against it) |
| TrackDatabases.IndexOfTrack | trunk/ipod-sharp/TrackDatabase.cs:2139-2145 | the index of the first track with the same database id, which is what track equality compares |
| TrackDatabases.QueuedThenRemoved | trunk/ipod-sharp/TrackDatabase.cs:2130-2145 | a track queued for adding and then removed leaves the queue as it was |
| TrackDatabases.MergedFrom | trunk/ipod-sharp/TrackDatabase.cs:1775-1794 | where the merge stops: at the end, at the first entry without a track, or at the first entry too short to read |
| TrackDatabases.MergedFromFits | trunk/ipod-sharp/TrackDatabase.cs:1775-1794 | every entry merged has a track and is long enough to read |
| TrackDatabases.Merged | trunk/ipod-sharp/TrackDatabase.cs:1779-1793 | the play count grows by the entry's count with 32-bit wrap-around; the last-played time is taken when positive; the rating is taken from entries of 16 bytes or more; each step happens only when the entry is long enough for its read, so a short entry leaves the steps before the failing read done; nothing else changes |
| TrackDatabases.Latest | trunk/ipod-sharp/TrackDatabase.cs:1779 | definition: the entry's count once four bytes of it can be read, else the old latest count (no contract) |
| TrackDatabases.Add32 | trunk/ipod-sharp/TrackDatabase.cs:1780 | definition: `+` on ints with 32-bit wrap-around (no contract; partner `PlayCountsAdd`) |
| TrackDatabases.PlayCountsAdd | trunk/ipod-sharp/TrackDatabase.cs:1780 | without overflow the new play count is the plain sum |
| TrackDatabases.MergeEntry | trunk/ipod-sharp/TrackDatabase.cs:1777-1793 | it succeeds exactly when the whole entry can be read; the track's latest play count becomes the entry's when four bytes can be read, and its fields become `Merged` |
| TrackDatabases.MergedPrefix | trunk/ipod-sharp/TrackDatabase.cs:1775-1794 | the track fields once each entry before a bound is merged into the track at its index, as `Merged` says; the others stay as they were |
| TrackDatabases.LatestPrefix | trunk/ipod-sharp/TrackDatabase.cs:1775-1794 | the latest play counts once each entry before a bound is merged, as `Latest` says; the others stay as they were |
| TrackDatabases.PrefixStep | trunk/ipod-sharp/TrackDatabase.cs:1775-1794 | merging one more entry changes only the track at that entry's index |
| TrackDatabases.MergeAt | trunk/ipod-sharp/TrackDatabase.cs:1776-1793 | one pass of the loop over the whole track list: only the track at index i changes, its fields to `Merged` and its latest count to `Latest` |
| TrackDatabases.LoadedAt | trunk/ipod-sharp/TrackDatabase.cs:1775-1794 | wherever the loop stops (end, no track, short entry), the values it leaves are the ones `PlayCountsLoaded` describes |
| TrackDatabases.ArtistNames | trunk/ipod-sharp/TrackDatabase.cs:1699-1701 | each track's artist, "UNKNOWN" when null |
| TrackDatabases.GroupByStep | trunk/ipod-sharp/TrackDatabase.cs:1699-1707 | one more track joins the end of its artist's group |
| TrackDatabases.GroupByMembers | trunk/ipod-sharp/TrackDatabase.cs:1691-1716 | there is a group exactly for each artist, and it holds that artist's tracks in order |
| TrackDatabases.ArtistName | trunk/ipod-sharp/TrackDatabase.cs:1699-1701 | definition: the track's artist, or "UNKNOWN" when it has none (no contract) |
| TrackDatabases.GroupBy | trunk/ipod-sharp/TrackDatabase.cs:1697-1707 | definition: each track in order goes last in its key's group (no contract; partners `GroupByStep`, `GroupByMembers`) |
| TrackDatabases.AddSizesIsSum | trunk/ipod-sharp/TrackDatabase.cs:1907-1911 | the size total is the sum of the sizes modulo 2^64 |
| TrackDatabases.AddSizes | trunk/ipod-sharp/TrackDatabase.cs:1907-1917 | definition: the sizes added one by one in unsigned 64-bit arithmetic (no contract; partner `AddSizesIsSum`) |
| TrackDatabases.ToCopy | trunk/ipod-sharp/TrackDatabase.cs:1913-1917 | the sizes of files not yet on the device, or null when a file name is null |
| TrackDatabases.SpaceFreed | trunk/ipod-sharp/TrackDatabase.cs:1907-1911 | the loop adds the removed tracks' sizes to the available space |
| TrackDatabases.SpaceRequired | trunk/ipod-sharp/TrackDatabase.cs:1913-1917 | the loop totals the sizes of the files to copy |
| TrackDatabases.Admit | trunk/ipod-sharp/TrackDatabase.cs:1919-1922 | succeeds exactly when the space required is less than the space available |
| TrackDatabases.LibraryEntry | trunk/ipod-sharp/TrackDatabase.cs:2125-2126 | a library playlist item for the track id |
| TrackDatabases.TrackDatabase.constructor | trunk/ipod-sharp/TrackDatabase.cs:1741-1761 | a new database has no tracks, empty queues, the library playlist alone, and database ids from 1 |
| TrackDatabases.TrackDatabase.GetNextTrackId | trunk/ipod-sharp/TrackDatabase.cs:2111-2120 | one past the largest track id, so above every track's id |
| TrackDatabases.TrackDatabase.AddTrack | trunk/ipod-sharp/TrackDatabase.cs:2122-2136 | the track joins the library and the library playlist; a new file is queued for copying, and an existing one leaves the removal queue |
| TrackDatabases.TrackDatabase.QueueAddition | trunk/ipod-sharp/TrackDatabase.cs:2130-2135 | the queue step of `AddTrack` |
| TrackDatabases.TrackDatabase.AddToLibrary | trunk/ipod-sharp/TrackDatabase.cs:2123-2128 | the record joins the track list and gets a library playlist entry |
| TrackDatabases.TrackDatabase.CreateTrack | trunk/ipod-sharp/TrackDatabase.cs:2169-2181 | a new track with the next id, the current date and the next database id; it is added everywhere and the counter moves on |
| TrackDatabases.TrackDatabase.NewRecord | trunk/ipod-sharp/TrackDatabase.cs:2170-2174 | the new record's fields, and the counter moved on |
| TrackDatabases.TrackDatabase.RemoveTrack | trunk/ipod-sharp/TrackDatabase.cs:2138-2153 | a track of the database leaves the tracks, the library and the library playlist; it is dequeued if queued for copying and queued for deletion otherwise; then it fails with `NullArtworkDatabase`, exactly when the track was found, as the source throws on the unassigned artwork database (1609, 1750, 2152); a track not found changes nothing and succeeds |
| TrackDatabases.TrackDatabase.RemoveFound | trunk/ipod-sharp/TrackDatabase.cs:2140-2149 | the removals once the track is found at k: it leaves the tracks, the library and the library playlist by record id, and the queues change as `RemoveTrack` says |
| TrackDatabases.TrackDatabase.DropTrack | trunk/ipod-sharp/TrackDatabase.cs:2138-2140 | removes the track at the index |
| TrackDatabases.TrackDatabase.QueueRemoval | trunk/ipod-sharp/TrackDatabase.cs:2142-2146 | the queue step of `RemoveTrack` |
| TrackDatabases.TrackDatabase.RemoveFromLibrary | trunk/ipod-sharp/TrackDatabase.cs:2148 | removes the first record with the id from the track list |
| TrackDatabases.TrackDatabase.RemoveLibraryEntry | trunk/ipod-sharp/TrackDatabase.cs:2149 | removes the track's first entry from the library playlist |
| TrackDatabases.TrackDatabase.CreatePlaylist | trunk/ipod-sharp/TrackDatabase.cs:2183-2199 | a null name fails; otherwise a playlist with that name and the next id is appended to the list and to the handed-out playlists |
| TrackDatabases.TrackDatabase.NewPlaylist | trunk/ipod-sharp/TrackDatabase.cs:2187-2188 | a new record for a playlist with the name |
| TrackDatabases.TrackDatabase.RemovePlaylist | trunk/ipod-sharp/TrackDatabase.cs:2201-2213 | null fails, the on-the-go playlist fails, and any other playlist is removed from both lists |
| TrackDatabases.TrackDatabase.LoadPlayCounts | trunk/ipod-sharp/TrackDatabase.cs:1763-1796 | `PlayCountsLoaded`: the first `MergedFrom` tracks are merged with their entries (fields and latest count); when it stops at a short entry, that entry's track is merged as far as the entry can be read; the rest are unchanged; it succeeds exactly when every entry was merged |
| TrackDatabases.TrackDatabase.Artists | trunk/ipod-sharp/TrackDatabase.cs:1691-1716 | the cached grouping if there is one, else the tracks grouped by artist, which is then cached |
| TrackDatabases.TrackDatabase.CheckFreeSpace | trunk/ipod-sharp/TrackDatabase.cs:1901-1923 | *corrected*: fails when a queued file name is null, else admits exactly when the files to copy fit in the volume's free space plus the space freed |
| TrackDatabases.TrackDatabase.CheckFreeSpaceAsWritten | trunk/ipod-sharp/TrackDatabase.cs:1901-1923 | *as written*: the free space starts at 0, so with nothing queued for removal every check fails |
| TrackDatabases.TrackDatabase.ReassignTrackIds | trunk/ipod-sharp/TrackDatabase.cs:1404-1421 | the library is renumbered and every playlist remapped by the old-to-new id map |
| TrackDatabases.TrackDatabase.RenumberLibrary | trunk/ipod-sharp/TrackDatabase.cs:1405-1411 | the renumbering step, returning the id map |
| TrackDatabases.TrackDatabase.RemapEntries | trunk/ipod-sharp/TrackDatabase.cs:1413-1420 | the remapping step |

## Left out

- **Getter side effects.** `GetDetail` appends an empty detail when a track has no detail
  of the type asked for (ipod-sharp/Track.cs:154-182, trunk/ipod-sharp/TrackDatabase.cs:896-907).
  - The source's getters for title, artist and album therefore change the record, and so
    do `ToString`, `CorrectedFileName` and `Compare`, which call them.
  - The model's `Text` returns None for a missing detail instead and changes nothing.
  - `TrackRecord.GetDetail` itself is modelled with the append.
- **Null strings.** `FreshDetail` gives an empty value where the source's new detail has a
  null value. `SetText` takes a string and cannot be given null.
- TrackRecords.TrackRecord.Read and PlaylistRecords.PlaylistRecord.Read leave the record
  unchanged on failure. The source has already assigned the fields it read before it fails
  (trunk/ipod-sharp/TrackDatabase.cs:909-985).
- TrackRecords.TrackRecord.RemoveDetail removes the first detail equal in value. The
  source's `List.Remove` compares `DetailRecord` references, so with two equal details it
  can remove a later one, and a copy not in the list removes nothing. Details are values
  here, so their identity is not modelled.
- PlaylistRecords.PlaylistRecord.InsertItem returns false for an index past the end, where
  `List.Insert` throws.
- DatabaseRecords.DatabaseRecord.ReassignTrackIds returns false when the library or
  playlist data set is missing, where the source dereferences null.
- The duplicate data set shares the playlist list by reference in the source. The model
  states this as the `Shared` invariant over values: both sets hold equal playlist lists.
- **Database record aliasing.** `DatabaseRecord` holds its data sets as values. The
  aliasing between the data sets and the records the database hands out is not captured.
  `TrackDatabase` holds the library track list and the playlist list as records of their
  own.
- **The database id counter.** It lives in the track list (`TrackListRecord` and
  `TrackDatabase.library`), not in the database record's values.
- TrackWrapper.ToLower lowers ASCII letters only. The source's `ToLower` follows the
  culture's case rules.
- UTF-8 and UTF-16 are concrete codecs written out here. They stand in for the platform's
  encoders, and unpaired surrogates are not modelled.
- TrackWrapper.PathToFileUri does not model `Path.GetFullPath` or the parse into a `Uri`.
  The Uri getter's caching is left out with it.
- Mac dates are kept as the raw 32-bit values. The conversion to the platform's date type
  is left out.
- `convertName` is not modelled: it depends on the platform's text encodings.
- **RemoveTrack.** The artwork database is never assigned in the source (the assignment
  at TrackDatabase.cs:1750 is commented out), so `artdb.LookupPhotoByTrackId` at line 2152
  throws a null dereference whenever the track is found, after the tracks, queues, library
  and library playlist have been updated. TrackDatabases.TrackDatabase.RemoveTrack models
  that throw as the failure `NullArtworkDatabase`. The loops over the ordinary and on-the-go
  playlists after it (2157-2166) are never reached in the source and are not modelled
  (Playlist.cs is not part of this model).
- **Left out of TrackDatabase.** Events and progress reporting. The file I/O of
  `Reload`, `Save`, `CopyTrack` and `LoadOnTheGo`. `Albums`, and the `Artist` and `Album`
  objects.
- TrackDatabases.TrackDatabase.Artists returns a map from artist name to tracks where the
  source builds `Artist` objects in a sorted list. The cache is never invalidated, as in
  the source.
- `MakeUniquePodTrackPath` picks a random free name. PodPaths.GetUniquePodPath takes that
  name as a parameter.
- PodPaths.GetPodPath requires a non-empty mount point. The source's `Replace` throws on an
  empty one, and a constructed device never has one.
- TrackDatabases.TrackDatabase.LoadPlayCounts is given the play-count entries and their
  length. Opening and reading the file's header is left out.
- TrackDatabases.TrackDatabase.RemovePlaylist requires that the playlist handed in is not
  the library playlist. The library playlist is never handed out.
- TrackDatabases.TrackDatabase.ReassignTrackIds and DatabaseRecords.DatabaseRecord.Save
  require that 1000 plus the track count fits in an `Int32`. With more tracks the source's
  ids would wrap.
- The save methods require that every length written fits in an `Int32`. With more data
  the source's length fields would wrap.
- Cover art (ipod-sharp/Track.cs:301-362) is left out, as are the property setters that
  only store a field.
- TrackWrapper.Compare takes the culture's string comparison as a parameter. Only its being
  a strict order is assumed.
- **Disabled index code.** `CreateIndexRecord` and `TrackSorter` are disabled in the source.
  The library-index detail keeps only its index type, as the source's reader does; the
  index array after it is not read. Saving such a detail is excluded (`Detail.Saveable`):
  the source's `Save` would dereference the unread array.
- PlaylistItems.SaveItemAsWritten takes the size of each detail's buffer as a parameter.
  The platform's memory stream chooses it and makes it at least 256 bytes. The four spare
  bytes that PlaylistItems.ItemAsWrittenMisread asks of the first buffer are therefore
  there whenever the first detail is shorter than 253 bytes, as the 44-byte position
  detail is.
- Details.DecodeStringValueByOrder decodes by the database's byte order, the way the
  library writes. Files from other writers that store a string as UTF-8 in a
  little-endian database, which the source's second-byte test can read, are not modelled.
- **Environment values as parameters.** Free space on the volume, file lengths and the
  current time come in as `volumeAvailable`, `fileLength` and `now`.

## Findings

| source | as written | input that shows it | evidently intended | confidence | as-written member | corrected member |
|---|---|---|---|---|---|---|
| trunk/ipod-sharp/TrackDatabase.cs:946-947 | `Read` takes the artwork count from body offset 114 and the field beside it from 112, but `Save` writes the artwork count at 112 (lines 1065-1066) | body bytes 112..115 = 01 00 02 00 little-endian: the count reads as 2 where 1 was written | each field read from the offset it is written to | not executed | Tracks.ArtworkCountSwapped | Tracks.ExtraRead |
| trunk/ipod-sharp/TrackDatabase.cs:1217-1219 | after reading, the database id counter moves only past ids strictly greater than it | a new database (counter 1) holding one track with database id 1: the counter stays 1, so `CreateTrack` (line 2174) gives the next track id 1 again | the counter ends above every database id read | not executed | TrackLists.NextAfterAsWrittenRepeats | TrackLists.NextAfterIsFresh |
| trunk/ipod-sharp/TrackDatabase.cs:1010-1014 | before version 12 a track's first length is written as 156, but its header and body are 164 bytes | any track saved for version 11: the reader takes 144 body bytes, and reading 152 fails | the first length is 12 plus the body's length | not executed | Tracks.OldSaveUnreadable | Tracks.TrackRoundTrip |
| trunk/ipod-sharp/TrackDatabase.cs:757-778 | a playlist-data detail (type 50) is saved with no second length, since no branch covers type 50 | any playlist-data detail: the reader takes the type code 50 as the second length | the second length written, as for every other type | not executed | Details.PlaylistDataAsWrittenMisread | Details.PlaylistDataBodyRoundTrip |
| trunk/ipod-sharp/TrackDatabase.cs:1905 | `CheckFreeSpace` starts the available space at 0 instead of the volume's free space | nothing queued for removal: every check fails, however much space the volume has | the volume's free space plus the space freed | not executed | TrackDatabases.TrackDatabase.CheckFreeSpaceAsWritten | TrackDatabases.TrackDatabase.CheckFreeSpace |
| trunk/ipod-sharp/TrackDatabase.cs:105-113 | `SaveChild` hands back the stream's whole buffer (`GetBuffer`), zero past the record's end; `PlaylistItemRecord.Save` collects those buffers whole (lines 196-200) but writes only as many bytes as the details' lengths add up to (line 220) | an entry with two details whose first buffer has 256 bytes, for instance a 44-byte position detail first: after it the reader finds zeros where the second detail's tag should be, and the read fails | the details' own bytes written back to back | not executed | PlaylistItems.ItemAsWrittenMisread | PlaylistItems.ItemRoundTrip |
| trunk/ipod-sharp/TrackDatabase.cs:717-721 | a string value is decoded as UTF-16 when its second byte is 0 and as UTF-8 otherwise, while the writer picks the encoding by the database's byte order (lines 766-770) | on a little-endian database, any value starting with a character of U+0100 or above, such as "Ā" (bytes 00 01): it is decoded as UTF-8 and never comes back as itself | a value the library saved is read in the encoding it was saved in | not executed | Details.Utf16ValueMisread | Details.StringValueByOrderRoundTrip |
