# MicroWeb core, modelled in Dafny

MicroWeb is a small web browser for DOS and early Windows. This project models the parts of
it that are deterministic state updates over lists, strings and integers, and proves what
they promise:

- **The HTTP response cache** (`src/Cache.cpp`):
  - `Cache` keeps an ordered entry list. It allocates ids, inserts with de-duplication by id,
    removes with the order of the rest kept (the `memmove`), prunes with restarting scans,
    and looks entries up by URL. It writes the `cache.inf` index and loads it back through
    the `loadEntry` staging slot.
  - `CacheInfo` decides from the response headers whether to cache, and until when. It
    implements a subset of `Cache-Control` (section 5.2 of RFC 7234) and `Expires`
    (section 5.3 of RFC 7234).
  - `CacheWriter` is a commit-or-rollback handle. `Finish` adds the entry; `Abort`, or
    destroying a writer whose file is still open, deletes the blob.
- **The asset pack** (`src/DataPack.cpp`): the bounded `Read` of a data asset, the entry
  lookup and length computation of `LoadAsset`, the image line table, and the font and
  cursor tables.
- **Bookmarks** (`src/Bookmarks.cpp`): loading the `[bookmarks]` section, and the skip-one or
  append-one rewrite behind delete and add.
- **Forms** (`src/Nodes/Form.cpp`): the GET query string built in pre-order from a form's
  controls. It follows the application/x-www-form-urlencoded serialiser of section 5.2 of
  the WHATWG URL Standard only partly: a space becomes `+` and nothing is percent-escaped.
  This part also covers the settings form that writes the configuration.
- **Configuration** (`src/DOS/Platform.cpp`): the defaults of `LoadConfig`, the
  `ConfigHandler` key dispatch, the `SaveConfig` format, and video-mode selection by index.
- **Page layout** (`src/Page.cpp`): the bounded style stack, the bounded widget array, the
  bounded text buffer, and the bottom alignment of a finished line.
- **The frame buffer** (`src/Windows/WinVid.cpp`): the two bitmaps `Init` can build, both
  with a bottom-up line table. The colour one has a byte per pixel. The monochrome one has a
  bit per pixel, with the pitch rounded to 32 bits. `Init` fixes `useColour` to true, so the
  colour bitmap is the one built; here the choice is a constructor parameter.
  `SetPixel` and `InvertPixel` set, clear or flip one bit per pixel, which fits only the
  monochrome bitmap (see Findings).

Modelling conventions:

- `time(NULL)` is a parameter `now`.
- Blob files are a map from id to bytes, and `cache.inf` is a field holding the sequence of
  `(section, name, value)` triples that `ini_parse` would hand to a handler (module `Ini`).
  Bookmarks and the configuration file are modelled the same way.
- The date after `Expires: ` is turned into a time by `sscanf` and `mktime`. Here that
  conversion is an opaque function parameter `dateOf`.
- A NULL pointer is `None` (module `Wrappers`).
- The C string routines are in module `CString`: `atoi`/`atol`, `%d`, `strstr`, and the
  `strnicmp` prefix test.

What the cache code does and does not do, and the model with it:

- `ShouldCache` does not look at the query string of the URL.
- Entries record no time of caching and no use count, and nothing evicts entries to keep
  the cache under a size budget.
- `Prune` removes only entries whose expiry is strictly before `now`. An entry expiring at
  `now` stays.
- Header names are matched case-insensitively (`strnicmp`).
- The `Cache()` constructor never calls `ReadCache`. It prunes an empty list, so the first
  `WriteCache` replaces whatever index was stored.

## Model

| member | source | states |
|---|---|---|
| `HttpCache.Cache.constructor` | src/Cache.cpp:153-156 | the cache starts with no entries; its prune rewrites the stored index as empty, replacing any stored one, because `ReadCache` is never called |
| `HttpCache.Cache.GetFreeId` | src/Cache.cpp:39-55 | the nested search loops return `FreeId` of the entry list |
| `CacheEntries.FreeIdIsSmallestUnused` | src/Cache.cpp:39-55 | the id is the smallest positive id no entry holds; -1 only when every id below INT_MAX is taken |
| `HttpCache.Cache.AddEntry` | src/Cache.cpp:84-99 | the new list and the returned entry are those of `Inserted` |
| `CacheEntries.InsertedAddsAtMostOne` | src/Cache.cpp:84-99 | an id already present returns that entry and leaves the list unchanged; otherwise exactly one entry is appended, under `GetFreeId()` for a negative id |
| `CacheEntries.InsertedKeepsIdsDistinct` | src/Cache.cpp:84-99 | inserting keeps the ids unique, unless a negative id meets a full id space |
| `HttpCache.Cache.RemoveEntry` | src/Cache.cpp:101-118 | the last entry with that id is cut out, the rest keep their order, and its blob is deleted; an absent id changes nothing |
| `CacheEntries.RemovedIsFilter` | src/Cache.cpp:101-114 | with unique ids, removal is the filter on the id: one entry fewer when present, the same list when absent |
| `CacheEntries.RemovedTakesOne` | src/Cache.cpp:104-114 | whatever the ids, removal takes away exactly one occurrence of one entry |
| `HttpCache.Cache.FindExpired` | src/Cache.cpp:198-206 | one scan finds the first entry with expiry before `now`, or reports that there is none |
| `HttpCache.Cache.Prune` | src/Cache.cpp:192-209 | afterwards no entry has expiry before `now` and nothing was added; with unique ids exactly the expired entries and their blobs go, the rest keep their order; the index is rewritten |
| `CacheEntries.UnexpiredMembers` | src/Cache.cpp:200 | an entry survives pruning exactly when it was there and its expiry is not before `now`, so expiry == now survives |
| `CacheEntries.PruneIsIdempotent` | src/Cache.cpp:192-209 | pruning twice at the same time keeps what pruning once kept |
| `CacheEntries.ExpiredIdsAreDropped` | src/Cache.cpp:200-202 | with unique ids, the blobs deleted are exactly those of the entries pruning drops |
| `CacheEntries.UnexpiredWithoutExpired` | src/Cache.cpp:200-204 | cutting out one expired entry does not change what the restarted scans end with |
| `HttpCache.Cache.Get` | src/Cache.cpp:164-183 | prunes first; then returns the first entry in list order whose url matches, unchanged, with its blob, or nothing on a miss |
| `CacheEntries.Lookup` | src/Cache.cpp:167-176 | the first entry in list order whose url matches, or nothing exactly when no entry has that url |
| `HttpCache.Cache.Put` | src/Cache.cpp:185-190 | the writer gets `FreeId` of the unchanged entry list and creates the blob empty; no entry is added |
| `HttpCache.PutTwice` | src/Cache.cpp:185-190 | two `Put`s with no `Finish` between them get the same id |
| `HttpCache.Cache.WriteCache` | src/Cache.cpp:69-82 | the index becomes one `[id]` section per entry in list order, with `url`, `expiry` and `content-type` |
| `HttpCache.Cache.CacheLoadHandler` | src/Cache.cpp:120-151 | a new section id flushes the staged entry through `AddEntry` and stages a blank one; the three known keys fill the staged entry; the handler returns 1 |
| `HttpCache.Cache.ReadCache` | src/Cache.cpp:57-67 | every pair goes through the handler and the last staged entry is added |
| `CacheEntries.LoadEntryLines` | src/Cache.cpp:120-151 | one entry's section loads back as exactly that entry |
| `CacheEntries.IndexRoundTrip` | src/Cache.cpp:57-151 | loading the index `WriteCache` wrote rebuilds the same entries in the same order when ids are unique and non-negative |
| `CString.AtoiOfDecimal` | src/Cache.cpp:123-143 | `atoi`/`atol` read back exactly the number `%i`/`%li` printed |
| `HttpCache.CacheWriter.constructor` | src/Cache.cpp:314-319 | opening the writer creates or truncates the blob of its id and adds no entry |
| `HttpCache.CacheWriter.Write` | src/Cache.cpp:321-324 | bytes are appended to the writer's blob |
| `HttpCache.CacheWriter.Abort` | src/Cache.cpp:326-333 | the blob of the writer's id is deleted and the entry list is untouched |
| `HttpCache.CacheWriter.Finish` | src/Cache.cpp:335-343 | prunes, then inserts the writer's entry, then rewrites the index |
| `HttpCache.CacheWriter.Dispose` | src/Cache.cpp:345-349 | destroying a writer whose file is still open aborts it; otherwise nothing changes |
| `HttpCache.AbandonedWrite` | src/Cache.cpp:326-349 | a write that is abandoned leaves no entry and no blob under its id |
| `CachePolicy.CacheInfo.constructor` | src/Cache.cpp:216-217 | a fresh verdict is cacheable, expires at `now + 3600`, and has seen no Cache-control |
| `CachePolicy.AfterHeader` | src/Cache.cpp:276-307 | Cache-control is recorded exactly when a line matches its prefix, ignoring case, and does not match the Expires prefix |
| `CachePolicy.CacheInfo.ParseHeader` | src/Cache.cpp:276-307 | the object's new state is `AfterHeader` of the old one |
| `CachePolicy.AfterCacheControl` | src/Cache.cpp:249-274 | a line no longer than the prefix changes nothing; otherwise cacheable exactly when there is no `no-cache`, `no-store` or `max-age=0`; a forbidden one expires at 0, one without `max-age=` at `now + 3600`, one with a value after `max-age=` at `now` plus that value read by `atol`, and one ending in `max-age=` keeps its expiry |
| `CachePolicy.ProcessCacheControl` | src/Cache.cpp:249-274 | the object's new state is `AfterCacheControl` of the old one |
| `CachePolicy.CacheInfo.ShouldCache` | src/Cache.cpp:309-312 | true exactly when cacheable and expiring more than 300 s after `now` |
| `CachePolicy.CacheControlIsNotExpires` | src/Cache.cpp:211-214 | no line matches both header prefixes |
| `CachePolicy.ExpiresIgnoredAfterCacheControl` | src/Cache.cpp:288-297 | once Cache-control has been seen, every later Expires line changes nothing |
| `CachePolicy.ForbiddingSettles` | src/Cache.cpp:252-297 | a forbidding Cache-control line followed by Expires lines leaves the response uncacheable, expiring at 0 |
| `CachePolicy.PastExpiresClears` | src/Cache.cpp:292-297 | an Expires date in the past, seen before any Cache-control, clears `cacheable` |
| `CachePolicy.CacheControlTakesPrecedence` | src/Cache.cpp:276-307 | Expires then Cache-control gives the same verdict as Cache-control then Expires, for any Cache-control line that has text after `Cache-control: ` and does not end in a bare `max-age=` |
| `CachePolicy.MaxAgeLine` | src/Cache.cpp:249-268 | `Cache-control: max-age=N` holds no forbidding directive, and its value starts right after the prefix |
| `CachePolicy.MaxAgeDecides` | src/Cache.cpp:262-268 | for the line `Cache-control: max-age=N` alone, N > 0 makes the response cacheable until `now + N`, and `ShouldCache` holds exactly when N > 300 |
| `CachePolicy.MaxAgeValueDecides` | src/Cache.cpp:262-268 | a Cache-control line with text after its first `max-age=` and no forbidding directive makes the response cacheable until `now` plus that text read by `atol`, and marks Cache-control as seen |
| `CachePolicy.MaxAgeAmongDirectives` | src/Cache.cpp:262-268 | a Cache-control line whose first `max-age=` is followed by the digits of N and then a non-digit, with any text before and after and no forbidding directive, makes the response cacheable until `now + N` and marks Cache-control as seen |
| `CachePolicy.EmptyCacheControlBlocksExpires` | src/Cache.cpp:288-305 | a line that is only `Cache-control: ` changes neither cacheability nor expiry (the length test of line 251) but still marks Cache-control as seen: after it an Expires line is ignored (expiry `now + 3600`), before it the Expires date is used |
| `CachePolicy.BareMaxAgeKeepsExpiry` | src/Cache.cpp:265-266 | a `max-age=` that ends the line keeps the earlier expiry but still marks the response cacheable |
| `CachePolicy.GetMonth` | src/Cache.cpp:219-228 | the index of the first month name equal to the argument, or -1 exactly when none matches |
| `DataPack.ReadCount` | src/DataPack.cpp:25-32 | 0 when the offset is at or past the end; otherwise the request clipped so that it never passes the end |
| `DataPack.DataPackData.Read` | src/DataPack.cpp:25-32 | returns `ReadCount` and copies exactly `data[offset..offset + n]` into the buffer, nothing else of the buffer changes |
| `DataPack.ReadCountAsWrittenWithoutWrap` | src/DataPack.cpp:27-31 | when `offset + bytes` does not wrap, the code as written computes `ReadCount` |
| `DataPack.ReadCountAsWrittenOverruns` | src/DataPack.cpp:28-29 | with a wrapping `offset + bytes`, the code as written copies past the end |
| `DataPack.FontSizeToIndex` | src/DataPack.cpp:91-104 | 0 maps to 0, 2 to 4 map to 2, everything else maps to 1 |
| `DataPack.Assets.GetFont` | src/DataPack.cpp:106-116 | the monospace table exactly when the Monospace bit is set, otherwise the proportional one, at `FontSizeToIndex`; no other style bit plays a part |
| `DataPack.Assets.GetMouseCursorData` | src/DataPack.cpp:118-130 | Hand, Pointer and TextSelect give the link, pointer and text cursors; any other value gives NULL |
| `DataPack.FirstNamed` | src/DataPack.cpp:164-171 | the first entry whose name equals the key ignoring case, or -1 when none does |
| `DataPack.LoadAsset` | src/DataPack.cpp:160-195 | NULL exactly when no entry matches, an empty table included; otherwise the asset is the bytes from this entry's offset to the next one's, and `*size` is that length |
| `DataPack.ImageLines` | src/DataPack.cpp:149-152 | line `y` starts at `data + y * pitch` for every `0 <= y < height` |
| `Bookmarks.BookmarksLoadContext.Handle` | src/Bookmarks.cpp:51-63 | a pair of section `bookmarks` is appended as the next bookmark, numbered by the count before it; other sections are skipped; returns 1 |
| `Bookmarks.GetBookmarks` | src/Bookmarks.cpp:65-75 | the list is `Loaded` of the file |
| `Bookmarks.SectionPairs` | src/Bookmarks.cpp:55-60 | only pairs of section `bookmarks` are kept |
| `Bookmarks.Loaded` | src/Bookmarks.cpp:57-59 | one bookmark per pair of the section, and every bookmark's index is its position in file order |
| `Bookmarks.WriteBookmarks` | src/Bookmarks.cpp:77-92 | every bookmark in order except position `skip`, compared as a 16-bit `size_t`, then the added pair when both title and url are given |
| `Bookmarks.Without` | src/Bookmarks.cpp:82-86 | one element fewer when `skip` is a position, the same list otherwise |
| `Bookmarks.RewrittenReadsBack` | src/Bookmarks.cpp:77-92 | what is written loads back as the written pairs, renumbered by position |
| `Bookmarks.DeleteBookmark` | src/Bookmarks.cpp:94-98 | the file is rewritten without position `index` |
| `Bookmarks.DeleteRemovesOne` | src/Bookmarks.cpp:94-98 | after a delete, the bookmarks are the old ones without element `index`, in order; unchanged when `index` is out of range |
| `Bookmarks.AddBookmark` | src/Bookmarks.cpp:100-104 | the file is the old bookmarks followed by the new one: the -1 skip, 0xFFFF as a `size_t`, drops none |
| `Bookmarks.AddAppendsOne` | src/Bookmarks.cpp:100-104 | after an add, the bookmarks are the old ones plus the new one last, at index equal to the old count |
| `Form.AppendParameter` | src/Nodes/Form.cpp:22-43 | nothing without a name; otherwise `?` for the first parameter and `&` after, then `name=` and the value if any, and one more parameter counted |
| `Form.Contribution` | src/Nodes/Form.cpp:47-79 | a text field contributes exactly when it has a name and a buffer; a check box exactly when checked with name and value; a select exactly when something is selected (and named); other nodes nothing |
| `Form.AppendOwnParameter` | src/Nodes/Form.cpp:47-79 | the node's own parameter, if any, is appended and counted |
| `Form.BuildAddressParameterList` | src/Nodes/Form.cpp:45-85 | the address gains the encoding of the subtree's parameters in pre-order, and the count grows by their number |
| `Form.EncodedAppend` | src/Nodes/Form.cpp:27-34 | the encoding of two parameter lists is the concatenation of their encodings, the second one continuing the count |
| `Form.BeforeQuery` | src/Nodes/Form.cpp:101-106 | the address is cut at its first `?`; the result holds no `?` and is a prefix of the address |
| `Form.PlusForSpace` | src/Nodes/Form.cpp:110-117 | every space becomes `+`, every other character stays |
| `Form.ReplaceSpaces` | src/Nodes/Form.cpp:110-117 | the loop computes `PlusForSpace` |
| `Form.SubmitFormAddress` | src/Nodes/Form.cpp:92-117 | the action (or the address bar) without its old query, then the form's parameters in pre-order, with spaces made `+` |
| `Form.SubmittedAddressHasNoSpace` | src/Nodes/Form.cpp:101-117 | the submitted address holds no space, and its part before the parameters holds no `?` |
| `Form.EncodedStartsWithQuestionMark` | src/Nodes/Form.cpp:27-34 | a non-empty parameter list is encoded starting with `?`, and no further `?` is added except inside names or values |
| `Form.ApplyControl` | src/Nodes/Form.cpp:139-171 | one control sets `cacheSize` from `cache_size`, `cachePath` from `cache_path`, `enableCache` from `cache_enabled`, `vidMode` from `video_mode` |
| `Form.ProcessSettingsForm` | src/Nodes/Form.cpp:137-177 | every control of the tree is applied in pre-order |
| `Form.OtherControlsChangeNothing` | src/Nodes/Form.cpp:139-171 | controls with other names leave the configuration alone |
| `Form.LastCacheSizeWins` | src/Nodes/Form.cpp:137-177 | the cache size comes from the last `cache_size` field |
| `Platform.PlatformConfig.LoadConfig` | src/DOS/Platform.cpp:190-198 | the defaults `vidMode = -1`, caching off, size 0, path `cache`, then every pair of the file through the handler |
| `Platform.Defaults` | src/DOS/Platform.cpp:192-195 | the defaults set before parsing |
| `Platform.Handled` | src/DOS/Platform.cpp:169-188 | only video/mode, cache/enabled, cache/size and cache/path act; `enabled` is on exactly for `true` |
| `Platform.PlatformConfig.ConfigHandler` | src/DOS/Platform.cpp:169-188 | the object's new state is `Handled` of the old one; returns 1 |
| `Platform.UnknownKeysIgnored` | src/DOS/Platform.cpp:169-188 | pairs other than the four keys change nothing |
| `Platform.PlatformConfig.SaveConfig` | src/DOS/Platform.cpp:314-325 | the four keys with `%d` numbers and `true`/`false` |
| `Platform.SavedConfigReadsBack` | src/DOS/Platform.cpp:314-325 | the saved file, loaded through the handler, reproduces all four settings from any starting state |
| `Platform.Terminator` | src/DOS/Platform.cpp:222-225 | the position of the first entry without a name, or -1 |
| `Platform.SelectVideoMode` | src/DOS/Platform.cpp:214-232 | no configured mode means the picker; otherwise mode `i == vidMode` only when it lies before the terminator, else none (`Init` fails) |
| `PageLayout.Page.constructor` | src/Page.cpp:7-22 | one regular style, no widgets, cursor at the top left |
| `PageLayout.Page.GetStyleStackTop` | src/Page.cpp:24-27 | the last style of the stack |
| `PageLayout.Page.PushStyle` | src/Page.cpp:29-37 | pushes and finishes the current widget only when the stack has room |
| `PageLayout.Page.PopStyle` | src/Page.cpp:39-46 | pops unless one style is left, then finishes the current widget |
| `PageLayout.StyleStackStaysInRange` | src/Page.cpp:24-46 | the stack size stays between 1 and its capacity, so the top is always in range; a full stack ignores a push |
| `PageLayout.PopUndoesPush` | src/Page.cpp:29-46 | a pop undoes a push that had room |
| `PageLayout.Page.CreateWidget` | src/Page.cpp:48-93 | finishes the current widget, then starts one as `Created` says |
| `PageLayout.Page.PlaceCursor` | src/Page.cpp:63-73 | the cursor moves past a space when one is asked for on a non-empty line, and down by the pending padding, which becomes 0 |
| `PageLayout.Page.AppendWidget` | src/Page.cpp:57-84 | the widget is appended at index `numWidgets`, becomes current and opens a line if none is open |
| `PageLayout.CreatedWidget` | src/Page.cpp:48-93 | with room: index `numWidgets`, one more widget, top style, at the cursor after the padding, width 0, padding 0; when full: no current widget and the count stays |
| `PageLayout.Page.FinishCurrentWidget` | src/Page.cpp:95-116 | the widget takes the buffered text, the cursor moves past its width, the buffer empties and no widget is current |
| `PageLayout.FinishedWidgetKeepsInv` | src/Page.cpp:95-116 | finishing keeps every bound and leaves no current widget and an empty buffer |
| `PageLayout.Page.MeasureLine` | src/Page.cpp:124-137 | the first loop computes the line's height and right edge |
| `PageLayout.MaxHeightIsMax` | src/Page.cpp:127-132 | the line height is the greatest widget height of the line, or 0 |
| `PageLayout.MaxRightIsMax` | src/Page.cpp:133-136 | the line width is the furthest right edge of the line, or 0 |
| `PageLayout.Page.AlignLine` | src/Page.cpp:141-148 | every widget of the line moves down by the line height less its own, and centred ones move right by the centring adjustment |
| `PageLayout.Page.MoveBelowLine` | src/Page.cpp:150-151 | the cursor goes below the line and the page ends there |
| `PageLayout.Page.CloseLine` | src/Page.cpp:124-170 | measures, aligns and closes the open line |
| `PageLayout.Page.FinishCurrentLine` | src/Page.cpp:118-174 | the new state is `FinishedLine` of the old one |
| `PageLayout.FinishedLineAligns` | src/Page.cpp:118-174 | each widget of the line gets `y += lineHeight - height` with `lineHeight` the tallest in the line; earlier widgets stay; `cursorY += lineHeight`, `pageHeight = cursorY`, `cursorX = 0` |
| `PageLayout.SameRowSameBottom` | src/Page.cpp:141-148 | widgets of a line that started level end with their bottoms level |
| `PageLayout.Page.BreakLine` | src/Page.cpp:306-314 | finishes the line and keeps the larger of the pending and the given padding |
| `PageLayout.BrokenLinePadding` | src/Page.cpp:306-314 | the padding becomes `max(old, padding)`, and the line is closed |
| `PageLayout.Buffered` | src/Page.cpp:209-215 | the guarded appends never take the buffer past its capacity |
| `PageLayout.Page.BufferText` | src/Page.cpp:275-281 | a guarded copy loop leaves the buffer as `Buffered` says |
| `PageLayout.BufferedIsTruncation` | src/Page.cpp:228-234 | the buffer keeps its contents and takes as much of the new text as fits |
| `WinVid.Pitch` | src/Windows/WinVid.cpp:134-138 | `(w + 7) / 8` rounded up to the next multiple of 4, and enough bytes for the row |
| `WinVid.LineTable` | src/Windows/WinVid.cpp:140-144 | line `y` starts at buffer row `height - 1 - y` |
| `WinVid.PixelIndex` | src/Windows/WinVid.cpp:176-179 | the byte `(h - y - 1) * (w / 8) + x / 8` of an on-screen pixel lies inside the bitmap |
| `WinVid.MaskIsShift` | src/Windows/WinVid.cpp:177 | the mask is `0x80 >> (x & 7)` |
| `WinVid.MasksDisjoint` | src/Windows/WinVid.cpp:177 | masks of different columns within a byte share no bit |
| `WinVid.WithPixelChangesOneBit` | src/Windows/WinVid.cpp:172-189 | off screen nothing changes; on screen only that byte changes, only that bit of it, set for a nonzero colour and cleared for zero |
| `WinVid.OtherPixelsUnchanged` | src/Windows/WinVid.cpp:172-189 | with a byte-aligned width, setting one pixel never changes another |
| `WinVid.InvertTwiceRestores` | src/Windows/WinVid.cpp:202-212 | inverting flips exactly the pixel, and inverting twice is the identity |
| `WinVid.StrideIsPitchAtScreenWidth` | src/Windows/WinVid.cpp:27-28 | at 640 pixels the row stride `w / 8` equals the pitch, and the white fill covers the whole bitmap |
| `WinVid.NarrowStrideCollides` | src/Windows/WinVid.cpp:176-179 | at a width that is not a whole number of bytes, two pixels share a bit |
| `WinVid.FillFits` | src/Windows/WinVid.cpp:147-150 | the white fill stays inside the bitmap |
| `WinVid.WindowsVideoDriver.constructor` | src/Windows/WinVid.cpp:73-158 | colour: `w * h` bytes, all 0xf, rows `w` bytes apart bottom-up; monochrome: `Pitch(w) * h` bytes, rows `Pitch(w)` apart bottom-up, the first `w * h / 8` bytes white |
| `WinVid.WindowsVideoDriver.SetPixel` | src/Windows/WinVid.cpp:172-189 | monochrome: the buffer becomes `WithPixel` of the old one; colour: the corrected write, the pixel's own byte becomes the colour's low byte (see Findings) |
| `WinVid.WindowsVideoDriver.InvertPixel` | src/Windows/WinVid.cpp:202-212 | monochrome: the buffer becomes `WithInverted` of the old one; colour: the corrected flip, the pixel's own byte exclusive-or the colour (see Findings) |
| `WinVid.ColourIndex` | src/Windows/WinVid.cpp:108-113 | an on-screen pixel's byte in the colour bitmap lies inside it |
| `WinVid.ColourPixelOwnsByte` | src/Windows/WinVid.cpp:190-199 | in the colour bitmap a write gives the pixel the colour's low byte and leaves every other pixel as it was |
| `WinVid.ColourInvertTwiceRestores` | src/Windows/WinVid.cpp:214-221 | in the colour bitmap, inverting twice with the same colour is the identity |
| `WinVid.MonochromeWriteInColourBitmap` | src/Windows/WinVid.cpp:172-212 | the as-written 1-bit arithmetic on the 640 by 480 colour bitmap: setting (8, 0) changes only the byte of pixel (561, 420), and neither set nor invert touches the byte of (8, 0) |

## Findings

| source | as written | input that shows it | evidently intended | confidence | as-written member | corrected member |
|---|---|---|---|---|---|---|
| src/DataPack.cpp:28-29 | `end = offset + bytes` is a `size_t`. On the 16-bit DOS target it wraps at 2^16, so an overlong request passes the `end > size` test unclipped | offset 1, bytes 0xFFFF, size 10: the count stays 0xFFFF and `memcpy` reads past the data | never copy past `size`: copy `min(bytes, size - offset)` | medium: needs a 16-bit `size_t` and a caller asking for that much; not executed | `DataPack.ReadCountAsWrittenOverruns` | `DataPack.ReadCount` |

| src/Windows/WinVid.cpp:172-212 | `Init` fixes `useColour` to true (line 78) and builds a byte-per-pixel bitmap, but `SetPixel` and `InvertPixel` address it as a bit-per-pixel one: byte `(h - y - 1) * (w / 8) + x / 8`, mask `0x80 >> (x & 7)` | 640 by 480, `SetPixel(8, 0, 1)`: byte 38321, which belongs to pixel (561, 420), gets bit 0x80; byte 306568 of pixel (8, 0) is untouched | write the colour into byte `(h - 1 - y) * w + x`, as the code commented out beside each function does | medium: whether anything calls these two on the Windows build is outside this model; not executed | `WinVid.MonochromeWriteInColourBitmap` | `WinVid.ColourPixelOwnsByte` |

`DataPack.DataPackData.Read` uses the corrected count. With the colour bitmap,
`WinVid.WindowsVideoDriver.SetPixel` and `InvertPixel` use the corrected writes
`WithColourPixel` and `WithColourInverted`; with the monochrome one, the arithmetic as written.

## Left out

- `DataPack.DataPackData.Read` copies the corrected count `ReadCount`, not the 16-bit
  wrap-around of src/DataPack.cpp:28-29; the code as written is `ReadCountAsWritten` (see
  Findings).
- File I/O: `fopen`, `fwrite`, `fclose` and `remove` are updates of the blob map and the index
  field. Failures are not modelled: `fopen` returning NULL in `CacheWriter`, `Get` and
  `WriteCache`, and short writes. Building paths with `snprintf` and `_MAX_PATH` is also
  left out.
- `ini_parse` is a library outside this model. Its text layer (brackets, `=`, trimming,
  comments, the blank line after each section) is left out; a file is the triples it
  delivers.
- `ParseHTTPDateTime`, `mktime` and `strftime`: the date is the opaque `dateOf` parameter.
  `GetMonth` is modelled.
- `Platform::Log` and `Platform::FatalError` are left out.
- `Cache::GetCache()` returns a static singleton. Here each writer holds the cache it
  commits to.
- Integer widths: `int`, `long` and `time_t` are unbounded. `INT_MAX` is the 16-bit 0x7FFF.
  The 16-bit `size_t` is modelled only where it matters: `Read` (see Findings) and the
  bookmark skip index.
- A NULL `url` or `content-type` of a loaded entry (a section without that line) is the
  empty string here. In the source, `CacheLoadHandler` and `ReadCache` hand it to
  `AddEntry`, whose `CacheEntry` constructor calls `strdup(NULL)` (src/Cache.cpp:30, 97).
  Nothing calls `ReadCache`, so that path is not reached.
- `HttpCache.Cache.Prune`: the exact result (the unexpired entries in order, and exactly
  their blobs deleted) is stated only for unique ids. With a repeated id, `RemoveEntry` may
  remove a live namesake first; for that case only "no expired entry left, nothing added" is
  stated.
- `HttpCache.CacheWriter.Finish`: the resulting entry list and blob map are stated only for
  unique ids, for the same reason.
- `HttpCache.CacheWriter.Abort`, `HttpCache.CacheWriter.Write` and
  `HttpCache.CacheWriter.Finish` require the file to be open. Calling them again after it
  is closed would pass NULL to `fclose`/`fwrite` in the source.
- `HttpCache.Cache.ReadCache` leaves the staging slot empty at the end. The source deletes
  the entry but keeps the dangling pointer; nothing calls `ReadCache`.
- `DataPack.LoadAsset` requires, of the matching entry only, that it is not the last one of
  the table and that its offset and the next entry's are in order and inside the pack file.
  Tables that break this for the entry asked for are excluded: out-of-order offsets (a
  negative `length` given to `malloc` and `fread`) and offsets past the end of the file (a
  short `fread`).
  The source reads `entry[1]` past the table in that case. The caller-supplied buffer,
  `fseek`/`fread` (modelled as a slice of the pack file) and allocation failure are left
  out.
- `DataPack::Load`, `LoadPreset` and `LoadDataAsset` only open the pack file and call
  `LoadAsset` for fixed names. `LoadImageAsset` copies an `ImageMetadata` header, which is
  left out; only its line table is modelled, with addresses as integers.
- `Bookmarks.WriteBookmarks` requires a list shorter than 2^16 (the `size_t` count). The
  `[bookmarks]` header line belongs to the ini text layer.
- `ProcessBookmarksForm`, with its static accumulator, is left out. So are the
  `Data::Internal` branch of `SubmitForm`, which `src/Nodes/Form.h` does not declare, and
  `URL::GenerateFromRelative` and `App::OpenURL`. The fixed size of the address buffer
  that `strcat` fills is not modelled.
- `Form.ProcessSettingsForm` requires the settings controls to have names, and the fields
  it reads to have values. The source passes them to `strcmp` and `atoi` without a NULL
  test.
- `strncpy` into the `_MAX_PATH` `cachePath` buffer is modelled as a plain copy; its
  truncation is left out.
- The hardware video detection, the video-mode picker, and the network, input and video
  drivers started by `Platform::Init` are left out. `src/DOS/BIOSVid.cpp` and
  `src/DOS/HPLX.cpp` are not part of this model.
- Page layout:
  - `Page.h` is not part of this model, so the capacities, the window width and the font
    metrics (`GetLineHeight`, the width of a space) are parameters.
  - Of `AppendText`, only the bounded text-buffer copies are modelled. The glyph-width word
    wrapping is left out.
  - Drawing is left out: `DrawString`, the scroll bar, mouse hide/show, `Render` and
    `SetTitle`.
  - The failure of `new char[]` in `FinishCurrentWidget` is not modelled.
- `WindowsVideoDriver::Init`: the `BITMAPINFO` header, the palettes, `colourScheme`,
  `paletteLUT` and the `DrawSurface` objects are left out; only the bitmap, its line table
  and its fill are modelled. GDI painting and the floating-point `verticalScale` are left
  out too.
- `WinVid.WindowsVideoDriver.SetPixel` and `WinVid.WindowsVideoDriver.InvertPixel` do not
  model the as-written 1-bit arithmetic on the colour bitmap, which `Init` always builds.
  They use the corrected byte-per-pixel writes instead (see Findings). The as-written
  behaviour there is stated by `WinVid.MonochromeWriteInColourBitmap`.
