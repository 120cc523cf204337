/** The asset pack of src/DataPack.cpp: a file that starts with a table of named entries
    (`DataPackEntry`: a name and the offset where its bytes start, each entry ending where
    the next one begins), from which cursors, icons, fonts and pages are loaded, plus the
    bounded reads of a loaded data asset (`DataPackData`). File reads are a byte sequence,
    the whole pack file; a loaded asset is its bytes, or None for NULL. */
module DataPack {
  import opened Wrappers
  import opened CString

  /** `size_t` on the 16-bit DOS target wraps at 2^16. */
  const SIZE_T_MOD: int := 0x10000

  type Asset = Option<seq<bv8>>

  // ---------------------------------------------------------------- DataPackData::Read

  /** What `Read` should copy: nothing from at or past the end, otherwise as much of the
      request as the data still holds. */
  function ReadCount(offset: nat, bytes: nat, size: nat): (n: nat)
    ensures offset >= size ==> n == 0
    ensures offset < size ==> n <= bytes && offset + n <= size
    ensures offset < size ==> (n == bytes || offset + n == size)
  {
    if offset >= size then 0
    else if offset + bytes > size then size - offset
    else bytes
  }

  /** The count `Read` computes as written: `end = offset + bytes` is a `size_t` and wraps,
      so a request that runs past 2^16 looks like one that fits. */
  function ReadCountAsWritten(offset: nat, bytes: nat, size: nat): nat
    requires offset < SIZE_T_MOD && bytes < SIZE_T_MOD && size < SIZE_T_MOD
  {
    if offset >= size then 0
    else if (offset + bytes) % SIZE_T_MOD > size then size - offset
    else bytes
  }

  /** Without wrap-around the code computes the intended count. */
  lemma ReadCountAsWrittenWithoutWrap(offset: nat, bytes: nat, size: nat)
    requires offset < SIZE_T_MOD && bytes < SIZE_T_MOD && size < SIZE_T_MOD
    requires offset + bytes < SIZE_T_MOD
    ensures ReadCountAsWritten(offset, bytes, size) == ReadCount(offset, bytes, size)
  {
  }

  /** With wrap-around it does not: asking for 0xFFFF bytes at offset 1 of a 10-byte asset
      copies 0xFFFF bytes, far past the end of the data. */
  lemma ReadCountAsWrittenOverruns()
    ensures ReadCountAsWritten(1, 0xFFFF, 10) == 0xFFFF
    ensures 1 + ReadCountAsWritten(1, 0xFFFF, 10) > 10
    ensures ReadCount(1, 0xFFFF, 10) == 9
  {
  }

  /** A data asset (the settings and bookmarks pages) held in memory. */
  class DataPackData {
    const data: array<bv8>
    const size: nat

    predicate Valid()
    {
      size == data.Length
    }

    constructor (data: array<bv8>)
      ensures this.data == data && Valid()
    {
      this.data := data;
      size := data.Length;
    }

    /** `Read`: copy up to `bytes` bytes from `offset` into `buffer`, never past the end of
        the data, and say how many were copied. */
    method Read(offset: nat, buffer: array<bv8>, bytes: nat) returns (n: nat)
      requires Valid() && buffer != data && bytes <= buffer.Length
      modifies buffer
      ensures n == ReadCount(offset, bytes, size)
      ensures offset < size ==> buffer[..n] == data[offset..offset + n]
      ensures buffer[n..] == old(buffer[n..])
    {
      if offset >= size {
        return 0;
      }
      n := bytes;
      if offset + bytes > size {
        n := size - offset;
      }
      var i := 0;
      while i < n
        invariant 0 <= i <= n
        invariant buffer[..i] == data[offset..offset + i]
        invariant buffer[i..] == old(buffer[i..])
      {
        buffer[i] := data[offset + i];
        assert buffer[..i + 1] == buffer[..i] + [data[offset + i]];
        assert data[offset..offset + i + 1] == data[offset..offset + i] + [data[offset + i]];
        i := i + 1;
      }
    }
  }

  // ---------------------------------------------------------------- fonts and cursors

  /** The bits of `FontStyle::Type`: a style is the set of bits that are on, the regular
      style the empty set. */
  datatype FontStyleFlag = Bold | Italic | Underline | Monospace

  /** `FontSizeToIndex`: size 0 is the small font, 2 to 4 the large one, and every other
      size the medium one. */
  function FontSizeToIndex(fontSize: int): (r: int)
    ensures 0 <= r <= 2
    ensures r == 0 <==> fontSize == 0
    ensures r == 2 <==> 2 <= fontSize <= 4
  {
    match fontSize
    case 0 => 0
    case 2 => 2
    case 3 => 2
    case 4 => 2
    case _ => 1
  }

  /** The cursor kinds `GetMouseCursorData` knows about; any other value of
      `MouseCursor::Type` is `OtherCursor`. */
  datatype MouseCursor = Pointer | Hand | TextSelect | OtherCursor(code: int)

  /** The assets `Load` keeps: three cursors and the proportional and monospace font sets. */
  class Assets {
    var pointerCursor: Asset
    var linkCursor: Asset
    var textSelectCursor: Asset
    const fonts: array<Asset>
    const monoFonts: array<Asset>

    predicate Valid()
      reads this
    {
      fonts.Length == 3 && monoFonts.Length == 3
    }

    constructor ()
      ensures Valid() && fresh(fonts) && fresh(monoFonts)
      ensures pointerCursor == None && linkCursor == None && textSelectCursor == None
    {
      fonts := new Asset[3](_ => None);
      monoFonts := new Asset[3](_ => None);
      pointerCursor := None;
      linkCursor := None;
      textSelectCursor := None;
    }

    /** `GetFont`: the monospace table exactly when the Monospace bit is set; the other bits
        play no part. */
    function GetFont(fontSize: int, fontStyle: set<FontStyleFlag>): (f: Asset)
      requires Valid()
      reads this, fonts, monoFonts
      ensures Monospace in fontStyle ==> f == monoFonts[FontSizeToIndex(fontSize)]
      ensures Monospace !in fontStyle ==> f == fonts[FontSizeToIndex(fontSize)]
    {
      if Monospace in fontStyle then monoFonts[FontSizeToIndex(fontSize)] else fonts[FontSizeToIndex(fontSize)]
    }

    /** `GetMouseCursorData`: the link cursor for a hand, the pointer for a pointer, the text
        cursor for text selection, NULL for anything else. */
    function GetMouseCursorData(cursor: MouseCursor): (r: Asset)
      reads this
      ensures cursor.OtherCursor? ==> r == None
      ensures cursor == Hand ==> r == linkCursor
      ensures cursor == Pointer ==> r == pointerCursor
      ensures cursor == TextSelect ==> r == textSelectCursor
    {
      match cursor
      case Hand => linkCursor
      case Pointer => pointerCursor
      case TextSelect => textSelectCursor
      case OtherCursor(_) => None
    }
  }

  // ---------------------------------------------------------------- LoadAsset

  datatype DataPackEntry = DataPackEntry(name: string, offset: int)

  /** The first entry named `name`, ignoring case, or -1. */
  function FirstNamed(entries: seq<DataPackEntry>, name: string): (k: int)
    ensures -1 <= k < |entries|
    ensures k >= 0 ==> EqualIgnoringCase(entries[k].name, name)
    ensures forall j :: 0 <= j < |entries| && (k == -1 || j < k) ==> !EqualIgnoringCase(entries[j].name, name)
  {
    if entries == [] then -1
    else if EqualIgnoringCase(entries[0].name, name) then 0
    else var k := FirstNamed(entries[1..], name); if k < 0 then -1 else k + 1
  }

  /** `LoadAsset`: find the entry by name and read its bytes, which run up to the next
      entry's offset; NULL when no entry has that name, an empty table included. The entry
      after the match is read, so a matching entry must have one after it, and the two
      offsets must delimit bytes of the file. */
  method LoadAsset(file: seq<bv8>, entries: array<DataPackEntry>, entryName: string)
    returns (asset: Asset, size: int)
    requires var k := FirstNamed(entries[..], entryName);
      k >= 0 ==> k + 1 < entries.Length && 0 <= entries[k].offset <= entries[k + 1].offset <= |file|
    ensures var k := FirstNamed(entries[..], entryName);
      && (k < 0 <==> asset.None?)
      && (k >= 0 ==> size == entries[k + 1].offset - entries[k].offset
                     && asset == Some(file[entries[k].offset..entries[k + 1].offset]))
  {
    var found := -1;
    var n := 0;
    while n < entries.Length
      invariant 0 <= n <= entries.Length
      invariant forall j :: 0 <= j < n ==> !EqualIgnoringCase(entries[j].name, entryName)
    {
      if EqualIgnoringCase(entries[n].name, entryName) {
        found := n;
        break;
      }
      n := n + 1;
    }
    assert found == FirstNamed(entries[..], entryName);
    if found < 0 {
      return None, 0;
    }
    var start := entries[found].offset;
    var length := entries[found + 1].offset - entries[found].offset;
    asset := Some(file[start..start + length]);
    size := length;
  }

  // ---------------------------------------------------------------- LoadImageAsset

  /** The line table `LoadImageAsset` builds: line `y` of an image whose pixel data starts at
      `data` begins `y * pitch` bytes in. */
  method ImageLines(data: int, height: nat, pitch: int) returns (lines: array<int>)
    ensures fresh(lines) && lines.Length == height
    ensures forall y :: 0 <= y < height ==> lines[y] == data + y * pitch
  {
    lines := new int[height];
    var y := 0;
    while y < height
      invariant 0 <= y <= height
      invariant forall j :: 0 <= j < y ==> lines[j] == data + j * pitch
    {
      lines[y] := data + y * pitch;
      y := y + 1;
    }
  }
}
