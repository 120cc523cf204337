/** The bookmark list of src/Bookmarks.cpp, kept in `bookmark.ini` as `title = url` pairs
    under `[bookmarks]`. The file is the sequence of pairs `ini_parse` hands to the load
    handler, each with its section; writing it produces the pairs it will hand back. */
module Bookmarks {
  import opened Wrappers
  import opened Ini

  /** `size_t` on the 16-bit DOS target wraps at 2^16. */
  const SIZE_T_MOD: int := 0x10000

  const BookmarksSection: string := "bookmarks"

  datatype Bookmark = Bookmark(index: int, title: string, url: string)

  /** The pairs of the `[bookmarks]` section, in file order. */
  function SectionPairs(file: seq<IniLine>): (r: seq<IniLine>)
    ensures forall i :: 0 <= i < |r| ==> r[i].section == BookmarksSection
    ensures |r| <= |file|
  {
    if file == [] then []
    else SectionPairs(file[..|file| - 1]) + (if file[|file| - 1].section == BookmarksSection then [file[|file| - 1]] else [])
  }

  /** Bookmarks numbered by their position. */
  function Numbered(pairs: seq<IniLine>): (r: seq<Bookmark>)
    ensures |r| == |pairs|
    ensures forall i :: 0 <= i < |r| ==> r[i] == Bookmark(i, pairs[i].name, pairs[i].value)
  {
    seq(|pairs|, i requires 0 <= i < |pairs| => Bookmark(i, pairs[i].name, pairs[i].value))
  }

  /** What `GetBookmarks` reads from a file: the section's pairs in order, each bookmark
      carrying its position as its index. */
  function Loaded(file: seq<IniLine>): (r: seq<Bookmark>)
    ensures |r| == |SectionPairs(file)|
    ensures forall i :: 0 <= i < |r| ==> r[i].index == i
  {
    Numbered(SectionPairs(file))
  }

  /** The `ini_parse` context of `GetBookmarks`: the array it grows, and its count. */
  class BookmarksLoadContext {
    var count: nat
    var bookmarks: seq<Bookmark>

    constructor ()
      ensures count == 0 && bookmarks == []
    {
      count := 0;
      bookmarks := [];
    }

    /** `BookmarksLoadHandler`: a pair of the `bookmarks` section becomes the next bookmark,
        numbered by how many came before it; pairs of other sections are skipped. */
    method Handle(section: string, name: string, value: string) returns (r: int)
      requires count == |bookmarks|
      modifies this
      ensures r == 1 && count == |bookmarks|
      ensures bookmarks == old(bookmarks) + if section == BookmarksSection then [Bookmark(old(count), name, value)] else []
    {
      if section == BookmarksSection {
        count := count + 1;
        bookmarks := bookmarks + [Bookmark(count - 1, name, value)];
      }
      r := 1;
    }
  }

  /** `GetBookmarks`: feed every pair of the file to the handler. */
  method GetBookmarks(file: seq<IniLine>) returns (list: seq<Bookmark>)
    ensures list == Loaded(file)
  {
    var ctx := new BookmarksLoadContext();
    var i := 0;
    while i < |file|
      invariant 0 <= i <= |file|
      invariant ctx.count == |ctx.bookmarks|
      invariant ctx.bookmarks == Loaded(file[..i])
    {
      assert file[..i + 1][..i] == file[..i];
      var _ := ctx.Handle(file[i].section, file[i].name, file[i].value);
      i := i + 1;
    }
    assert file[..i] == file;
    list := ctx.bookmarks;
  }

  /** A bookmark as a line of the file. */
  function Entry(title: string, url: string): IniLine
  {
    IniLine(BookmarksSection, title, url)
  }

  function EntryLines(list: seq<Bookmark>): (r: seq<IniLine>)
    ensures |r| == |list|
    ensures forall i :: 0 <= i < |r| ==> r[i] == Entry(list[i].title, list[i].url)
  {
    seq(|list|, i requires 0 <= i < |list| => Entry(list[i].title, list[i].url))
  }

  /** The list with the element at `skip` taken out; the list itself when there is none. */
  function Without<T>(list: seq<T>, skip: int): (r: seq<T>)
    ensures 0 <= skip < |list| ==> |r| == |list| - 1
    ensures !(0 <= skip < |list|) ==> r == list
  {
    if 0 <= skip < |list| then list[..skip] + list[skip + 1..] else list
  }

  /** What `WriteBookmarks` writes: every bookmark but the one at `skip`, in order, then the
      added one when both its title and its url are given. */
  function Rewritten(list: seq<Bookmark>, skip: int, addTitle: Option<string>, addUrl: Option<string>): seq<IniLine>
  {
    EntryLines(Without(list, skip))
      + if addTitle.Some? && addUrl.Some? then [Entry(addTitle.value, addUrl.value)] else []
  }

  /** `WriteBookmarks`. The `int` skip meets the `size_t` index in `i == skip`, so it is
      compared modulo 2^16: -1 matches no position of a list shorter than 0xFFFF. */
  method WriteBookmarks(list: seq<Bookmark>, skip: int, addTitle: Option<string>, addUrl: Option<string>)
    returns (file: seq<IniLine>)
    requires |list| < SIZE_T_MOD
    ensures file == Rewritten(list, skip % SIZE_T_MOD, addTitle, addUrl)
  {
    var s := skip % SIZE_T_MOD;
    file := [];
    var i := 0;
    while i < |list|
      invariant 0 <= i <= |list|
      invariant file == EntryLines(KeptBefore(list, s, i))
    {
      KeptBeforeStep(list, s, i);
      if i != s {
        EntryLinesAppend(KeptBefore(list, s, i), list[i]);
        file := file + [Entry(list[i].title, list[i].url)];
      }
      i := i + 1;
    }
    KeptBeforeAll(list, s);
    if addTitle.Some? && addUrl.Some? {
      file := file + [Entry(addTitle.value, addUrl.value)];
    }
  }

  /** The part of `Without(list, skip)` that comes from the first `i` elements. */
  function KeptBefore<T>(list: seq<T>, skip: int, i: int): seq<T>
    requires 0 <= skip && 0 <= i <= |list|
  {
    if skip < i then list[..skip] + list[skip + 1..i] else list[..i]
  }

  lemma KeptBeforeStep<T>(list: seq<T>, skip: int, i: int)
    requires 0 <= skip && 0 <= i < |list|
    ensures KeptBefore(list, skip, i + 1) == KeptBefore(list, skip, i) + if i == skip then [] else [list[i]]
  {
    if skip < i {
      assert list[skip + 1..i + 1] == list[skip + 1..i] + [list[i]];
    } else if skip == i {
      assert list[skip + 1..i + 1] == [];
    } else {
      assert list[..i + 1] == list[..i] + [list[i]];
    }
  }

  lemma KeptBeforeAll<T>(list: seq<T>, skip: int)
    requires 0 <= skip
    ensures KeptBefore(list, skip, |list|) == Without(list, skip)
  {
    assert list[..|list|] == list;
  }

  lemma EntryLinesAppend(list: seq<Bookmark>, b: Bookmark)
    ensures EntryLines(list + [b]) == EntryLines(list) + [Entry(b.title, b.url)]
  {
  }

  /** `DeleteBookmark`: read the list and write it back without position `index`. */
  method DeleteBookmark(stored: seq<IniLine>, index: nat) returns (file: seq<IniLine>)
    requires |SectionPairs(stored)| < SIZE_T_MOD && index < SIZE_T_MOD
    ensures file == Rewritten(Loaded(stored), index, None, None)
  {
    var list := GetBookmarks(stored);
    assert index % SIZE_T_MOD == index;
    file := WriteBookmarks(list, index, None, None);
  }

  /** `AddBookmark`: read the list and write it back with one more at the end. */
  method AddBookmark(stored: seq<IniLine>, title: string, url: string) returns (file: seq<IniLine>)
    requires |SectionPairs(stored)| < SIZE_T_MOD
    ensures file == Rewritten(Loaded(stored), -1, Some(title), Some(url))
    ensures file == EntryLines(Loaded(stored)) + [Entry(title, url)]
  {
    var list := GetBookmarks(stored);
    file := WriteBookmarks(list, -1, Some(title), Some(url));
    MinusOneSkipsNothing(list);
  }

  /** A bookmark as the `title = url` pair it is stored as. */
  function Pair(b: Bookmark): (string, string)
  {
    (b.title, b.url)
  }

  function Pairs(list: seq<Bookmark>): (r: seq<(string, string)>)
    ensures |r| == |list|
    ensures forall i :: 0 <= i < |r| ==> r[i] == Pair(list[i])
  {
    seq(|list|, i requires 0 <= i < |list| => Pair(list[i]))
  }

  lemma {:induction false} SectionPairsOfSection(lines: seq<IniLine>)
    requires forall i :: 0 <= i < |lines| ==> lines[i].section == BookmarksSection
    ensures SectionPairs(lines) == lines
  {
    if lines != [] {
      SectionPairsOfSection(lines[..|lines| - 1]);
      assert lines[..|lines| - 1] + [lines[|lines| - 1]] == lines;
    }
  }

  /** What is written is read back as the pairs that were written, renumbered. */
  lemma RewrittenReadsBack(list: seq<Bookmark>, skip: int, addTitle: Option<string>, addUrl: Option<string>)
    ensures var back := Loaded(Rewritten(list, skip, addTitle, addUrl));
      && Pairs(back) == Pairs(Without(list, skip))
           + (if addTitle.Some? && addUrl.Some? then [(addTitle.value, addUrl.value)] else [])
      && forall i :: 0 <= i < |back| ==> back[i].index == i
  {
    var w := Without(list, skip);
    var added := addTitle.Some? && addUrl.Some?;
    var extra := if added then [(addTitle.value, addUrl.value)] else [];
    var kept := EntryLines(w);
    var lines := Rewritten(list, skip, addTitle, addUrl);
    assert lines == kept + if added then [Entry(addTitle.value, addUrl.value)] else [];
    forall i | 0 <= i < |lines| ensures lines[i].section == BookmarksSection {
      if i < |kept| {
        assert lines[i] == kept[i];
      }
    }
    SectionPairsOfSection(lines);
    var back := Numbered(lines);
    assert Loaded(lines) == back;
    var want := Pairs(w) + extra;
    assert |Pairs(back)| == |want|;
    forall i | 0 <= i < |back| ensures Pairs(back)[i] == want[i] {
      if i < |kept| {
        assert lines[i] == kept[i] == Entry(w[i].title, w[i].url);
      }
    }
  }

  lemma PairsWithout(list: seq<Bookmark>, skip: int)
    ensures Pairs(Without(list, skip)) == Without(Pairs(list), skip)
  {
  }

  /** Deleting a bookmark leaves the others in order and takes out exactly the one at
      `index`; an index past the end deletes nothing. */
  lemma DeleteRemovesOne(stored: seq<IniLine>, index: nat)
    ensures var before := Loaded(stored);
      var after := Loaded(Rewritten(before, index, None, None));
      && Pairs(after) == Without(Pairs(before), index)
      && (index < |before| ==> |after| == |before| - 1)
      && (index >= |before| ==> Pairs(after) == Pairs(before))
  {
    var before := Loaded(stored);
    RewrittenReadsBack(before, index, None, None);
    PairsWithout(before, index);
  }

  /** Adding a bookmark keeps the others in order and puts the new one last. */
  lemma AddAppendsOne(stored: seq<IniLine>, title: string, url: string)
    ensures var before := Loaded(stored);
      var after := Loaded(Rewritten(before, -1, Some(title), Some(url)));
      Pairs(after) == Pairs(before) + [(title, url)] && after[|after| - 1].index == |before|
  {
    var before := Loaded(stored);
    RewrittenReadsBack(before, -1, Some(title), Some(url));
  }

  /** The -1 that `AddBookmark` passes becomes 0xFFFF as a `size_t`: it skips nothing as
      long as the list is shorter than that. */
  lemma MinusOneSkipsNothing(list: seq<Bookmark>)
    requires |list| < SIZE_T_MOD
    ensures Without(list, -1 % SIZE_T_MOD) == list
  {
  }
}
