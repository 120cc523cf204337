/** The entry list of the HTTP response cache (src/Cache.cpp) as values: what `GetFreeId`,
    `AddEntry`, `RemoveEntry`, `Prune` and `Get` compute from the ordered entry list, the
    `cache.inf` index that `WriteCache` writes, and what `CacheLoadHandler` and `ReadCache`
    rebuild from it. The class `HttpCache.Cache` is proved against these functions. */
module CacheEntries {
  import opened Wrappers
  import opened CString
  import opened Ini

  /** `INT_MAX` of the 16-bit DOS target; `GetFreeId` tries the ids 1 .. INT_MAX - 1.
      Nothing below depends on the value. */
  const INT_MAX: int := 0x7FFF

  /** One cached resource: the id names its blob `<id>.dat`. */
  datatype CacheEntry = CacheEntry(id: int, url: string, expiry: int, contentType: string)

  /** `CacheEntry()` with its id set, as `CacheLoadHandler` stages it. The source leaves
      `url` and `contentType` NULL; they read as the empty string here. */
  function BlankEntry(id: int): CacheEntry
  {
    CacheEntry(id, "", 0, "")
  }

  function Ids(es: seq<CacheEntry>): set<int>
  {
    set i | 0 <= i < |es| :: es[i].id
  }

  predicate DistinctIds(es: seq<CacheEntry>)
  {
    forall i, j :: 0 <= i < j < |es| ==> es[i].id != es[j].id
  }

  // ---------------------------------------------------------------- id allocation

  /** The first id of `k`, `k + 1`, ... below INT_MAX that `ids` does not hold, or -1. */
  function FreeIdFrom(ids: set<int>, k: int): int
    decreases INT_MAX - k
  {
    if k >= INT_MAX then -1 else if k !in ids then k else FreeIdFrom(ids, k + 1)
  }

  /** The id `GetFreeId` returns for the entry list `es`. */
  function FreeId(es: seq<CacheEntry>): int
  {
    FreeIdFrom(Ids(es), 1)
  }

  lemma {:induction false} FreeIdFromIsLeast(ids: set<int>, k: int)
    requires 1 <= k
    ensures var r := FreeIdFrom(ids, k);
      || (r == -1 && forall j :: k <= j < INT_MAX ==> j in ids)
      || (k <= r < INT_MAX && r !in ids && forall j :: k <= j < r ==> j in ids)
    decreases INT_MAX - k
  {
    if k < INT_MAX && k in ids {
      FreeIdFromIsLeast(ids, k + 1);
    }
  }

  /** `GetFreeId` returns the smallest positive id that no entry holds, and -1 only when
      every id below INT_MAX is taken. */
  lemma FreeIdIsSmallestUnused(es: seq<CacheEntry>)
    ensures var r := FreeId(es);
      || (r == -1 && forall j :: 1 <= j < INT_MAX ==> j in Ids(es))
      || (1 <= r < INT_MAX && r !in Ids(es) && forall j :: 1 <= j < r ==> j in Ids(es))
  {
    FreeIdFromIsLeast(Ids(es), 1);
  }

  // ---------------------------------------------------------------- search by id

  /** The position a front-to-back scan with a `break` stops at: the first element that
      satisfies `p`, or -1. */
  function FirstWhere<T>(s: seq<T>, p: T -> bool): (k: int)
    ensures -1 <= k < |s|
    ensures k >= 0 ==> p(s[k]) && forall j :: 0 <= j < k ==> !p(s[j])
    ensures k == -1 ==> forall j :: 0 <= j < |s| ==> !p(s[j])
  {
    if |s| == 0 then -1
    else if p(s[0]) then 0
    else
      var k := FirstWhere(s[1..], p);
      if k < 0 then -1 else k + 1
  }

  /** The index `AddEntry`'s loop stops at: the first entry with this id, or -1. */
  function FirstWithId(es: seq<CacheEntry>, id: int): (k: int)
    ensures -1 <= k < |es|
    ensures k >= 0 ==> es[k].id == id && forall j :: 0 <= j < k ==> es[j].id != id
    ensures k == -1 ==> forall j :: 0 <= j < |es| ==> es[j].id != id
  {
    FirstWhere(es, (e: CacheEntry) => e.id == id)
  }

  /** The index `RemoveEntry`'s loop ends with: the last entry with this id, or -1. */
  function LastWithId(es: seq<CacheEntry>, id: int): (k: int)
    ensures -1 <= k < |es|
    ensures k >= 0 ==> es[k].id == id && forall j :: k < j < |es| ==> es[j].id != id
    ensures k == -1 ==> forall j :: 0 <= j < |es| ==> es[j].id != id
  {
    if |es| == 0 then -1
    else if es[|es| - 1].id == id then |es| - 1
    else LastWithId(es[..|es| - 1], id)
  }

  // ---------------------------------------------------------------- AddEntry

  datatype Insertion = Insertion(entries: seq<CacheEntry>, entry: CacheEntry)

  /** `AddEntry(id, url, expiry, contentType)`: the new entry list and the entry returned. */
  function Inserted(es: seq<CacheEntry>, id: int, url: string, expiry: int, contentType: string): Insertion
  {
    var k := if id >= 0 then FirstWithId(es, id) else -1;
    if k >= 0 then Insertion(es, es[k])
    else
      var e := CacheEntry(if id < 0 then FreeId(es) else id, url, expiry, contentType);
      Insertion(es + [e], e)
  }

  /** An id already present returns that entry and leaves the list alone; otherwise exactly
      one entry is appended at the end, under the given id or, for a negative one, under
      `GetFreeId()`'s. */
  lemma InsertedAddsAtMostOne(es: seq<CacheEntry>, id: int, url: string, expiry: int, contentType: string)
    ensures var r := Inserted(es, id, url, expiry, contentType);
      if id >= 0 && id in Ids(es) then
        r.entries == es && r.entry in es && r.entry.id == id
      else
        && r.entries == es + [r.entry]
        && r.entry == CacheEntry(if id < 0 then FreeId(es) else id, url, expiry, contentType)
  {
    if id >= 0 && id in Ids(es) {
      var i :| 0 <= i < |es| && es[i].id == id;
      assert FirstWithId(es, id) >= 0;
    }
  }

  /** Inserting keeps ids unique, unless a negative id meets a full id space. */
  lemma InsertedKeepsIdsDistinct(es: seq<CacheEntry>, id: int, url: string, expiry: int, contentType: string)
    requires DistinctIds(es)
    requires id >= 0 || FreeId(es) != -1
    ensures var r := Inserted(es, id, url, expiry, contentType);
      DistinctIds(r.entries) && r.entry.id in Ids(r.entries)
  {
    FreeIdIsSmallestUnused(es);
    var r := Inserted(es, id, url, expiry, contentType);
    if r.entries != es {
      assert r.entries == es + [r.entry];
      assert r.entry.id !in Ids(es);
      assert r.entries[|es|] == r.entry;
    }
  }

  /** With unique ids, the last entry with an entry's id is that entry. */
  lemma LastWithIdOfDistinct(es: seq<CacheEntry>, k: int)
    requires DistinctIds(es) && 0 <= k < |es|
    ensures LastWithId(es, es[k].id) == k
  {
    var last := LastWithId(es, es[k].id);
    assert last >= k;
    assert last <= k;
  }

  // ---------------------------------------------------------------- RemoveEntry

  /** `RemoveEntry(id)`: the last entry with that id is cut out, the rest slide down in
      order (the `memmove`); no such entry leaves the list as it is. */
  function Removed(es: seq<CacheEntry>, id: int): seq<CacheEntry>
  {
    var k := LastWithId(es, id);
    if k < 0 then es else es[..k] + es[k + 1..]
  }

  /** Reference definition: every entry with another id, in order. */
  function WithoutId(es: seq<CacheEntry>, id: int): seq<CacheEntry>
  {
    if es == [] then [] else (if es[0].id == id then [] else [es[0]]) + WithoutId(es[1..], id)
  }

  lemma {:induction false} WithoutIdAppend(a: seq<CacheEntry>, b: seq<CacheEntry>, id: int)
    ensures WithoutId(a + b, id) == WithoutId(a, id) + WithoutId(b, id)
  {
    if a != [] {
      assert (a + b)[0] == a[0];
      assert (a + b)[1..] == a[1..] + b;
      WithoutIdAppend(a[1..], b, id);
      var head := if a[0].id == id then [] else [a[0]];
      calc {
        WithoutId(a + b, id);
        head + WithoutId(a[1..] + b, id);
        head + (WithoutId(a[1..], id) + WithoutId(b, id));
        (head + WithoutId(a[1..], id)) + WithoutId(b, id);
      }
    } else {
      assert a + b == b;
    }
  }

  lemma {:induction false} WithoutAbsentId(es: seq<CacheEntry>, id: int)
    requires forall j :: 0 <= j < |es| ==> es[j].id != id
    ensures WithoutId(es, id) == es
  {
    if es != [] {
      WithoutAbsentId(es[1..], id);
    }
  }

  /** Cutting out the only entry with `id` is filtering on `id`. */
  lemma WithoutOnlyId(es: seq<CacheEntry>, id: int, k: int)
    requires 0 <= k < |es| && es[k].id == id
    requires forall j :: 0 <= j < |es| && j != k ==> es[j].id != id
    ensures WithoutId(es, id) == es[..k] + es[k + 1..]
  {
    var before, after := es[..k], es[k + 1..];
    var tail := [es[k]] + after;
    assert es == before + tail;
    forall j | 0 <= j < |before| ensures before[j].id != id {
      assert before[j] == es[j];
    }
    forall j | 0 <= j < |after| ensures after[j].id != id {
      assert after[j] == es[k + 1 + j];
    }
    WithoutAbsentId(before, id);
    WithoutAbsentId(after, id);
    assert [es[k]][1..] == [];
    assert WithoutId([es[k]], id) == [];
    WithoutIdAppend([es[k]], after, id);
    assert WithoutId(tail, id) == after;
    WithoutIdAppend(before, tail, id);
  }

  /** With unique ids, `RemoveEntry` removes exactly the entry with that id and keeps the
      order of all others; an absent id changes nothing. */
  lemma RemovedIsFilter(es: seq<CacheEntry>, id: int)
    requires DistinctIds(es)
    ensures Removed(es, id) == WithoutId(es, id)
    ensures id in Ids(es) ==> |Removed(es, id)| == |es| - 1
    ensures id !in Ids(es) ==> Removed(es, id) == es
  {
    var k := LastWithId(es, id);
    if k < 0 {
      WithoutAbsentId(es, id);
    } else {
      assert es[k].id in Ids(es);
      forall j | 0 <= j < |es| && j != k
        ensures es[j].id != id
      {
        if j < k {
          assert es[j].id != es[k].id;
        }
      }
      WithoutOnlyId(es, id, k);
    }
  }

  /** Whatever the ids, removal takes away one occurrence of one entry and nothing else. */
  lemma RemovedTakesOne(es: seq<CacheEntry>, id: int)
    ensures var k := LastWithId(es, id);
      k >= 0 ==> multiset(Removed(es, id)) + multiset{es[k]} == multiset(es)
  {
    var k := LastWithId(es, id);
    if k >= 0 {
      MultisetOfCut(es, k);
    }
  }

  lemma MultisetOfCut<T>(s: seq<T>, k: int)
    requires 0 <= k < |s|
    ensures multiset(s[..k] + s[k + 1..]) + multiset{s[k]} == multiset(s)
  {
    assert s == s[..k] + [s[k]] + s[k + 1..];
  }

  // ---------------------------------------------------------------- Prune

  /** What `Prune` keeps: the entries whose expiry is not before `now`, in order. */
  function Unexpired(es: seq<CacheEntry>, now: int): seq<CacheEntry>
  {
    if es == [] then [] else (if es[0].expiry < now then [] else [es[0]]) + Unexpired(es[1..], now)
  }

  /** The ids whose blobs `Prune` deletes. */
  function ExpiredIds(es: seq<CacheEntry>, now: int): set<int>
  {
    set i | 0 <= i < |es| && es[i].expiry < now :: es[i].id
  }

  lemma {:induction false} UnexpiredAppend(a: seq<CacheEntry>, b: seq<CacheEntry>, now: int)
    ensures Unexpired(a + b, now) == Unexpired(a, now) + Unexpired(b, now)
  {
    if a != [] {
      assert (a + b)[0] == a[0];
      assert (a + b)[1..] == a[1..] + b;
      UnexpiredAppend(a[1..], b, now);
      var head := if a[0].expiry < now then [] else [a[0]];
      calc {
        Unexpired(a + b, now);
        head + Unexpired(a[1..] + b, now);
        head + (Unexpired(a[1..], now) + Unexpired(b, now));
        (head + Unexpired(a[1..], now)) + Unexpired(b, now);
      }
    } else {
      assert a + b == b;
    }
  }

  /** An entry survives exactly when it was there and its expiry is not before `now`, so an
      entry expiring at `now` itself is kept. */
  lemma {:induction false} UnexpiredMembers(es: seq<CacheEntry>, now: int, e: CacheEntry)
    ensures e in Unexpired(es, now) <==> e in es && e.expiry >= now
    ensures |Unexpired(es, now)| <= |es|
  {
    if es != [] {
      UnexpiredMembers(es[1..], now, e);
      assert es == [es[0]] + es[1..];
    }
  }

  /** Nothing is left to prune once every entry is current. */
  lemma {:induction false} UnexpiredOfCurrent(es: seq<CacheEntry>, now: int)
    requires forall j :: 0 <= j < |es| ==> es[j].expiry >= now
    ensures Unexpired(es, now) == es
  {
    if es != [] {
      UnexpiredOfCurrent(es[1..], now);
    }
  }

  /** Pruning twice at the same time keeps what pruning once kept. */
  lemma PruneIsIdempotent(es: seq<CacheEntry>, now: int)
    ensures Unexpired(Unexpired(es, now), now) == Unexpired(es, now)
  {
    var u := Unexpired(es, now);
    forall j | 0 <= j < |u|
      ensures u[j].expiry >= now
    {
      UnexpiredMembers(es, now, u[j]);
    }
    UnexpiredOfCurrent(u, now);
  }

  /** Cutting out one expired entry does not change what pruning keeps. */
  lemma UnexpiredWithoutExpired(es: seq<CacheEntry>, k: int, now: int)
    requires 0 <= k < |es| && es[k].expiry < now
    ensures Unexpired(es[..k] + es[k + 1..], now) == Unexpired(es, now)
  {
    var before, after := es[..k], es[k + 1..];
    var tail := [es[k]] + after;
    assert es == before + tail;
    assert Unexpired(tail, now) == Unexpired(after, now) by {
      assert tail[0] == es[k] && tail[1..] == after;
    }
    calc {
      Unexpired(es, now);
    == { UnexpiredAppend(before, tail, now); }
      Unexpired(before, now) + Unexpired(tail, now);
    == { UnexpiredAppend(before, after, now); }
      Unexpired(before + after, now);
    }
  }

  /** Cutting one entry out of a list with unique ids keeps the ids unique. */
  lemma CutKeepsDistinct(es: seq<CacheEntry>, k: int)
    requires DistinctIds(es) && 0 <= k < |es|
    ensures DistinctIds(es[..k] + es[k + 1..])
  {
    var rest := es[..k] + es[k + 1..];
    forall i, j | 0 <= i < j < |rest| ensures rest[i].id != rest[j].id {
      var i' := if i < k then i else i + 1;
      var j' := if j < k then j else j + 1;
      assert rest[i] == es[i'] && rest[j] == es[j'];
    }
  }

  /** Cutting out an expired entry of a list with unique ids takes exactly its id out of
      the expired ids. */
  lemma CutExpiredIds(es: seq<CacheEntry>, k: int, now: int)
    requires DistinctIds(es) && 0 <= k < |es| && es[k].expiry < now
    ensures ExpiredIds(es[..k] + es[k + 1..], now) == ExpiredIds(es, now) - {es[k].id}
  {
    var rest := es[..k] + es[k + 1..];
    forall x | x in ExpiredIds(rest, now) ensures x in ExpiredIds(es, now) && x != es[k].id {
      var i :| 0 <= i < |rest| && rest[i].expiry < now && rest[i].id == x;
      var i' := if i < k then i else i + 1;
      assert rest[i] == es[i'] && i' != k;
    }
    forall x | x in ExpiredIds(es, now) && x != es[k].id ensures x in ExpiredIds(rest, now) {
      var i :| 0 <= i < |es| && es[i].expiry < now && es[i].id == x;
      var i' := if i < k then i else i - 1;
      assert rest[i'] == es[i];
    }
  }

  /** With unique ids, the expired ids are those that pruning drops from the list. */
  lemma {:induction false} ExpiredIdsAreDropped(es: seq<CacheEntry>, now: int)
    requires DistinctIds(es)
    ensures ExpiredIds(es, now) == Ids(es) - Ids(Unexpired(es, now))
  {
    forall x | x in Ids(es)
      ensures x in ExpiredIds(es, now) <==> x !in Ids(Unexpired(es, now))
    {
      var i :| 0 <= i < |es| && es[i].id == x;
      UnexpiredMembers(es, now, es[i]);
      if x in Ids(Unexpired(es, now)) {
        var u := Unexpired(es, now);
        var j :| 0 <= j < |u| && u[j].id == x;
        UnexpiredMembers(es, now, u[j]);
        var i' :| 0 <= i' < |es| && es[i'] == u[j];
        assert i' == i;
      }
    }
  }

  // ---------------------------------------------------------------- Get

  /** The entry `Get` serves for `url` from an already pruned list: the first entry, in list
      order, whose url equals `url`, or None when there is none. */
  function Lookup(es: seq<CacheEntry>, url: string): (r: Option<CacheEntry>)
    ensures r.None? <==> forall j :: 0 <= j < |es| ==> es[j].url != url
    ensures r.Some? ==> exists k :: 0 <= k < |es| && es[k] == r.value && r.value.url == url
                                   && forall j :: 0 <= j < k ==> es[j].url != url
  {
    var k := FirstWhere(es, (e: CacheEntry) => e.url == url);
    if k < 0 then None else Some(es[k])
  }

  // ---------------------------------------------------------------- cache.inf

  /** The three keys `WriteCache` writes for one entry, in its section `[<id>]`. */
  function EntryLines(e: CacheEntry): seq<IniLine>
  {
    var section := IntToDecimal(e.id);
    [ IniLine(section, "url", e.url),
      IniLine(section, "expiry", IntToDecimal(e.expiry)),
      IniLine(section, "content-type", e.contentType) ]
  }

  /** The whole index `WriteCache` writes, one section per entry in list order. */
  function IndexFile(es: seq<CacheEntry>): seq<IniLine>
  {
    if es == [] then [] else EntryLines(es[0]) + IndexFile(es[1..])
  }

  lemma {:induction false} IndexFileAppend(es: seq<CacheEntry>, e: CacheEntry)
    ensures IndexFile(es + [e]) == IndexFile(es) + EntryLines(e)
  {
    if es == [] {
      assert [e][1..] == [];
    } else {
      assert (es + [e])[1..] == es[1..] + [e];
      IndexFileAppend(es[1..], e);
    }
  }

  /** The entries loaded so far and the `loadEntry` staging slot. */
  datatype LoadState = LoadState(entries: seq<CacheEntry>, staging: Option<CacheEntry>)

  /** Hands the staged entry, if any, to `AddEntry`. */
  function Flush(st: LoadState): seq<CacheEntry>
  {
    match st.staging
    case None => st.entries
    case Some(e) => Inserted(st.entries, e.id, e.url, e.expiry, e.contentType).entries
  }

  /** The three keys the loader knows; any other key is ignored. */
  function SetField(e: CacheEntry, name: string, value: string): CacheEntry
  {
    if name == "url" then e.(url := value)
    else if name == "expiry" then e.(expiry := Atol(value))
    else if name == "content-type" then e.(contentType := value)
    else e
  }

  /** `CacheLoadHandler` for one pair: a section with a new id first flushes the staged
      entry and stages a blank one. */
  function LoadLine(st: LoadState, line: IniLine): LoadState
  {
    var id := Atoi(line.section);
    if st.staging.Some? && st.staging.value.id == id then
      LoadState(st.entries, Some(SetField(st.staging.value, line.name, line.value)))
    else
      LoadState(Flush(st), Some(SetField(BlankEntry(id), line.name, line.value)))
  }

  /** `ini_parse` calling the handler for every pair in file order. */
  function LoadLines(st: LoadState, lines: seq<IniLine>): LoadState
    decreases |lines|
  {
    if lines == [] then st else LoadLines(LoadLine(st, lines[0]), lines[1..])
  }

  /** `ReadCache`: clear the slot, parse the index, flush the last staged entry. */
  function Loaded(es: seq<CacheEntry>, lines: seq<IniLine>): seq<CacheEntry>
  {
    Flush(LoadLines(LoadState(es, None), lines))
  }

  lemma {:induction false} LoadLinesAppend(st: LoadState, a: seq<IniLine>, b: seq<IniLine>)
    ensures LoadLines(st, a + b) == LoadLines(LoadLines(st, a), b)
    decreases |a|
  {
    if a != [] {
      assert (a + b)[0] == a[0];
      assert (a + b)[1..] == a[1..] + b;
      LoadLinesAppend(LoadLine(st, a[0]), a[1..], b);
    } else {
      assert a + b == b;
    }
  }

  lemma LoadThreeLines(st: LoadState, a: IniLine, b: IniLine, c: IniLine)
    ensures LoadLines(st, [a, b, c]) == LoadLine(LoadLine(LoadLine(st, a), b), c)
  {
    assert [a, b, c][1..] == [b, c];
    assert [b, c][1..] == [c];
    assert [c][1..] == [];
    var s1 := LoadLine(st, a);
    var s2 := LoadLine(s1, b);
    assert LoadLines(s2, [c]) == LoadLines(LoadLine(s2, c), []);
    assert LoadLines(s1, [b, c]) == LoadLines(s2, [c]);
    assert LoadLines(st, [a, b, c]) == LoadLines(s1, [b, c]);
  }

  /** The loader reads one entry's section back as that entry, after flushing the one staged. */
  lemma LoadEntryLines(st: LoadState, e: CacheEntry)
    requires st.staging.None? || st.staging.value.id != e.id
    ensures LoadLines(st, EntryLines(e)) == LoadState(Flush(st), Some(e))
  {
    var section := IntToDecimal(e.id);
    AtoiOfDecimal(e.id);
    AtoiOfDecimal(e.expiry);
    assert Atoi(section) == e.id;
    assert Atol(IntToDecimal(e.expiry)) == e.expiry;
    var a := IniLine(section, "url", e.url);
    var b := IniLine(section, "expiry", IntToDecimal(e.expiry));
    var c := IniLine(section, "content-type", e.contentType);
    LoadThreeLines(st, a, b, c);
    var f := Flush(st);
    var s1 := LoadLine(st, a);
    assert s1 == LoadState(f, Some(BlankEntry(e.id).(url := e.url)));
    var s2 := LoadLine(s1, b);
    assert s2 == LoadState(f, Some(BlankEntry(e.id).(url := e.url, expiry := e.expiry)));
    var s3 := LoadLine(s2, c);
    assert s3 == LoadState(f, Some(e));
  }

  function StagedAsSeq(o: Option<CacheEntry>): seq<CacheEntry>
  {
    match o
    case None => []
    case Some(e) => [e]
  }

  predicate NonNegativeIds(es: seq<CacheEntry>)
  {
    forall j :: 0 <= j < |es| ==> es[j].id >= 0
  }

  /** Flushing a staged entry with a new, non-negative id appends it. */
  lemma FlushAppendsStaged(acc: seq<CacheEntry>, staged: Option<CacheEntry>)
    requires DistinctIds(acc + StagedAsSeq(staged))
    requires NonNegativeIds(acc + StagedAsSeq(staged))
    ensures Flush(LoadState(acc, staged)) == acc + StagedAsSeq(staged)
  {
    if staged.Some? {
      var e0 := staged.value;
      var all := acc + [e0];
      assert all[|acc|] == e0;
      forall j | 0 <= j < |acc| ensures acc[j].id != e0.id {
        assert all[j] == acc[j];
      }
      assert FirstWithId(acc, e0.id) == -1;
    }
  }

  lemma SplitDistinct(a: seq<CacheEntry>, b: seq<CacheEntry>)
    requires DistinctIds(a + b) && NonNegativeIds(a + b)
    ensures DistinctIds(a) && NonNegativeIds(a)
    ensures forall i, j :: 0 <= i < |a| && 0 <= j < |b| ==> a[i].id != b[j].id
  {
    var ab := a + b;
    forall i, j | 0 <= i < |a| && 0 <= j < |b| ensures a[i].id != b[j].id {
      assert ab[i] == a[i] && ab[|a| + j] == b[j];
    }
    forall i | 0 <= i < |a| ensures ab[i] == a[i] { }
  }

  lemma {:induction false} LoadIndexFrom(acc: seq<CacheEntry>, staged: Option<CacheEntry>, es: seq<CacheEntry>)
    requires DistinctIds(acc + StagedAsSeq(staged) + es)
    requires NonNegativeIds(acc + StagedAsSeq(staged) + es)
    ensures Flush(LoadLines(LoadState(acc, staged), IndexFile(es))) == acc + StagedAsSeq(staged) + es
    decreases |es|
  {
    var flushed := acc + StagedAsSeq(staged);
    var st := LoadState(acc, staged);
    SplitDistinct(flushed, es);
    FlushAppendsStaged(acc, staged);
    if es == [] {
      assert flushed + es == flushed;
    } else {
      var e := es[0];
      assert staged.Some? ==> flushed[|acc|] == staged.value;
      assert es == [e] + es[1..];
      assert flushed + StagedAsSeq(Some(e)) + es[1..] == flushed + es;
      calc {
        Flush(LoadLines(st, IndexFile(es)));
        Flush(LoadLines(st, EntryLines(e) + IndexFile(es[1..])));
        { LoadLinesAppend(st, EntryLines(e), IndexFile(es[1..])); }
        Flush(LoadLines(LoadLines(st, EntryLines(e)), IndexFile(es[1..])));
        { LoadEntryLines(st, e); }
        Flush(LoadLines(LoadState(flushed, Some(e)), IndexFile(es[1..])));
        { LoadIndexFrom(flushed, Some(e), es[1..]); }
        flushed + es;
      }
    }
  }

  /** `ReadCache` on the index `WriteCache` wrote rebuilds the same entries in the same
      order, when the ids are unique and not negative (`AddEntry` would replace a negative
      one and drop a repeated one). */
  lemma IndexRoundTrip(es: seq<CacheEntry>)
    requires DistinctIds(es) && NonNegativeIds(es)
    ensures Loaded([], IndexFile(es)) == es
  {
    assert [] + StagedAsSeq(None) + es == es;
    LoadIndexFrom([], None, es);
  }
}
