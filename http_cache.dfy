/** The HTTP response cache of src/Cache.cpp as objects: `Cache` owns the ordered entry list
    (`entries` with `cacheEntryCount` as its length), the `loadEntry` staging slot and, as
    the disk it writes, the blob files `<id>.dat` and the index file `cache.inf`;
    `CacheWriter` is the commit-or-rollback handle `Put` returns. `time(NULL)` is the
    parameter `now`. */
module HttpCache {
  import opened Wrappers
  import opened Ini
  import opened CacheEntries

  type Bytes = seq<bv8>

  class Cache {
    /** The entry list, in insertion order. */
    var entries: seq<CacheEntry>
    /** `loadEntry`: the entry `CacheLoadHandler` is filling. */
    var loadEntry: Option<CacheEntry>
    /** The blob files in the cache directory, by id. */
    var blobs: map<int, Bytes>
    /** The pairs of `cache.inf`, as `ini_parse` would hand them over. */
    var index: seq<IniLine>

    /** `Cache()` starts empty and prunes, which rewrites the index: it never calls
        `ReadCache`, so whatever `cache.inf` held before is replaced by an empty index. */
    constructor (disk: map<int, Bytes>, storedIndex: seq<IniLine>, now: int)
      ensures entries == [] && loadEntry == None
      ensures blobs == disk && index == []
      ensures storedIndex != [] ==> index != storedIndex
    {
      entries := [];
      loadEntry := None;
      blobs := disk;
      index := storedIndex;
      new;
      Prune(now);
    }

    /** `GetFreeId`: try 1, 2, ... below INT_MAX and return the first id no entry holds. */
    method GetFreeId() returns (id: int)
      ensures id == FreeId(entries)
    {
      id := 1;
      while id < INT_MAX
        invariant 1 <= id <= INT_MAX
        invariant FreeIdFrom(Ids(entries), id) == FreeId(entries)
        decreases INT_MAX - id
      {
        var found := false;
        var i := 0;
        while i < |entries|
          invariant 0 <= i <= |entries|
          invariant !found
          invariant forall j :: 0 <= j < i ==> entries[j].id != id
        {
          if entries[i].id == id {
            found := true;
            break;
          }
          i := i + 1;
        }
        if !found {
          return;
        }
        id := id + 1;
      }
      id := -1;
    }

    /** `AddEntry`: an entry with this id already present is returned as it is; otherwise a
        new entry (under `GetFreeId()` for a negative id) is appended. */
    method AddEntry(id: int, url: string, expiry: int, contentType: string) returns (e: CacheEntry)
      modifies this`entries
      ensures var r := Inserted(old(entries), id, url, expiry, contentType);
        entries == r.entries && e == r.entry
    {
      var newId := id;
      if id < 0 {
        newId := GetFreeId();
      } else {
        var i := 0;
        while i < |entries|
          invariant 0 <= i <= |entries|
          invariant forall j :: 0 <= j < i ==> entries[j].id != id
        {
          if entries[i].id == id {
            return entries[i];
          }
          i := i + 1;
        }
      }
      e := CacheEntry(newId, url, expiry, contentType);
      entries := entries + [e];
    }

    /** `RemoveEntry`: find the last entry with this id; if there is one, close the gap
        and delete its blob. */
    method RemoveEntry(id: int)
      modifies this`entries, this`blobs
      ensures entries == Removed(old(entries), id)
      ensures blobs == if LastWithId(old(entries), id) < 0 then old(blobs) else old(blobs) - {id}
    {
      var index := -1;
      var i := 0;
      while i < |entries|
        invariant 0 <= i <= |entries|
        invariant index == LastWithId(entries[..i], id)
      {
        assert entries[..i + 1][..i] == entries[..i];
        if entries[i].id == id {
          index := i;
        }
        i := i + 1;
      }
      assert entries[..i] == entries;
      if index < 0 {
        return;
      }
      entries := entries[..index] + entries[index + 1..];
      blobs := blobs - {id};
    }

    /** `WriteCache`: rewrite `cache.inf` from the entry list. */
    method WriteCache()
      modifies this`index
      ensures index == IndexFile(entries)
    {
      var lines: seq<IniLine> := [];
      var i := 0;
      while i < |entries|
        invariant 0 <= i <= |entries|
        invariant lines == IndexFile(entries[..i])
      {
        IndexFileAppend(entries[..i], entries[i]);
        assert entries[..i + 1] == entries[..i] + [entries[i]];
        lines := lines + EntryLines(entries[i]);
        i := i + 1;
      }
      assert entries[..i] == entries;
      index := lines;
    }

    /** `Prune`: restart a scan after every removal until a scan finds no entry that
        expired before `now`, then rewrite the index. An entry expiring at `now` stays.
        With unique ids exactly the expired entries and their blobs go, the rest keeping
        their order; with a repeated id `RemoveEntry` may take a live namesake first, but
        no expired entry is ever left. */
    method Prune(now: int)
      modifies this`entries, this`blobs, this`index
      ensures forall j :: 0 <= j < |entries| ==> entries[j].expiry >= now
      ensures multiset(entries) <= multiset(old(entries))
      ensures DistinctIds(old(entries)) ==>
        entries == Unexpired(old(entries), now) && blobs == old(blobs) - ExpiredIds(old(entries), now)
      ensures index == IndexFile(entries)
    {
      ghost var start := entries;
      var run := true;
      while run
        invariant !run ==> forall j :: 0 <= j < |entries| ==> entries[j].expiry >= now
        invariant multiset(entries) <= multiset(start)
        invariant DistinctIds(start) ==> PruneProgress(start, entries, old(blobs), blobs, now)
        decreases |entries| + (if run then 1 else 0)
      {
        var i := FindExpired(now);
        run := i >= 0;
        if run {
          RemovedTakesOne(entries, entries[i].id);
          if DistinctIds(start) {
            RemoveExpiredStep(start, entries, i, old(blobs), blobs, now);
          }
          RemoveEntry(entries[i].id);
        }
      }
      if DistinctIds(start) {
        PruneDone(start, entries, old(blobs), blobs, now);
      }
      WriteCache();
    }

    /** One scan of `Prune`: the position of the first entry that expired before `now`, or -1. */
    method FindExpired(now: int) returns (i: int)
      ensures -1 <= i < |entries|
      ensures i >= 0 ==> entries[i].expiry < now
      ensures i == -1 ==> forall j :: 0 <= j < |entries| ==> entries[j].expiry >= now
    {
      i := 0;
      while i < |entries|
        invariant 0 <= i <= |entries|
        invariant forall j :: 0 <= j < i ==> entries[j].expiry >= now
      {
        if entries[i].expiry < now {
          return;
        }
        i := i + 1;
      }
      i := -1;
    }

    /** `Get`: prune, then serve the first entry whose url is `url`: its metadata and the
        blob opened for reading (None when the blob file is missing, as `fopen` fails). */
    method Get(url: string, now: int) returns (hit: Option<CacheEntry>, file: Option<Bytes>)
      modifies this`entries, this`blobs, this`index
      ensures forall j :: 0 <= j < |entries| ==> entries[j].expiry >= now
      ensures multiset(entries) <= multiset(old(entries))
      ensures DistinctIds(old(entries)) ==>
        entries == Unexpired(old(entries), now) && blobs == old(blobs) - ExpiredIds(old(entries), now)
      ensures index == IndexFile(entries)
      ensures hit == Lookup(entries, url)
      ensures file == if hit.Some? && hit.value.id in blobs then Some(blobs[hit.value.id]) else None
    {
      Prune(now);
      hit := None;
      var i := 0;
      while i < |entries|
        invariant 0 <= i <= |entries|
        invariant forall j :: 0 <= j < i ==> entries[j].url != url
      {
        if entries[i].url == url {
          hit := Some(entries[i]);
          break;
        }
        i := i + 1;
      }
      if hit.None? {
        return None, None;
      }
      var id := hit.value.id;
      file := if id in blobs then Some(blobs[id]) else None;
    }

    /** `Put`: a writer for a new entry under `GetFreeId()`, whose blob it creates empty.
        Nothing is added to the entry list, so a second `Put` before `Finish` gets the same id. */
    method Put(url: string, expiry: int, contentType: string) returns (w: CacheWriter)
      modifies this`blobs
      ensures fresh(w) && w.cache == this && w.open
      ensures w.entry == CacheEntry(FreeId(entries), url, expiry, contentType)
      ensures entries == old(entries) && index == old(index) && loadEntry == old(loadEntry)
      ensures blobs == old(blobs)[w.entry.id := []]
    {
      var id := GetFreeId();
      var entry := CacheEntry(id, url, expiry, contentType);
      w := new CacheWriter(this, entry);
    }

    /** `CacheLoadHandler`: one pair of the index file, staged as `CacheEntries.LoadLine` says. */
    method CacheLoadHandler(section: string, name: string, value: string) returns (r: int)
      modifies this`entries, this`loadEntry
      ensures r == 1
      ensures LoadState(entries, loadEntry) == LoadLine(old(LoadState(entries, loadEntry)), IniLine(section, name, value))
    {
      var id := CString.Atoi(section);
      var e: CacheEntry;
      if loadEntry.None? {
        e := BlankEntry(id);
      } else if id != loadEntry.value.id {
        var staged := loadEntry.value;
        var _ := AddEntry(staged.id, staged.url, staged.expiry, staged.contentType);
        e := BlankEntry(id);
      } else {
        e := loadEntry.value;
      }
      if name == "url" {
        e := e.(url := value);
      } else if name == "expiry" {
        e := e.(expiry := CString.Atol(value));
      } else if name == "content-type" {
        e := e.(contentType := value);
      }
      loadEntry := Some(e);
      r := 1;
    }

    /** `ReadCache`: feed every pair of `cache.inf` to the handler, then add the entry still
        staged. The source deletes that entry without clearing the pointer; here the slot
        is left empty. */
    method ReadCache()
      modifies this`entries, this`loadEntry
      ensures entries == Loaded(old(entries), index)
      ensures loadEntry == None
    {
      loadEntry := None;
      var i := 0;
      while i < |index|
        invariant 0 <= i <= |index|
        invariant LoadLines(LoadState(entries, loadEntry), index[i..]) == LoadLines(LoadState(old(entries), None), index)
      {
        var line := index[i];
        assert index[i..] == [line] + index[i + 1..];
        var _ := CacheLoadHandler(line.section, line.name, line.value);
        i := i + 1;
      }
      if loadEntry.Some? {
        var staged := loadEntry.value;
        var _ := AddEntry(staged.id, staged.url, staged.expiry, staged.contentType);
      }
      loadEntry := None;
    }
  }

  /** What the scans of `Prune` have achieved so far, for an entry list with unique ids:
      ids stay unique, pruning the current list keeps what pruning the original keeps, and
      exactly the blobs of the expired entries removed so far are gone. */
  ghost predicate PruneProgress(start: seq<CacheEntry>, es: seq<CacheEntry>,
                                blobs0: map<int, Bytes>, blobs: map<int, Bytes>, now: int)
  {
    && DistinctIds(es)
    && Unexpired(es, now) == Unexpired(start, now)
    && ExpiredIds(es, now) <= ExpiredIds(start, now)
    && blobs == blobs0 - (ExpiredIds(start, now) - ExpiredIds(es, now))
  }

  lemma RemoveExpiredStep(start: seq<CacheEntry>, es: seq<CacheEntry>, k: int,
                          blobs0: map<int, Bytes>, blobs: map<int, Bytes>, now: int)
    requires PruneProgress(start, es, blobs0, blobs, now)
    requires 0 <= k < |es| && es[k].expiry < now
    ensures LastWithId(es, es[k].id) == k
    ensures PruneProgress(start, Removed(es, es[k].id), blobs0, blobs - {es[k].id}, now)
  {
    var id := es[k].id;
    LastWithIdOfDistinct(es, k);
    var rest := es[..k] + es[k + 1..];
    assert Removed(es, id) == rest;
    assert DistinctIds(rest) by {
      CutKeepsDistinct(es, k);
    }
    assert Unexpired(rest, now) == Unexpired(start, now) by {
      UnexpiredWithoutExpired(es, k, now);
    }
    assert ExpiredIds(rest, now) == ExpiredIds(es, now) - {id} by {
      CutExpiredIds(es, k, now);
    }
    assert blobs - {id} == blobs0 - (ExpiredIds(start, now) - ExpiredIds(rest, now)) by {
      assert id in ExpiredIds(es, now);
      MapMinusStep(blobs0, ExpiredIds(start, now), ExpiredIds(es, now), id);
    }
  }

  /** Deleting one more of the expired keys from what is left of the blobs. */
  lemma MapMinusStep<K, V>(m0: map<K, V>, all: set<K>, left: set<K>, x: K)
    requires x in left && left <= all
    ensures (m0 - (all - left)) - {x} == m0 - (all - (left - {x}))
  {
    assert all - (left - {x}) == (all - left) + {x};
  }

  lemma PruneDone(start: seq<CacheEntry>, es: seq<CacheEntry>,
                  blobs0: map<int, Bytes>, blobs: map<int, Bytes>, now: int)
    requires PruneProgress(start, es, blobs0, blobs, now)
    requires forall j :: 0 <= j < |es| ==> es[j].expiry >= now
    ensures es == Unexpired(start, now) && blobs == blobs0 - ExpiredIds(start, now)
  {
    UnexpiredOfCurrent(es, now);
    assert ExpiredIds(es, now) == {};
  }

  class CacheWriter {
    /** The cache `Finish` commits to (`Cache::GetCache()`). */
    const cache: Cache
    /** The entry being written, with the id `Put` reserved. */
    const entry: CacheEntry
    /** Whether the blob file `f` is still open. */
    var open: bool

    /** Opens `<id>.dat` for writing, which creates it or truncates it to nothing. */
    constructor (cache: Cache, entry: CacheEntry)
      modifies cache`blobs
      ensures this.cache == cache && this.entry == entry && open
      ensures cache.blobs == old(cache.blobs)[entry.id := []]
      ensures cache.entries == old(cache.entries)
    {
      this.cache := cache;
      this.entry := entry;
      open := true;
      new;
      cache.blobs := cache.blobs[entry.id := []];
    }

    /** `Write`: append to the open blob (to nothing visible once another writer of the same
        id has deleted the file). */
    method Write(data: Bytes)
      requires open
      modifies cache`blobs
      ensures cache.blobs == if entry.id in old(cache.blobs)
        then old(cache.blobs)[entry.id := old(cache.blobs)[entry.id] + data]
        else old(cache.blobs)
    {
      if entry.id in cache.blobs {
        cache.blobs := cache.blobs[entry.id := cache.blobs[entry.id] + data];
      }
    }

    /** `Abort`: close the file and delete the blob; the entry list is not touched. */
    method Abort()
      requires open
      modifies this`open, cache`blobs
      ensures !open
      ensures cache.blobs == old(cache.blobs) - {entry.id}
      ensures cache.entries == old(cache.entries)
    {
      open := false;
      cache.blobs := cache.blobs - {entry.id};
    }

    /** `Finish`: close the file, prune, add the entry, rewrite the index. */
    method Finish(now: int)
      requires open
      modifies this`open, cache`entries, cache`blobs, cache`index
      ensures !open
      ensures DistinctIds(old(cache.entries)) ==>
        && cache.entries == Inserted(Unexpired(old(cache.entries), now), entry.id, entry.url, entry.expiry, entry.contentType).entries
        && cache.blobs == old(cache.blobs) - ExpiredIds(old(cache.entries), now)
      ensures cache.index == IndexFile(cache.entries)
    {
      open := false;
      cache.Prune(now);
      var _ := cache.AddEntry(entry.id, entry.url, entry.expiry, entry.contentType);
      cache.WriteCache();
    }

    /** `~CacheWriter`: a writer destroyed while its file is still open aborts. */
    method Dispose()
      modifies this`open, cache`blobs
      ensures !open
      ensures cache.blobs == if old(open) then old(cache.blobs) - {entry.id} else old(cache.blobs)
      ensures cache.entries == old(cache.entries)
    {
      if open {
        Abort();
      }
    }
  }

  /** A write that is abandoned leaves no entry and no blob behind: the entry list is the same
      as before `Put`, and nothing is stored under the writer's id. */
  method AbandonedWrite(c: Cache, url: string, expiry: int, contentType: string, data: Bytes)
    returns (w: CacheWriter)
    modifies c`blobs
    ensures c.entries == old(c.entries)
    ensures w.entry.id !in c.blobs && !w.open
  {
    w := c.Put(url, expiry, contentType);
    w.Write(data);
    w.Dispose();
  }

  /** Two `Put`s with no `Finish` in between are given the same id. */
  method PutTwice(c: Cache, url: string, expiry: int, contentType: string)
    returns (first: CacheWriter, second: CacheWriter)
    modifies c`blobs
    ensures first.entry.id == second.entry.id
  {
    first := c.Put(url, expiry, contentType);
    second := c.Put(url, expiry, contentType);
  }
}
