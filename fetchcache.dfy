// The on-disk cache of fetched configuration files (pkg/remotefetcher/cache.go).
// The mutex is left out; the file system is represented by the outcomes of the
// calls the cache makes, and sha256 by an uninterpreted function.
module FetchCache {
  import opened Wrappers
  import opened Platform

  /** One cache entry: content hash, local file path, data type and source key. */
  datatype CacheData = CacheData(hash: string, path: string, dataType: string, url: string)

  /** The tuple `unique` compares entries by. */
  function Key(d: CacheData): (string, string, string, string)
  {
    (d.url, d.hash, d.path, d.dataType)
  }

  /** No two entries of `s` share a key. */
  predicate Distinct(s: seq<CacheData>)
  {
    forall i, j :: 0 <= i < j < |s| ==> Key(s[i]) != Key(s[j])
  }

  /** Position of the first entry of `s` equal to `x`. */
  function FirstIndex(s: seq<CacheData>, x: CacheData): (r: nat)
    requires x in s
    ensures r < |s| && s[r] == x
    ensures forall j :: 0 <= j < r ==> s[j] != x
  {
    if s[0] == x then 0 else 1 + FirstIndex(s[1..], x)
  }

  /** The entries of `s` with every repeat of an earlier key dropped. */
  function Dedup(s: seq<CacheData>): (r: seq<CacheData>)
    ensures Distinct(r)
    ensures forall x :: x in r <==> x in s
    ensures |r| <= |s|
  {
    if s == [] then []
    else
      var d := Dedup(s[..|s| - 1]);
      var x := s[|s| - 1];
      assert forall y :: y in s <==> y in s[..|s| - 1] || y == x;
      if x in d then d else d + [x]
  }

  lemma FirstIndexPrefix(s: seq<CacheData>, x: CacheData, n: nat)
    requires n <= |s| && x in s[..n]
    ensures FirstIndex(s, x) == FirstIndex(s[..n], x)
  {
    var i := FirstIndex(s[..n], x);
    var k := FirstIndex(s, x);
    assert s[i] == x;
    assert k <= i;
    assert s[..n][k] == x;
  }

  /** Kept entries appear in the order of their first occurrence in the input. */
  lemma {:induction false} DedupOrder(s: seq<CacheData>)
    ensures forall i, j :: 0 <= i < j < |Dedup(s)| ==>
      FirstIndex(s, Dedup(s)[i]) < FirstIndex(s, Dedup(s)[j])
  {
    if s != [] {
      var p := s[..|s| - 1];
      var x := s[|s| - 1];
      var d := Dedup(p);
      DedupOrder(p);
      forall y | y in d
        ensures FirstIndex(s, y) == FirstIndex(p, y) < |p|
      {
        FirstIndexPrefix(s, y, |p|);
      }
      if x !in d {
        assert x !in p;
        assert FirstIndex(s, x) == |p| by {
          forall j | 0 <= j < |p| ensures s[j] != x { assert s[j] == p[j]; }
        }
        assert Dedup(s) == d + [x];
        forall i, j | 0 <= i < j < |d + [x]|
          ensures FirstIndex(s, (d + [x])[i]) < FirstIndex(s, (d + [x])[j])
        {
          assert (d + [x])[i] == d[i];
          if j < |d| {
            assert (d + [x])[j] == d[j];
          } else {
            assert (d + [x])[j] == x;
          }
        }
      }
    }
  }

  /** A sequence without repeated keys is its own deduplication. */
  lemma {:induction false} DedupOfDistinct(s: seq<CacheData>)
    requires Distinct(s)
    ensures Dedup(s) == s
  {
    if s != [] {
      var p := s[..|s| - 1];
      assert Distinct(p);
      DedupOfDistinct(p);
      assert s[|s| - 1] !in p by {
        forall j | 0 <= j < |p| ensures p[j] != s[|s| - 1] { assert p[j] == s[j]; }
      }
      assert p + [s[|s| - 1]] == s;
    }
  }

  /** `unique` is idempotent. */
  lemma DedupIdempotent(s: seq<CacheData>)
    ensures Dedup(Dedup(s)) == Dedup(s)
  {
    DedupOfDistinct(Dedup(s));
  }

  /**
   * unique: a map from keys to positions in the result; a repeated key
   * overwrites the earlier (equal) entry, a new key is appended.
   */
  method Unique(cache: seq<CacheData>) returns (u: seq<CacheData>)
    ensures u == Dedup(cache)
  {
    var m: map<(string, string, string, string), nat> := map[];
    u := [];
    var i := 0;
    while i < |cache|
      invariant 0 <= i <= |cache|
      invariant u == Dedup(cache[..i])
      invariant forall k :: k in m ==> m[k] < |u| && Key(u[m[k]]) == k
      invariant forall j :: 0 <= j < |u| ==> Key(u[j]) in m
    {
      var v := cache[i];
      var k := Key(v);
      assert cache[..i + 1][..i] == cache[..i];
      if k in m {
        assert u[m[k]] == v;
        u := u[m[k] := v];
      } else {
        assert v !in u by {
          forall j | 0 <= j < |u| ensures u[j] != v { assert Key(u[j]) in m; }
        }
        m := m[k := |u|];
        u := u + [v];
      }
      i := i + 1;
    }
    assert cache[..i] == cache;
  }

  /** The store after loading `items` over `acc`: each item is keyed by its Hash. */
  function Loaded(acc: map<string, CacheData>, items: seq<CacheData>): map<string, CacheData>
  {
    if items == [] then acc
    else Loaded(acc, items[..|items| - 1])[items[|items| - 1].hash := items[|items| - 1]]
  }

  /** Every loaded item is stored under its Hash, later duplicates winning. */
  lemma {:induction false} LoadedLastWins(acc: map<string, CacheData>, items: seq<CacheData>, i: nat)
    requires i < |items|
    requires forall j :: i < j < |items| ==> items[j].hash != items[i].hash
    ensures items[i].hash in Loaded(acc, items)
    ensures Loaded(acc, items)[items[i].hash] == items[i]
  {
    if i < |items| - 1 {
      LoadedLastWins(acc, items[..|items| - 1], i);
    }
  }

  /** Loading adds exactly the Hash keys of the items. */
  lemma {:induction false} LoadedKeys(acc: map<string, CacheData>, items: seq<CacheData>)
    ensures Loaded(acc, items).Keys == acc.Keys + set x | x in items :: x.hash
  {
    if items != [] {
      var p := items[..|items| - 1];
      LoadedKeys(acc, p);
      assert forall x :: x in items <==> x in p || x == items[|items| - 1];
    }
  }

  /** Outcome of os.Stat, os.ReadFile and yaml.Unmarshal on the cache file. */
  datatype Stored = Missing | Unreadable(err: string) | Malformed(err: string) | Entries(items: seq<CacheData>)

  /** Outcome of Get: the file's bytes and its entry, or a miss. */
  datatype Lookup = Miss | Hit(data: string, meta: CacheData)

  class Cache {
    var store: map<string, CacheData>
    const file: string
    const dir: string
    /** The entries written to the cache file by the latest successful save. */
    var saved: seq<CacheData>

    constructor (file: string, dir: string)
      ensures store == map[] && saved == []
      ensures this.file == file && this.dir == dir
    {
      store := map[];
      this.file := file;
      this.dir := dir;
      saved := [];
    }

    /** loadFromFile: a missing file loads nothing; read or decode errors are returned. */
    method LoadFromFile(stored: Stored) returns (err: Option<string>)
      modifies this
      ensures stored.Missing? ==> err == None && store == old(store)
      ensures stored.Unreadable? ==> err == Some(stored.err) && store == old(store)
      ensures stored.Malformed? ==> err == Some(stored.err) && store == old(store)
      ensures stored.Entries? ==> err == None && store == Loaded(old(store), stored.items)
      ensures saved == old(saved)
    {
      match stored {
        case Missing => return None;
        case Unreadable(e) => return Some(e);
        case Malformed(e) => return Some(e);
        case Entries(items) =>
          var i := 0;
          while i < |items|
            invariant 0 <= i <= |items|
            invariant store == Loaded(old(store), items[..i])
            invariant saved == old(saved)
          {
            assert items[..i + 1][..i] == items[..i];
            store := store[items[i].hash := items[i]];
            i := i + 1;
          }
          assert items[..i] == items;
          return None;
      }
    }

    /** Get: a miss when the hash is unknown or the entry's file cannot be read. */
    function Get(h: string, readFile: string -> Option<string>): (r: Lookup)
      reads this
      ensures r.Hit? <==> h in store && readFile(store[h].path).Some?
      ensures r.Hit? ==> r.meta == store[h] && readFile(r.meta.path) == Some(r.data)
    {
      if h !in store then Miss
      else
        match readFile(store[h].path)
        case None => Miss
        case Some(data) => Hit(data, store[h])
    }

    /** The store's values, in the map's (unspecified) iteration order. */
    method Values() returns (vs: seq<CacheData>)
      ensures forall x :: x in vs <==> x in store.Values
    {
      var keys := store.Keys;
      vs := [];
      while keys != {}
        invariant keys <= store.Keys
        invariant forall x :: x in vs <==> exists k :: k in store.Keys - keys && store[k] == x
        decreases |keys|
      {
        var k :| k in keys;
        vs := vs + [store[k]];
        keys := keys - {k};
      }
    }

    /** saveToFile: persists the deduplicated values of the store unless the write fails. */
    method SaveToFile(writeOk: bool) returns (err: Option<string>)
      modifies this
      ensures store == old(store)
      ensures err.None? <==> writeOk
      ensures writeOk ==> Distinct(saved) && forall x :: x in saved <==> x in store.Values
      ensures !writeOk ==> saved == old(saved)
    {
      var values := Values();
      var u := Unique(values);
      if !writeOk {
        return Some("write " + file + " failed");
      }
      saved := u;
      return None;
    }

    /** AddDataToStore: stores the entry under `h`, then saves. */
    method AddDataToStore(h: string, d: CacheData, writeOk: bool) returns (err: Option<string>)
      modifies this
      ensures store == old(store)[h := d]
      ensures err.None? <==> writeOk
      ensures writeOk ==> Distinct(saved) && forall x :: x in saved <==> x in store.Values
      ensures !writeOk ==> saved == old(saved)
    {
      store := store[h := d];
      err := SaveToFile(writeOk);
    }

    /**
     * Set: writes the data next to the cache and records it under the hash of
     * the source's URL; a failed data write returns before the store changes.
     */
    method Set(source: string, hash: string, dataType: string, hashURL: string -> string,
               paths: PathOps, writeDataOk: bool, writeCacheOk: bool) returns (r: Result<CacheData>)
      modifies this
      ensures !writeDataOk ==> r.Err? && store == old(store) && saved == old(saved)
      ensures writeDataOk ==> store == old(store)[hashURL(source) := NewEntry(source, hash, dataType, hashURL, paths)]
      ensures writeDataOk ==> (r.Ok? <==> writeCacheOk)
      ensures r.Ok? ==> r.value == NewEntry(source, hash, dataType, hashURL, paths)
      // the key is the URL hash: the content hash stays unknown unless the two coincide
      ensures hashURL(source) != hash && hash !in old(store) ==> hash !in store
    {
      var sourceHash := hashURL(source);
      var fileName := paths.base(source);
      var path := paths.join(dir, fileName + "-" + sourceHash);
      if !writeDataOk {
        return Err("write " + path + " failed");
      }
      var cacheData := CacheData(hash, path, dataType, sourceHash);
      store := store[sourceHash := cacheData];
      var err := SaveToFile(writeCacheOk);
      if err.Some? {
        return Err(err.value);
      }
      return Ok(cacheData);
    }

    /** The entry Set records: named after the source's base name and URL hash. */
    function NewEntry(source: string, hash: string, dataType: string, hashURL: string -> string,
                      paths: PathOps): (d: CacheData)
      reads this
      ensures d.hash == hash && d.dataType == dataType && d.url == hashURL(source)
      ensures d.path == paths.join(dir, paths.base(source) + "-" + hashURL(source))
    {
      CacheData(hash, paths.join(dir, paths.base(source) + "-" + hashURL(source)), dataType, hashURL(source))
    }
  }

  /** NewCache: an empty store filled from the cache file; a load error yields no cache. */
  method NewCache(file: string, dir: string, stored: Stored) returns (r: Result<Cache>)
    ensures r.Ok? <==> stored.Missing? || stored.Entries?
    ensures r.Ok? ==> fresh(r.value) && r.value.file == file && r.value.dir == dir
    ensures r.Ok? && stored.Missing? ==> r.value.store == map[]
    ensures r.Ok? && stored.Entries? ==> r.value.store == Loaded(map[], stored.items)
  {
    var c := new Cache(file, dir);
    var err := c.LoadFromFile(stored);
    if err.Some? {
      return Err(err.value);
    }
    return Ok(c);
  }
}
