/** The bounded cache of attachment token counts, against counting afresh. */
module TokenCache {
  import opened Common

  /** What the file system says of a path at one moment; `mtime` is absent when it cannot be read as a Unix time. */
  datatype File = File(mtime: Option<int>, size: nat, content: seq<bv8>)

  datatype CacheEntry = CacheEntry(mtime: Option<int>, size: nat, tokens: nat)

  /** The count without a cache: media type, extraction and the engine's estimate. */
  type Counter = (string, File) -> nat

  datatype Call = Call(path: string, file: File)

  const ATTACHMENT_TOKENS_CACHE_BOUND: nat := 128

  predicate SameStamp(a: File, b: File) {
    a.mtime == b.mtime && a.size == b.size
  }

  predicate IsHit(cache: map<string, CacheEntry>, c: Call) {
    c.path in cache && cache[c.path].mtime == c.file.mtime && cache[c.path].size == c.file.size
  }

  function Answer(cache: map<string, CacheEntry>, c: Call, count: Counter): nat {
    if IsHit(cache, c) then cache[c.path].tokens else count(c.path, c.file)
  }

  function Stored(cache: map<string, CacheEntry>, c: Call, count: Counter): map<string, CacheEntry> {
    if IsHit(cache, c) then cache
    else
      var kept := if |cache| >= ATTACHMENT_TOKENS_CACHE_BOUND then map[] else cache;
      kept[c.path := CacheEntry(c.file.mtime, c.file.size, count(c.path, c.file))]
  }

  /** The cache after the calls that found their file. */
  function CacheAfter(calls: seq<Call>, count: Counter): map<string, CacheEntry> {
    if calls == [] then map[]
    else Stored(CacheAfter(calls[..|calls| - 1], count), calls[|calls| - 1], count)
  }

  /** The entry was counted in an earlier call on the same path with this very stamp. */
  ghost predicate CountedIn(calls: seq<Call>, path: string, entry: CacheEntry, count: Counter) {
    exists i :: 0 <= i < |calls| && CountedAt(calls[i], path, entry, count)
  }

  predicate CountedAt(c: Call, path: string, entry: CacheEntry, count: Counter) {
    c.path == path && entry == CacheEntry(c.file.mtime, c.file.size, count(path, c.file))
  }

  lemma {:induction false} EntriesWereCounted(calls: seq<Call>, count: Counter)
    ensures |CacheAfter(calls, count)| <= 128
    ensures forall path :: path in CacheAfter(calls, count) ==> CountedIn(calls, path, CacheAfter(calls, count)[path], count)
  {
    if calls != [] {
      var n := |calls| - 1;
      var before, after := CacheAfter(calls[..n], count), CacheAfter(calls, count);
      EntriesWereCounted(calls[..n], count);
      forall path | path in after
        ensures CountedIn(calls, path, after[path], count)
      {
        if path in before && after[path] == before[path] {
          var i :| 0 <= i < n && CountedAt(calls[..n][i], path, before[path], count);
          assert CountedAt(calls[i], path, after[path], count);
        } else {
          assert CountedAt(calls[n], path, after[path], count);
        }
      }
    }
  }

  function Paths(calls: seq<Call>): set<string> {
    set i | 0 <= i < |calls| :: calls[i].path
  }

  lemma StoredStamp(cache: map<string, CacheEntry>, c: Call, count: Counter)
    requires |cache| < 128
    ensures Stored(cache, c, count).Keys == cache.Keys + {c.path}
    ensures Stored(cache, c, count)[c.path].mtime == c.file.mtime && Stored(cache, c, count)[c.path].size == c.file.size
    ensures forall path :: path in cache && path != c.path ==> Stored(cache, c, count)[path] == cache[path]
  {
  }

  lemma PathsStep(calls: seq<Call>)
    requires calls != []
    ensures Paths(calls) == Paths(calls[..|calls| - 1]) + {calls[|calls| - 1].path}
    ensures |Paths(calls[..|calls| - 1])| <= |Paths(calls)|
  {
    assert forall i :: 0 <= i < |calls| - 1 ==> calls[..|calls| - 1][i] == calls[i];
    FewerPaths(Paths(calls[..|calls| - 1]), Paths(calls));
  }

  lemma {:induction false} EveryPathIsHeld(calls: seq<Call>, count: Counter)
    requires |Paths(calls)| < 128
    ensures CacheAfter(calls, count).Keys == Paths(calls)
    ensures |CacheAfter(calls, count)| < 128
  {
    if calls != [] {
      var n := |calls| - 1;
      PathsStep(calls);
      EveryPathIsHeld(calls[..n], count);
      StoredStamp(CacheAfter(calls[..n], count), calls[n], count);
      hide Stored, Paths;
    }
    assert |CacheAfter(calls, count)| == |CacheAfter(calls, count).Keys|;
  }

  /** While fewer than 128 files are asked for, nothing is forgotten: each has an entry with the stamp it had last. */
  lemma {:induction false} NothingForgotten(calls: seq<Call>, count: Counter, i: nat)
    requires |Paths(calls)| < 128
    requires i < |calls| && forall j :: i < j < |calls| ==> calls[j].path != calls[i].path
    ensures calls[i].path in CacheAfter(calls, count)
    ensures
      var entry := CacheAfter(calls, count)[calls[i].path];
      entry.mtime == calls[i].file.mtime && entry.size == calls[i].file.size
  {
    var n := |calls| - 1;
    PathsStep(calls);
    EveryPathIsHeld(calls[..n], count);
    StoredStamp(CacheAfter(calls[..n], count), calls[n], count);
    hide Stored, Paths;
    if i < n { NothingForgotten(calls[..n], count, i); }
  }

  lemma FewerPaths(a: set<string>, b: set<string>)
    requires a <= b
    ensures |a| <= |b|
  {
    assert |b| == |a| + |b - a| by { assert b == a + (b - a); }
  }

  /** A count that finds 128 entries empties the cache first, and only then. */
  lemma FullIsEmptied(calls: seq<Call>, c: Call, count: Counter)
    requires !IsHit(CacheAfter(calls, count), c)
    ensures forall path :: path in CacheAfter(calls, count) && path != c.path ==>
              (path in CacheAfter(calls + [c], count) <==> |CacheAfter(calls, count)| < 128)
    ensures c.path in CacheAfter(calls + [c], count) && CacheAfter(calls + [c], count)[c.path].tokens == count(c.path, c.file)
  {
    assert (calls + [c])[..|calls|] == calls;
  }

  /** The stamp tells the count: true whenever path, modification time and size determine content. */
  ghost predicate StampsTell(count: Counter) {
    forall path, f, g :: SameStamp(f, g) ==> count(path, f) == count(path, g)
  }

  ghost predicate AlwaysUncached(count: Counter) {
    forall calls, c :: Answer(CacheAfter(calls, count), c, count) == count(c.path, c.file)
  }

  /** Whatever came before, the answer is the count of some state of this path with the stamp it has now. */
  lemma {:induction false} AnswerIsACount(calls: seq<Call>, c: Call, count: Counter) returns (f: File)
    ensures SameStamp(f, c.file) && Answer(CacheAfter(calls, count), c, count) == count(c.path, f)
    ensures f == c.file || Call(c.path, f) in calls
  {
    EntriesWereCounted(calls, count);
    f := c.file;
    var cache := CacheAfter(calls, count);
    if IsHit(cache, c) {
      var i :| 0 <= i < |calls| && CountedAt(calls[i], c.path, cache[c.path], count);
      f := calls[i].file;
    }
  }

  /** The cache answers like the uncached count after every history exactly when stamps tell the count. */
  lemma {:induction false} CacheIsTransparentIff(count: Counter)
    ensures AlwaysUncached(count) <==> StampsTell(count)
  {
    if StampsTell(count) {
      forall calls, c
        ensures Answer(CacheAfter(calls, count), c, count) == count(c.path, c.file)
      {
        var f := AnswerIsACount(calls, c, count);
      }
    }
    if AlwaysUncached(count) {
      forall path, f, g | SameStamp(f, g)
        ensures count(path, f) == count(path, g)
      {
        StaleHit(path, f, g, count);
        assert Answer(CacheAfter([Call(path, f)], count), Call(path, g), count) == count(path, g);
      }
    }
  }

  /** A file rewritten with its stamp unchanged is answered with its old count. */
  lemma {:induction false} StaleHit(path: string, f: File, g: File, count: Counter)
    requires SameStamp(f, g)
    ensures Answer(CacheAfter([Call(path, f)], count), Call(path, g), count) == count(path, f)
  {
    var calls := [Call(path, f)];
    assert calls[..0] == [];
    assert CacheAfter(calls, count) == Stored(map[], calls[0], count);
  }

  class AttachmentTokensCache {
    var cache: map<string, CacheEntry>
    ghost var calls: seq<Call>
    const count: Counter

    ghost predicate Valid()
      reads this
    {
      cache == CacheAfter(calls, count)
    }

    constructor (count: Counter)
      ensures Valid() && calls == [] && this.count == count
    {
      cache := map[];
      calls := [];
      this.count := count;
    }

    /** `estimate_attachment_tokens_sync`; a path without metadata is an error and leaves the cache alone. */
    method Estimate(path: string, file: Option<File>) returns (r: Option<nat>)
      requires Valid()
      modifies this
      ensures Valid() && |cache| <= 128
      ensures r.Some? <==> file.Some?
      ensures file.None? ==> cache == old(cache) && calls == old(calls)
      ensures file.Some? ==>
                && calls == old(calls) + [Call(path, file.value)]
                && r.value == Answer(CacheAfter(old(calls), count), Call(path, file.value), count)
      ensures file.Some? && StampsTell(count) ==> r.value == count(path, file.value)
    {
      EntriesWereCounted(calls, count);
      if file.None? {
        return None;
      }
      var f := file.value;
      ghost var before := calls;
      calls := calls + [Call(path, f)];
      assert calls[..|before|] == before;
      EntriesWereCounted(calls, count);
      ghost var state := AnswerIsACount(before, Call(path, f), count);
      if path in cache {
        var entry := cache[path];
        if entry.mtime == f.mtime && entry.size == f.size {
          return Some(entry.tokens);
        }
      }
      var tokens := count(path, f);
      if |cache| >= ATTACHMENT_TOKENS_CACHE_BOUND {
        cache := map[];
      }
      cache := cache[path := CacheEntry(f.mtime, f.size, tokens)];
      return Some(tokens);
    }
  }
}
