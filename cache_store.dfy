/**
  The browser's CacheStorage as the worker sees it: named caches, kept in the
  order they were created, each mapping a request URL to a response snapshot.
  `Store` is the value; `CacheStorage` is the mutable object the worker's
  handlers update, proved against the functions on `Store`.
 */
module CacheStore {
  import opened Http

  /** The entries of one cache, keyed by request URL. */
  type Entries = map<string, Response>

  /** Cache names in creation order, and the entries of each named cache. */
  datatype Store = Store(order: seq<string>, caches: map<string, Entries>)

  predicate Distinct(names: seq<string>) {
    forall i, j :: 0 <= i < j < |names| ==> names[i] != names[j]
  }

  /** Every cache is listed exactly once in the creation order. */
  ghost predicate WellFormed(s: Store) {
    Distinct(s.order) && forall n :: n in s.caches <==> n in s.order
  }

  const Empty: Store := Store([], map[])

  /** No cache of `s` holds an entry for `key`. */
  ghost predicate Uncached(s: Store, key: string) {
    forall n :: n in s.caches ==> key !in s.caches[n]
  }

  /** `a` lists some of the names of `b`, in the same relative order. */
  predicate Subsequence(a: seq<string>, b: seq<string>) {
    if a == [] then true
    else if b == [] then false
    else (a[0] == b[0] && Subsequence(a[1..], b[1..])) || Subsequence(a, b[1..])
  }

  /** `caches.open(name)`: the named cache, created empty and listed last when it is absent. */
  function Opened(s: Store, name: string): (t: Store)
    requires WellFormed(s)
    ensures WellFormed(t)
    ensures name in t.caches
    ensures name in s.caches ==> t == s
    ensures name !in s.caches ==> t.order == s.order + [name] && t.caches[name] == map[]
    ensures forall n :: n != name ==> (n in t.caches <==> n in s.caches)
    ensures forall n :: n in s.caches ==> t.caches[n] == s.caches[n]
  {
    if name in s.caches then s else Store(s.order + [name], s.caches[name := map[]])
  }

  /** `cache.put(key, r)` on the cache `name`, opened first: replaces any entry for `key`. */
  function Stored(s: Store, name: string, key: string, r: Response): (t: Store)
    requires WellFormed(s)
    ensures WellFormed(t)
    ensures t.order == if name in s.caches then s.order else s.order + [name]
    ensures name in t.caches && key in t.caches[name] && t.caches[name][key] == r
    ensures t.caches[name] == (if name in s.caches then s.caches[name] else map[])[key := r]
    ensures forall u :: u != key && name in s.caches && u in s.caches[name] ==>
              u in t.caches[name] && t.caches[name][u] == s.caches[name][u]
    ensures forall n :: n != name ==> (n in t.caches <==> n in s.caches)
    ensures forall n :: n != name && n in s.caches ==> t.caches[n] == s.caches[n]
  {
    var o := Opened(s, name);
    Store(o.order, o.caches[name := o.caches[name][key := r]])
  }

  /** `caches.delete(name)`: the cache and its name disappear; the other caches are untouched. */
  function Deleted(s: Store, name: string): (t: Store)
    requires WellFormed(s)
    ensures WellFormed(t)
    ensures name !in t.caches && name !in t.order
    ensures name !in s.order ==> t.order == s.order
    ensures name in s.order ==>
              exists i :: 0 <= i < |s.order| && s.order[i] == name && t.order == s.order[..i] + s.order[i + 1..]
    ensures forall n :: n != name ==> (n in t.caches <==> n in s.caches)
    ensures forall n :: n != name && n in s.caches ==> t.caches[n] == s.caches[n]
  {
    var t := Store(Without(s.order, name), s.caches - {name});
    if name in s.order then WithoutSplices(s.order, name); t
    else WithoutAbsent(s.order, name); t
  }

  /** The names other than `name`, in their original order. */
  function Without(names: seq<string>, name: string): (r: seq<string>)
    ensures forall n :: n in r <==> n in names && n != name
    ensures Distinct(names) ==> Distinct(r)
  {
    if names == [] then []
    else if names[0] == name then Without(names[1..], name)
    else
      assert Distinct(names) ==> names[0] !in names[1..] && Distinct(names[1..]);
      [names[0]] + Without(names[1..], name)
  }

  /** Removing a name that is not listed changes nothing. */
  lemma {:induction false} WithoutAbsent(names: seq<string>, name: string)
    requires name !in names
    ensures Without(names, name) == names
  {
    if names != [] {
      WithoutAbsent(names[1..], name);
      assert [names[0]] + names[1..] == names;
    }
  }

  /** The tail of a list of distinct names is distinct and lacks the head. */
  lemma DistinctTail(names: seq<string>)
    requires Distinct(names) && names != []
    ensures Distinct(names[1..]) && names[0] !in names[1..]
  {
  }

  /**
    Removing a listed name from a list of distinct names splices it out at its
    one position: the other names keep their relative order.
   */
  lemma {:induction false} WithoutSplices(names: seq<string>, name: string)
    requires Distinct(names) && name in names
    ensures exists i :: 0 <= i < |names| && names[i] == name && Without(names, name) == names[..i] + names[i + 1..]
  {
    var rest := names[1..];
    DistinctTail(names);
    if names[0] == name {
      WithoutAbsent(rest, name);
      assert Without(names, name) == names[..0] + names[0 + 1..];
    } else {
      assert name in rest;
      WithoutSplices(rest, name);
      var j :| 0 <= j < |rest| && rest[j] == name && Without(rest, name) == rest[..j] + rest[j + 1..];
      SpliceCons(names, j);
      assert names[j + 1] == name;
    }
  }

  /** Splicing position `j` out of the tail is splicing position `j + 1` out of the whole. */
  lemma SpliceCons(names: seq<string>, j: nat)
    requires j + 1 < |names|
    ensures [names[0]] + (names[1..][..j] + names[1..][j + 1..]) == names[..j + 1] + names[j + 2..]
  {
    assert names[..j + 1] == [names[0]] + names[1..][..j];
  }

  /** The first entry for `key` among the caches named in `order`, searched in that order. */
  function MatchIn(order: seq<string>, caches: map<string, Entries>, key: string): (r: Option<Response>)
    ensures r.None? <==> forall j :: 0 <= j < |order| ==> order[j] !in caches || key !in caches[order[j]]
  {
    if order == [] then None
    else if order[0] in caches && key in caches[order[0]] then Some(caches[order[0]][key])
    else
      assert forall j :: 1 <= j < |order| ==> order[j] == order[1..][j - 1];
      MatchIn(order[1..], caches, key)
  }

  /** `caches.match(key)`: searches every cache, oldest first; a hit is some cache's entry for `key`. */
  function FirstMatch(s: Store, key: string): (r: Option<Response>)
    ensures r.Some? ==>
              exists n :: n in s.order && n in s.caches && key in s.caches[n] && s.caches[n][key] == r.value
  {
    var r := MatchIn(s.order, s.caches, key);
    if r.Some? then MatchInSome(s.order, s.caches, key); r else r
  }

  /** Every URL fetched to an `ok` response: the condition under which `addAll` commits. */
  predicate AllSucceeded(urls: seq<string>, net: string -> FetchOutcome) {
    forall i :: 0 <= i < |urls| ==> net(urls[i]).Succeeded()
  }

  /** The entries `addAll(urls)` writes, a later URL replacing an earlier equal one. */
  function Batch(urls: seq<string>, net: string -> FetchOutcome): (b: Entries)
    requires AllSucceeded(urls, net)
    ensures forall u :: u in b <==> u in urls
  {
    if urls == [] then map[]
    else Batch(urls[..|urls| - 1], net)[urls[|urls| - 1] := net(urls[|urls| - 1]).response]
  }

  /**
    `cache.addAll(urls)` on the cache `name`, opened first: all of the batch is
    written when every fetch succeeded, none of it otherwise.
   */
  function AddedAll(s: Store, name: string, urls: seq<string>, net: string -> FetchOutcome): (t: Store)
    requires WellFormed(s)
    ensures WellFormed(t)
  {
    var o := Opened(s, name);
    if AllSucceeded(urls, net) then Store(o.order, o.caches[name := o.caches[name] + Batch(urls, net)])
    else o
  }

  /** Each URL of the manifest is in the batch with its fetched response, which is `ok`. */
  lemma {:induction false} BatchHolds(urls: seq<string>, net: string -> FetchOutcome)
    requires AllSucceeded(urls, net)
    ensures forall u :: u in urls ==> Batch(urls, net)[u] == net(u).response
    ensures forall u :: u in Batch(urls, net) ==> Batch(urls, net)[u].Ok()
  {
    if urls != [] {
      var init := urls[..|urls| - 1];
      assert AllSucceeded(init, net) by {
        forall i | 0 <= i < |init| ensures net(init[i]).Succeeded() {
          assert init[i] == urls[i];
        }
      }
      BatchHolds(init, net);
      assert urls == init + [urls[|urls| - 1]];
    }
  }

  /** `addAll` on one cache leaves every other cache as it was. */
  lemma AddedAllFrames(s: Store, name: string, urls: seq<string>, net: string -> FetchOutcome)
    requires WellFormed(s)
    ensures forall n :: n in AddedAll(s, name, urls, net).caches <==> n in s.caches || n == name
    ensures forall n :: n in s.caches && n != name ==> AddedAll(s, name, urls, net).caches[n] == s.caches[n]
    ensures AddedAll(s, name, urls, net).order == if name in s.caches then s.order else s.order + [name]
  {
  }

  /**
    What `addAll` leaves in its cache: the batch over the old entries when
    every fetch succeeded, the old entries (none for a new cache) otherwise.
   */
  lemma AddedAllEntries(s: Store, name: string, urls: seq<string>, net: string -> FetchOutcome)
    requires WellFormed(s)
    ensures var old0 := if name in s.caches then s.caches[name] else map[];
      var e := AddedAll(s, name, urls, net).caches[name];
      && (!AllSucceeded(urls, net) ==> e == old0)
      && (AllSucceeded(urls, net) ==>
            && (forall u :: u in e <==> u in old0 || u in urls)
            && (forall u :: u in urls ==> e[u] == net(u).response)
            && (forall u :: u in e && u !in urls ==> e[u] == old0[u])
            && (forall u :: u in e && u in urls ==> e[u].Ok()))
  {
    if AllSucceeded(urls, net) {
      BatchHolds(urls, net);
    }
  }

  /** A cache earlier in the order shadows later ones: the first holder of `key` answers. */
  lemma {:induction false} MatchInAt(order: seq<string>, caches: map<string, Entries>, key: string, i: nat)
    requires i < |order| && order[i] in caches && key in caches[order[i]]
    requires forall j :: 0 <= j < i ==> order[j] !in caches || key !in caches[order[j]]
    ensures MatchIn(order, caches, key) == Some(caches[order[i]][key])
  {
    if i > 0 {
      assert order[0] !in caches || key !in caches[order[0]];
      MatchInAt(order[1..], caches, key, i - 1);
    }
  }

  /** A hit is some listed cache's entry for `key`. */
  lemma {:induction false} MatchInSome(order: seq<string>, caches: map<string, Entries>, key: string)
    requires MatchIn(order, caches, key).Some?
    ensures exists n :: n in order && n in caches && key in caches[n]
                        && caches[n][key] == MatchIn(order, caches, key).value
  {
    if !(order[0] in caches && key in caches[order[0]]) {
      MatchInSome(order[1..], caches, key);
      var n :| n in order[1..] && n in caches && key in caches[n]
               && caches[n][key] == MatchIn(order, caches, key).value;
      assert n in order;
    }
  }

  /** `caches.match` misses exactly when no cache of the store holds `key`. */
  lemma FirstMatchNone(s: Store, key: string)
    requires WellFormed(s)
    ensures FirstMatch(s, key).None? <==> Uncached(s, key)
  {
    if FirstMatch(s, key).None? {
      forall n | n in s.caches ensures key !in s.caches[n] {
        var j :| 0 <= j < |s.order| && s.order[j] == n;
      }
    }
  }

  /** When exactly one cache holds `key`, `caches.match` returns that cache's entry. */
  lemma FirstMatchOnlyHolder(s: Store, name: string, key: string)
    requires WellFormed(s) && name in s.caches && key in s.caches[name]
    requires forall n :: n in s.caches && n != name ==> key !in s.caches[n]
    ensures FirstMatch(s, key) == Some(s.caches[name][key])
  {
    var i :| 0 <= i < |s.order| && s.order[i] == name;
    MatchInAt(s.order, s.caches, key, i);
  }

  /**
    Round trip of `cache.put` through `caches.match`: what was stored under
    `key` comes back, provided no other cache also holds `key`.
   */
  lemma PutThenMatch(s: Store, name: string, key: string, r: Response)
    requires WellFormed(s)
    requires forall n :: n in s.caches && n != name ==> key !in s.caches[n]
    ensures FirstMatch(Stored(s, name, key, r), key) == Some(r)
  {
    var t := Stored(s, name, key, r);
    FirstMatchOnlyHolder(t, name, key);
  }

  /** A second `put` of the same key replaces the first: one entry, the latest response. */
  lemma StoredTwice(s: Store, name: string, key: string, r1: Response, r2: Response)
    requires WellFormed(s)
    ensures Stored(Stored(s, name, key, r1), name, key, r2) == Stored(s, name, key, r2)
  {
    var o := Opened(s, name);
    var t1 := Stored(s, name, key, r1);
    assert Opened(t1, name) == t1;
    assert o.caches[name][key := r1][key := r2] == o.caches[name][key := r2];
    assert t1.caches[name := t1.caches[name][key := r2]] == o.caches[name := o.caches[name][key := r2]];
  }

  /** Storing the response a cache already holds for the key changes nothing. */
  lemma StoredSame(s: Store, name: string, key: string, r: Response)
    requires WellFormed(s) && name in s.caches && key in s.caches[name] && s.caches[name][key] == r
    ensures Stored(s, name, key, r) == s
  {
    assert s.caches[name][key := r] == s.caches[name];
    assert s.caches[name := s.caches[name]] == s.caches;
  }

  /** The mutable cache storage of the worker's origin. */
  class CacheStorage {
    var order: seq<string>
    var caches: map<string, Entries>

    function Value(): Store
      reads this
    {
      Store(order, caches)
    }

    ghost predicate Valid()
      reads this
    {
      WellFormed(Value())
    }

    constructor ()
      ensures Valid() && Value() == Empty
    {
      order := [];
      caches := map[];
    }

    /** `caches.open(name)`. */
    method Open(name: string)
      requires Valid()
      modifies this
      ensures Valid() && Value() == Opened(old(Value()), name)
    {
      if name !in caches {
        order := order + [name];
        caches := caches[name := map[]];
      }
    }

    /** `caches.open(name).then(cache => cache.put(key, r))`. */
    method Put(name: string, key: string, r: Response)
      requires Valid()
      modifies this
      ensures Valid() && Value() == Stored(old(Value()), name, key, r)
    {
      Open(name);
      caches := caches[name := caches[name][key := r]];
    }

    /**
      `caches.open(name).then(cache => cache.addAll(urls))`: writes the batch
      only if every URL answered `ok`. The loop stops at the first failed
      fetch; with the network a pure parameter that cannot be told apart
      from fetching the rest as well.
     */
    method AddAll(name: string, urls: seq<string>, net: string -> FetchOutcome) returns (ok: bool)
      requires Valid()
      modifies this
      ensures Valid()
      ensures ok == AllSucceeded(urls, net)
      ensures Value() == AddedAll(old(Value()), name, urls, net)
    {
      Open(name);
      var batch: Entries := map[];
      var i := 0;
      while i < |urls|
        invariant 0 <= i <= |urls|
        invariant Valid() && Value() == Opened(old(Value()), name)
        invariant AllSucceeded(urls[..i], net)
        invariant batch == Batch(urls[..i], net)
      {
        var outcome := net(urls[i]);
        if !outcome.Succeeded() {
          return false;
        }
        assert urls[..i + 1][..i] == urls[..i];
        batch := batch[urls[i] := outcome.response];
        i := i + 1;
      }
      assert urls[..i] == urls;
      caches := caches[name := caches[name] + batch];
      ok := true;
    }

    /** `caches.delete(name)`: reports whether the cache existed. */
    method Delete(name: string) returns (existed: bool)
      requires Valid()
      modifies this
      ensures Valid()
      ensures existed == (name in old(caches))
      ensures Value() == Deleted(old(Value()), name)
    {
      existed := name in caches;
      order := Without(order, name);
      caches := caches - {name};
    }

    /** `caches.keys()`: every cache name once, in creation order. */
    method Keys() returns (names: seq<string>)
      requires Valid()
      ensures Distinct(names)
      ensures forall n :: n in names <==> n in caches
      ensures names == order
    {
      names := order;
    }

    /** `caches.match(key)`: the first cache, in creation order, holding `key` answers. */
    method Match(key: string) returns (r: Option<Response>)
      requires Valid()
      ensures r == FirstMatch(Value(), key)
      ensures r.None? <==> Uncached(Value(), key)
    {
      FirstMatchNone(Value(), key);
      var i := 0;
      while i < |order|
        invariant 0 <= i <= |order|
        invariant MatchIn(order[i..], caches, key) == MatchIn(order, caches, key)
      {
        var name := order[i];
        if key in caches[name] {
          return Some(caches[name][key]);
        }
        assert order[i..][1..] == order[i + 1..];
        i := i + 1;
      }
      r := None;
    }
  }
}
