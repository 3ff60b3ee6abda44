/** Choosing the oldest entries of a table, as the host, ban and rate-limit tables do: list the
    entries with a stamp, sort the list by stamp and delete from its front (common/defender.go,
    common/ratelimiter.go). */
module Eviction {

  datatype KV = KV(key: string, value: int)

  type Stamps = map<string, int>

  predicate SortedByValue(kvs: seq<KV>) {
    forall i, j :: 0 <= i < j < |kvs| ==> kvs[i].value <= kvs[j].value
  }

  /** The list holds every entry of the table once. */
  predicate Lists(kvs: seq<KV>, m: Stamps) {
    && |kvs| == |m|
    && (forall i :: 0 <= i < |kvs| ==> kvs[i].key in m && m[kvs[i].key] == kvs[i].value)
    && (forall i, j :: 0 <= i < j < |kvs| ==> kvs[i].key != kvs[j].key)
  }

  function KeysOf(kvs: seq<KV>): set<string> {
    set i | 0 <= i < |kvs| :: kvs[i].key
  }

  lemma {:induction false} KeysOfCount(kvs: seq<KV>)
    requires forall i, j :: 0 <= i < j < |kvs| ==> kvs[i].key != kvs[j].key
    ensures |KeysOf(kvs)| == |kvs|
  {
    if kvs != [] {
      var n := |kvs| - 1;
      KeysOfCount(kvs[..n]);
      assert KeysOf(kvs) == KeysOf(kvs[..n]) + {kvs[n].key};
      assert kvs[n].key !in KeysOf(kvs[..n]);
    }
  }

  /** A full list names every key. */
  lemma ListsAllKeys(kvs: seq<KV>, m: Stamps)
    requires Lists(kvs, m)
    ensures KeysOf(kvs) == m.Keys
  {
    KeysOfCount(kvs);
    SubsetOfSameSize(KeysOf(kvs), m.Keys);
  }

  lemma SubsetOfSameSize<T>(a: set<T>, b: set<T>)
    requires a <= b && |a| == |b|
    ensures a == b
  {
    assert |b - a| == 0;
    assert b - a == {};
  }

  /** Insertion keeps a list sorted, in place of the library's sort. */
  function Insert(kv: KV, kvs: seq<KV>): seq<KV> {
    if kvs == [] || kv.value <= kvs[0].value then [kv] + kvs else [kvs[0]] + Insert(kv, kvs[1..])
  }

  lemma {:induction false} InsertSorted(kv: KV, kvs: seq<KV>)
    requires SortedByValue(kvs)
    ensures SortedByValue(Insert(kv, kvs)) && |Insert(kv, kvs)| == |kvs| + 1
    ensures forall x :: x in Insert(kv, kvs) <==> x == kv || x in kvs
  {
    if kvs != [] && kvs[0].value < kv.value {
      InsertSorted(kv, kvs[1..]);
      assert kvs == [kvs[0]] + kvs[1..];
      assert forall x :: x in Insert(kv, kvs[1..]) ==> kvs[0].value <= x.value;
    }
  }

  lemma {:induction false} InsertDistinct(kv: KV, kvs: seq<KV>)
    requires forall i, j :: 0 <= i < j < |kvs| ==> kvs[i].key != kvs[j].key
    requires forall i :: 0 <= i < |kvs| ==> kvs[i].key != kv.key
    ensures forall i, j :: 0 <= i < j < |Insert(kv, kvs)| ==> Insert(kv, kvs)[i].key != Insert(kv, kvs)[j].key
    ensures forall i :: 0 <= i < |Insert(kv, kvs)| ==> Insert(kv, kvs)[i] == kv || Insert(kv, kvs)[i] in kvs
  {
    if kvs != [] && kvs[0].value < kv.value {
      InsertDistinct(kv, kvs[1..]);
      assert forall i :: 0 <= i < |Insert(kv, kvs[1..])| ==> Insert(kv, kvs[1..])[i].key != kvs[0].key by {
        assert forall x :: x in kvs[1..] ==> x.key != kvs[0].key;
      }
    }
  }

  /** The entries in the order of their stamps; equal stamps come in any order. */
  method ListSorted(m: Stamps) returns (kvs: seq<KV>)
    ensures Lists(kvs, m) && SortedByValue(kvs)
  {
    kvs := [];
    var rest := m.Keys;
    while rest != {}
      invariant rest <= m.Keys && |kvs| + |rest| == |m|
      invariant SortedByValue(kvs)
      invariant forall i :: 0 <= i < |kvs| ==> kvs[i].key in m && kvs[i].key !in rest && m[kvs[i].key] == kvs[i].value
      invariant forall i, j :: 0 <= i < j < |kvs| ==> kvs[i].key != kvs[j].key
    {
      var key :| key in rest;
      rest := rest - {key};
      InsertSorted(KV(key, m[key]), kvs);
      InsertDistinct(KV(key, m[key]), kvs);
      kvs := Insert(KV(key, m[key]), kvs);
    }
  }

  /** No survivor has a smaller stamp than a victim. */
  predicate OldestOf(victims: set<string>, m: Stamps) {
    && victims <= m.Keys
    && (forall v, s :: v in victims && s in m && s !in victims ==> m[v] <= m[s])
  }

  lemma InFront(kvs: seq<KV>, m: Stamps, idx: nat, s: string)
    requires Lists(kvs, m) && idx <= |kvs| && s in m && s !in KeysOf(kvs[..idx])
    ensures exists j :: idx <= j < |kvs| && kvs[j].key == s
  {
    ListsAllKeys(kvs, m);
    assert forall i :: 0 <= i < idx ==> kvs[..idx][i] == kvs[i];
    var j :| 0 <= j < |kvs| && kvs[j].key == s;
  }

  /** The front of a sorted list holds the oldest entries. */
  lemma FrontIsOldest(kvs: seq<KV>, m: Stamps, idx: nat)
    requires Lists(kvs, m) && SortedByValue(kvs) && idx <= |kvs|
    ensures OldestOf(KeysOf(kvs[..idx]), m) && |KeysOf(kvs[..idx])| == idx
  {
    var front := kvs[..idx];
    KeysOfCount(front);
    forall v, s | v in KeysOf(front) && s in m && s !in KeysOf(front)
      ensures m[v] <= m[s]
    {
      var i :| 0 <= i < |front| && front[i].key == v;
      InFront(kvs, m, idx, s);
      var j :| idx <= j < |kvs| && kvs[j].key == s;
      assert kvs[i].value <= kvs[j].value;
    }
  }

  /** The deletion loop: the first n entries of the sorted list. */
  method Oldest(m: Stamps, n: int) returns (victims: set<string>)
    ensures OldestOf(victims, m)
    ensures |victims| == if n <= 0 then 0 else if n <= |m| then n else |m|
  {
    var kvs := ListSorted(m);
    victims := {};
    var idx := 0;
    while idx < |kvs| && idx < n
      invariant 0 <= idx <= |kvs| && (idx <= n || idx == 0)
      invariant victims == KeysOf(kvs[..idx])
    {
      assert kvs[..idx + 1] == kvs[..idx] + [kvs[idx]];
      assert KeysOf(kvs[..idx] + [kvs[idx]]) == KeysOf(kvs[..idx]) + {kvs[idx].key};
      victims := victims + {kvs[idx].key};
      idx := idx + 1;
    }
    FrontIsOldest(kvs, m, idx);
  }

  // ---------------------------------------------------------------------------------------------
  // Evicting by one stamp what was used at another

  /** The entries stamped before x, or also at the same time. */
  function Before(m: Stamps, x: string, ties: bool): set<string>
    requires x in m
  {
    set y | y in m && y != x && (m[y] < m[x] || (ties && m[y] == m[x]))
  }

  /** Some sorting of the stamps puts a among the first n and b after them. */
  predicate Splits(m: Stamps, n: nat, a: string, b: string) {
    && a in m && b in m && a != b && m[a] <= m[b]
    && |Before(m, a, false)| < n <= |Before(m, b, true)|
  }

  /** No pair that can be split was used in the opposite order. */
  predicate UseFollowsStamps(m: Stamps, used: Stamps, n: nat) {
    forall a, b :: a in used && b in used && Splits(m, n, a, b) ==> used[a] <= used[b]
  }

  /** A set the eviction may choose: the n oldest by stamp. */
  ghost predicate Choice(m: Stamps, n: nat, victims: set<string>) {
    OldestOf(victims, m) && |victims| == n
  }

  lemma ChosenSplits(m: Stamps, n: nat, victims: set<string>, a: string, b: string)
    requires Choice(m, n, victims) && a in victims && b in m && b !in victims
    ensures Splits(m, n, a, b)
  {
    assert Before(m, a, false) <= victims - {a};
    SubsetCount(Before(m, a, false), victims - {a});
    assert victims <= Before(m, b, true);
    SubsetCount(victims, Before(m, b, true));
  }

  lemma SubsetCount<T>(a: set<T>, b: set<T>)
    requires a <= b
    ensures |a| <= |b|
  {
    assert b == a + (b - a);
  }

  ghost function Least(m: Stamps, ks: set<string>): (x: string)
    requires ks != {} && ks <= m.Keys
    ensures x in ks && forall y :: y in ks ==> m[x] <= m[y]
  {
    var y :| y in ks;
    if ks == {y} then y else
      var x := Least(m, ks - {y});
      if m[y] <= m[x] then y else x
  }

  /** A choice of the oldest can be extended one by one without ever taking b, as long as n others
      are no newer than b. */
  lemma {:induction false} Extended(m: Stamps, n: nat, b: string, start: set<string>) returns (victims: set<string>)
    requires OldestOf(start, m) && b in m && b !in start && |start| <= n <= |Before(m, b, true)|
    ensures Choice(m, n, victims) && start <= victims && b !in victims
    decreases n - |start|
  {
    if |start| == n {
      victims := start;
    } else {
      var rest := m.Keys - start - {b};
      assert Before(m, b, true) <= rest + start;
      if rest * Before(m, b, true) == {} {
        assert Before(m, b, true) <= start;
        SubsetCount(Before(m, b, true), start);
      }
      var y :| y in rest * Before(m, b, true);
      var x := Least(m, rest);
      assert OldestOf(start + {x}, m);
      victims := Extended(m, n, b, start + {x});
    }
  }

  /** Whatever way equal stamps are sorted, eviction by stamp is eviction by last use if and only if
      no pair that the cut can separate was used in the opposite order. */
  lemma EvictsByUseIff(m: Stamps, used: Stamps, n: nat)
    requires used.Keys == m.Keys
    ensures (forall victims :: Choice(m, n, victims) ==> OldestOf(victims, used)) <==> UseFollowsStamps(m, used, n)
  {
    if UseFollowsStamps(m, used, n) {
      forall victims | Choice(m, n, victims)
        ensures OldestOf(victims, used)
      {
        forall a, b | a in victims && b in used && b !in victims
          ensures used[a] <= used[b]
        {
          ChosenSplits(m, n, victims, a, b);
        }
      }
    } else {
      var a, b :| a in used && b in used && Splits(m, n, a, b) && used[a] > used[b];
      var start := Before(m, a, false) + {a};
      assert OldestOf(start, m);
      var victims := Extended(m, n, b, start);
      assert a in victims && b !in victims;
    }
  }
}
