/** Sorted lists of names, in the byte order of sort.Strings. */
module Names {

  predicate Less(a: string, b: string) {
    if b == "" then false
    else if a == "" then true
    else a[0] < b[0] || (a[0] == b[0] && Less(a[1..], b[1..]))
  }

  lemma {:induction false} LessTotal(a: string, b: string)
    ensures Less(a, b) || a == b || Less(b, a)
    ensures !(Less(a, b) && Less(b, a)) && !Less(a, a)
  {
    if a != "" && b != "" {
      LessTotal(a[1..], b[1..]);
      LessTotal(a[1..], a[1..]);
      assert a == [a[0]] + a[1..] && b == [b[0]] + b[1..];
    } else if a != "" {
      LessTotal(a[1..], a[1..]);
    }
  }

  lemma {:induction false} LessTransitive(a: string, b: string, c: string)
    requires Less(a, b) && Less(b, c)
    ensures Less(a, c)
  {
    if a != "" && a[0] == b[0] && b[0] == c[0] {
      LessTransitive(a[1..], b[1..], c[1..]);
    }
  }

  /** What the order is: a proper prefix comes first, otherwise the first difference decides. */
  lemma {:induction false} LessMeaning(a: string, b: string)
    ensures Less(a, b) <==> a < b || exists i :: 0 <= i < |a| && i < |b| && a[..i] == b[..i] && a[i] < b[i]
  {
    if a != "" && b != "" {
      LessMeaning(a[1..], b[1..]);
      assert a == [a[0]] + a[1..] && b == [b[0]] + b[1..];
      if a[0] < b[0] { assert a[..0] == b[..0]; }
      if i :| 0 <= i < |a[1..]| && i < |b[1..]| && a[1..][..i] == b[1..][..i] && a[1..][i] < b[1..][i] {
        assert a[..i + 1] == [a[0]] + a[1..][..i] && b[..i + 1] == [b[0]] + b[1..][..i];
        assert a[i + 1] < b[i + 1];
      }
      if i :| 0 < i < |a| && i < |b| && a[..i] == b[..i] && a[i] < b[i] {
        assert a[0] == a[..i][0] == b[0];
        assert a[1..][..i - 1] == a[..i][1..] && b[1..][..i - 1] == b[..i][1..];
        assert a[1..][i - 1] < b[1..][i - 1];
      }
    }
  }

  /** Strictly ascending, hence without duplicates. */
  predicate Ascending(names: seq<string>) {
    forall i, j :: 0 <= i < j < |names| ==> Less(names[i], names[j])
  }

  /** The sorted, duplicate-free list of a set of names. */
  ghost predicate Enumerates(names: seq<string>, keys: set<string>) {
    Ascending(names) && forall x :: x in names <==> x in keys
  }

  lemma InsertedAscending(names: seq<string>, i: nat, x: string)
    requires Ascending(names) && i <= |names|
    requires forall j :: 0 <= j < i ==> Less(names[j], x)
    requires forall j :: i <= j < |names| ==> Less(x, names[j])
    ensures Ascending(names[..i] + [x] + names[i..])
  {
    hide Less;
    var r := names[..i] + [x] + names[i..];
    forall a, b | 0 <= a < b < |r|
      ensures Less(r[a], r[b])
    {
      var a', b' := if a < i then a else a - 1, if b < i then b else b - 1;
      assert a != i ==> r[a] == names[a'];
      assert b != i ==> r[b] == names[b'];
    }
  }

  lemma LaterNames(names: seq<string>, i: nat, x: string)
    requires Ascending(names) && x !in names && i <= |names| && (i < |names| ==> !Less(names[i], x))
    ensures forall j :: i <= j < |names| ==> Less(x, names[j])
  {
    hide Less;
    forall j | i <= j < |names|
      ensures Less(x, names[j])
    {
      LessTotal(x, names[i]);
      if j > i { LessTransitive(x, names[i], names[j]); }
    }
  }

  /** Append and sort. */
  method InsertName(names: seq<string>, x: string) returns (r: seq<string>)
    requires Ascending(names) && x !in names
    ensures Ascending(r) && forall y :: y in r <==> y == x || y in names
  {
    hide Less, Ascending;
    var i := 0;
    while i < |names| && Less(names[i], x)
      invariant 0 <= i <= |names|
      invariant forall j :: 0 <= j < i ==> Less(names[j], x)
    {
      i := i + 1;
    }
    LaterNames(names, i, x);
    InsertedAscending(names, i, x);
    r := names[..i] + [x] + names[i..];
    assert names == names[..i] + names[i..];
  }

  /** Rebuild the list from the keys of a map. */
  method SortedNames(keys: set<string>) returns (names: seq<string>)
    ensures Enumerates(names, keys)
  {
    names := [];
    var rest := keys;
    while rest != {}
      invariant rest <= keys && Ascending(names)
      invariant forall x :: x in names <==> x in keys && x !in rest
    {
      var x :| x in rest;
      names := InsertName(names, x);
      rest := rest - {x};
    }
  }

  /** There is only one such list. */
  lemma {:induction false} EnumerationUnique(a: seq<string>, b: seq<string>, keys: set<string>)
    requires Enumerates(a, keys) && Enumerates(b, keys)
    ensures a == b
    decreases |a|
  {
    assert (a != [] ==> a[0] in a) && (b != [] ==> b[0] in b);
    if a != [] {
      FirstIsLeast(a, keys);
      FirstIsLeast(b, keys);
      LessTotal(a[0], b[0]);
      TailEnumerates(a, keys);
      TailEnumerates(b, keys);
      EnumerationUnique(a[1..], b[1..], keys - {a[0]});
    }
  }

  lemma FirstIsLeast(a: seq<string>, keys: set<string>)
    requires Enumerates(a, keys) && a != []
    ensures a[0] in keys && forall x :: x in keys && x != a[0] ==> Less(a[0], x)
  {
  }

  lemma TailEnumerates(a: seq<string>, keys: set<string>)
    requires Enumerates(a, keys) && a != []
    ensures Enumerates(a[1..], keys - {a[0]})
  {
    assert a == [a[0]] + a[1..];
    LessTotal(a[0], a[0]);
  }
}
