/** Used space: a number of files and a number of bytes, and sums of it over stored entries. */
module Usages {
  import opened Accounts
  import opened Store

  datatype Usage = Usage(files: int, bytes: int)

  /** The two quantities a ledger counts.  Sums are stated for one of them at a time. */
  datatype Measure = Files | Bytes

  function Part(files: int, bytes: int, k: Measure): int {
    if k.Files? then files else bytes
  }

  function Of(u: Usage, k: Measure): int {
    Part(u.files, u.bytes, k)
  }

  // ---------------------------------------------------------------------------------------------
  // Sums over a set of entries

  ghost function Sum(m: map<Loc, Usage>, ls: set<Loc>, k: Measure): int
    requires ls <= m.Keys
  {
    if ls == {} then 0 else
      var l :| l in ls;
      Of(m[l], k) + Sum(m, ls - {l}, k)
  }

  lemma {:induction false} SumRemove(m: map<Loc, Usage>, ls: set<Loc>, l: Loc, k: Measure)
    requires ls <= m.Keys && l in ls
    ensures Sum(m, ls, k) == Of(m[l], k) + Sum(m, ls - {l}, k)
  {
    var p :| p in ls && Sum(m, ls, k) == Of(m[p], k) + Sum(m, ls - {p}, k);
    if p != l {
      SumRemove(m, ls - {p}, l, k);
      assert ls - {p} - {l} == ls - {l} - {p};
      SumRemove(m, ls - {l}, p, k);
    }
  }

  lemma {:induction false} SumUnion(m: map<Loc, Usage>, ls: set<Loc>, js: set<Loc>, k: Measure)
    requires ls <= m.Keys && js <= m.Keys && ls !! js
    ensures Sum(m, ls + js, k) == Sum(m, ls, k) + Sum(m, js, k)
  {
    if js == {} {
      assert ls + js == ls;
    } else {
      var p :| p in js;
      SumRemove(m, ls + js, p, k);
      SumRemove(m, js, p, k);
      assert (ls + js) - {p} == ls + (js - {p});
      SumUnion(m, ls, js - {p}, k);
    }
  }

  lemma {:induction false} SumAgree(m: map<Loc, Usage>, n: map<Loc, Usage>, ls: set<Loc>, k: Measure)
    requires ls <= m.Keys && ls <= n.Keys && forall l :: l in ls ==> m[l] == n[l]
    ensures Sum(m, ls, k) == Sum(n, ls, k)
  {
    if ls != {} {
      var p :| p in ls;
      SumRemove(m, ls, p, k);
      SumRemove(n, ls, p, k);
      SumAgree(m, n, ls - {p}, k);
    }
  }

  /** Entries below s weigh the same when each is found at its place below d. */
  lemma {:induction false} SumRebased(m: map<Loc, Usage>, n: map<Loc, Usage>, ls: set<Loc>, s: Loc, d: Loc, k: Measure)
    requires ls <= m.Keys && forall l :: l in ls ==> Under(s, l) && Rebase(l, s, d) in n && n[Rebase(l, s, d)] == m[l]
    ensures (set l | l in ls :: After(l, s, d)) <= n.Keys
    ensures Sum(n, set l | l in ls :: After(l, s, d), k) == Sum(m, ls, k)
  {
    var js := set l | l in ls :: After(l, s, d);
    if ls == {} {
      assert js == {};
    } else {
      var p :| p in ls;
      var p' := After(p, s, d);
      SumRebased(m, n, ls - {p}, s, d, k);
      assert forall l :: l in ls ==> Rebase(Rebase(l, s, d), d, s) == l;
      assert js - {p'} == set l | l in ls - {p} :: After(l, s, d);
      SumRemove(m, ls, p, k);
      SumRemove(n, js, p', k);
    }
  }

  // ---------------------------------------------------------------------------------------------
  // Totals over storage areas

  function Share(c: Container, amount: int, cs: set<Container>): int {
    if c in cs then amount else 0
  }

  function LocsIn(m: map<Loc, Usage>, cs: set<Container>): set<Loc> {
    set l | l in m && l.container in cs
  }

  /** The usage of all the entries stored in the given areas. */
  ghost function Total(m: map<Loc, Usage>, cs: set<Container>, k: Measure): int {
    Sum(m, LocsIn(m, cs), k)
  }

  /** Removing one entry takes that entry out of the total. */
  lemma TotalRemove(m: map<Loc, Usage>, l: Loc, cs: set<Container>, k: Measure)
    requires l in m
    ensures Total(m - {l}, cs, k) == Total(m, cs, k) - Share(l.container, Of(m[l], k), cs)
  {
    var ls := LocsIn(m, cs);
    assert LocsIn(m - {l}, cs) == ls - {l};
    SumAgree(m, m - {l}, ls - {l}, k);
    if l in ls {
      SumRemove(m, ls, l, k);
    } else {
      assert ls - {l} == ls;
    }
  }

  /** Setting one entry adds it to the total, in place of what the entry was. */
  lemma TotalPut(m: map<Loc, Usage>, l: Loc, v: Usage, cs: set<Container>, k: Measure)
    ensures Total(m[l := v], cs, k) ==
            Total(m, cs, k) + Share(l.container, Of(v, k), cs) - Share(l.container, if l in m then Of(m[l], k) else 0, cs)
  {
    TotalRemove(m[l := v], l, cs, k);
    assert m[l := v] - {l} == m - {l};
    if l in m {
      TotalRemove(m, l, cs, k);
    } else {
      assert m - {l} == m;
    }
  }

  /** Disjoint areas add up. */
  lemma TotalSplit(m: map<Loc, Usage>, cs: set<Container>, cs': set<Container>, k: Measure)
    requires cs !! cs'
    ensures Total(m, cs + cs', k) == Total(m, cs, k) + Total(m, cs', k)
  {
    assert LocsIn(m, cs + cs') == LocsIn(m, cs) + LocsIn(m, cs');
    SumUnion(m, LocsIn(m, cs), LocsIn(m, cs'), k);
  }

  function LocsBelow(m: map<Loc, Usage>, s: Loc): set<Loc> {
    set l | l in m && Under(s, l)
  }

  /** The usage of everything at or below s. */
  ghost function Subtree(m: map<Loc, Usage>, s: Loc, k: Measure): int {
    Sum(m, LocsBelow(m, s), k)
  }

  ghost function Staying(m: map<Loc, Usage>, s: Loc, cs: set<Container>): set<Loc> {
    set l | l in m && !Under(s, l) && l.container in cs
  }

  lemma TotalWithSubtree(m: map<Loc, Usage>, s: Loc, cs: set<Container>, k: Measure)
    ensures Total(m, cs, k) == Sum(m, Staying(m, s, cs), k) + Share(s.container, Subtree(m, s, k), cs)
  {
    var stay, moved := Staying(m, s, cs), LocsBelow(m, s);
    if s.container in cs {
      assert LocsIn(m, cs) == stay + moved;
      SumUnion(m, stay, moved, k);
    } else {
      assert LocsIn(m, cs) == stay;
    }
  }

  ghost function Placed(m: map<Loc, Usage>, s: Loc, d: Loc): set<Loc> {
    set l | l in LocsBelow(m, s) :: After(l, s, d)
  }

  lemma PlacedBelow(m: map<Loc, Usage>, s: Loc, d: Loc, k: Measure)
    ensures Placed(m, s, d) == Moved(m, s, d).Keys
    ensures forall l :: l in Placed(m, s, d) ==> Under(d, l)
    ensures Sum(MoveMap(m, s, d), Placed(m, s, d), k) == Subtree(m, s, k)
  {
    assert forall l :: l in Moved(m, s, d) ==> l == After(Rebase(l, d, s), s, d);
    SumRebased(m, MoveMap(m, s, d), LocsBelow(m, s), s, d, k);
  }

  lemma LocsAfterMove(m: map<Loc, Usage>, s: Loc, d: Loc, cs: set<Container>)
    requires forall l :: l in m ==> !Under(d, l)
    ensures Staying(m, s, cs) !! Placed(m, s, d)
    ensures d.container in cs ==> LocsIn(MoveMap(m, s, d), cs) == Staying(m, s, cs) + Placed(m, s, d)
    ensures d.container !in cs ==> LocsIn(MoveMap(m, s, d), cs) == Staying(m, s, cs)
  {
    PlacedBelow(m, s, d, Files);
    assert MoveMap(m, s, d).Keys == (set l | l in m && !Under(s, l)) + Placed(m, s, d);
  }

  lemma TotalAfterMove(m: map<Loc, Usage>, s: Loc, d: Loc, cs: set<Container>, k: Measure)
    requires forall l :: l in m ==> !Under(d, l)
    ensures Total(MoveMap(m, s, d), cs, k) == Sum(m, Staying(m, s, cs), k) + Share(d.container, Subtree(m, s, k), cs)
  {
    var n, stay := MoveMap(m, s, d), Staying(m, s, cs);
    LocsAfterMove(m, s, d, cs);
    PlacedBelow(m, s, d, k);
    SumAgree(m, n, stay, k);
    if d.container in cs {
      SumUnion(n, stay, Placed(m, s, d), k);
    } else {
      assert LocsIn(n, cs) == stay;
    }
  }

  /** Moving a subtree takes its weight out of the source area and puts it into the target area. */
  lemma TotalMoveMap(m: map<Loc, Usage>, s: Loc, d: Loc, cs: set<Container>, k: Measure)
    requires forall l :: l in m ==> !Under(d, l)
    ensures Total(MoveMap(m, s, d), cs, k) ==
            Total(m, cs, k) - Share(s.container, Subtree(m, s, k), cs) + Share(d.container, Subtree(m, s, k), cs)
  {
    TotalWithSubtree(m, s, cs, k);
    TotalAfterMove(m, s, d, cs, k);
  }

  // ---------------------------------------------------------------------------------------------
  // Scans

  /** What a full scan counts: one file and its size for every regular file. */
  function Scanned(files: map<Loc, nat>): map<Loc, Usage> {
    map l | l in files :: Usage(1, files[l])
  }

  lemma ScannedMoves(files: map<Loc, nat>, s: Loc, d: Loc)
    ensures Scanned(MoveMap(files, s, d)) == MoveMap(Scanned(files), s, d)
  {
    hide MoveMap;
    var m := Scanned(files);
    forall l | l in MoveMap(files, s, d)
      ensures l in MoveMap(m, s, d) && MoveMap(m, s, d)[l] == Usage(1, MoveMap(files, s, d)[l])
    {
      var _ := MovedFrom(files, m, s, d, l);
    }
    forall l | l in MoveMap(m, s, d)
      ensures l in MoveMap(files, s, d)
    {
      var _ := MovedFrom(m, files, s, d, l);
    }
  }

  /** A moved subtree weighs as much at its new place as it did at its old one. */
  lemma SubtreeAfterMove(files: map<Loc, nat>, s: Loc, d: Loc, k: Measure)
    requires forall l :: l in files ==> !Under(d, l)
    ensures Subtree(Scanned(MoveMap(files, s, d)), d, k) == Subtree(Scanned(files), s, k)
  {
    var m := Scanned(files);
    ScannedMoves(files, s, d);
    PlacedBelow(m, s, d, k);
    assert LocsBelow(MoveMap(m, s, d), d) == Placed(m, s, d);
  }

  ghost function DiskUsage(fs: Fs, cs: set<Container>, k: Measure): int {
    Total(Scanned(fs.files), cs, k)
  }
}
