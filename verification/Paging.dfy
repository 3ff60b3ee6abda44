/** Paged listings of the memory provider and the loop that collects all pages
    (dataprovider/memory.go, httpd/webadmin.go). */
module Paging {

  function Reversed<T>(s: seq<T>): (r: seq<T>)
    ensures |r| == |s| && forall i :: 0 <= i < |s| ==> r[i] == s[|s| - 1 - i]
  {
    if s == [] then [] else Reversed(s[1..]) + [s[0]]
  }

  /** The whole listing in the requested order. */
  function Listing<T>(names: seq<T>, ascending: bool): (r: seq<T>)
    ensures |r| == |names|
  {
    if ascending then names else Reversed(names)
  }

  function Min(a: int, b: int): int {
    if a <= b then a else b
  }

  /** The page of at most `limit` entries after the first `offset`. */
  function Page<T>(all: seq<T>, limit: int, offset: nat): seq<T> {
    if limit <= 0 then [] else all[Min(offset, |all|)..Min(offset + limit, |all|)]
  }

  /** The ascending loop: one counter skips, the length of the result stops. */
  method GetAscending<T>(names: seq<T>, limit: int, offset: nat) returns (page: seq<T>)
    requires limit > 0
    ensures page == Page(names, limit, offset)
  {
    page := [];
    var itNum := 0;
    for i := 0 to |names|
      invariant itNum == i && |page| < limit
      invariant page == names[Min(offset, i)..i]
    {
      itNum := itNum + 1;
      if itNum <= offset {
        continue;
      }
      page := page + [names[i]];
      if |page| >= limit {
        break;
      }
    }
  }

  /** The descending loop. */
  method GetDescending<T>(names: seq<T>, limit: int, offset: nat) returns (page: seq<T>)
    requires limit > 0
    ensures page == Page(Reversed(names), limit, offset)
  {
    hide Reversed;
    page := [];
    ghost var all := Reversed(names);
    var itNum := 0;
    for i := |names| downto 0
      invariant itNum == |names| - i && |page| < limit
      invariant page == all[Min(offset, itNum)..itNum]
    {
      itNum := itNum + 1;
      if itNum <= offset {
        continue;
      }
      page := page + [names[i]];
      if |page| >= limit {
        break;
      }
    }
  }

  /** MemoryProvider.getUsers and getFolders. */
  method GetPage<T>(names: seq<T>, limit: int, offset: nat, ascending: bool) returns (page: seq<T>)
    ensures page == Page(Listing(names, ascending), limit, offset)
  {
    page := [];
    if limit <= 0 {
      return;
    }
    if ascending {
      page := GetAscending(names, limit, offset);
    } else {
      page := GetDescending(names, limit, offset);
    }
  }

  /** What the collecting loop has after n rounds without leaving. */
  function Collected<T>(all: seq<T>, limit: int, n: nat): seq<T> {
    if n == 0 then [] else
      var before := Collected(all, limit, n - 1);
      before + Page(all, limit, |before|)
  }

  /** The loop leaves after the round that follows n full ones: its page is shorter than the limit. */
  predicate LeavesAfter<T>(all: seq<T>, limit: int, n: nat) {
    |Page(all, limit, |Collected(all, limit, n)|)| < limit
  }

  /** One round takes the next entries, up to the limit or the end. */
  lemma OneRound<T>(all: seq<T>, limit: int, c: seq<T>)
    requires c <= all && limit >= 1
    ensures |Page(all, limit, |c|)| == Min(limit, |all| - |c|)
    ensures c + Page(all, limit, |c|) == all[..Min(|c| + limit, |all|)]
  {
  }

  lemma {:induction false} CollectedIsPrefix<T>(all: seq<T>, limit: int, n: nat)
    ensures Collected(all, limit, n) <= all
    ensures limit >= 1 ==> |Collected(all, limit, n)| >= Min(n, |all|)
  {
    hide Page;
    if n > 0 {
      CollectedIsPrefix(all, limit, n - 1);
      if limit >= 1 { OneRound(all, limit, Collected(all, limit, n - 1)); } else { EmptyPage(all, limit, |Collected(all, limit, n - 1)|); }
    }
  }

  lemma EmptyPage<T>(all: seq<T>, limit: int, offset: nat)
    requires limit <= 0
    ensures Page(all, limit, offset) == []
  {
  }

  /** The collecting loop ends if and only if the limit is positive, and then it has everything.  The
      server gets to the loop only with limits of at least 0: it cannot make room for a negative
      number of entries. */
  lemma LoopEndsIff<T>(all: seq<T>, limit: int)
    ensures (exists n: nat :: LeavesAfter(all, limit, n)) <==> limit >= 1
    ensures forall n: nat :: LeavesAfter(all, limit, n) ==> Collected(all, limit, n + 1) == all
  {
    hide Page;
    forall n: nat
      ensures LeavesAfter(all, limit, n) ==> limit >= 1 && Collected(all, limit, n + 1) == all
    {
      CollectedIsPrefix(all, limit, n);
      if limit >= 1 { OneRound(all, limit, Collected(all, limit, n)); } else { EmptyPage(all, limit, |Collected(all, limit, n)|); }
    }
    if limit >= 1 {
      CollectedIsPrefix(all, limit, |all|);
      OneRound(all, limit, Collected(all, limit, |all|));
      assert LeavesAfter(all, limit, |all|);
    }
  }

  /** A failing case: with a limit of 0, which the query string may ask for, no number of rounds
      ends the loop. */
  lemma ZeroLimitNeverEnds<T>(all: seq<T>, n: nat)
    ensures !LeavesAfter(all, 0, n)
  {
  }

  /** handleGetWebUsers and handleWebGetFolders: for every positive limit the loop ends and has every
      entry exactly once, in order.  In descending order the pages give the reversed listing. */
  method CollectAll<T>(names: seq<T>, limit: int, ascending: bool) returns (collected: seq<T>)
    requires limit >= 1
    ensures ascending ==> collected == names
    ensures !ascending ==> |collected| == |names| && forall i :: 0 <= i < |names| ==> collected[i] == names[|names| - 1 - i]
  {
    collected := [];
    ghost var all := Listing(names, ascending);
    while true
      invariant collected <= all
      decreases |names| - |collected|
    {
      var page := GetPage(names, limit, |collected|, ascending);
      collected := collected + page;
      if |page| < limit {
        break;
      }
    }
  }
}
