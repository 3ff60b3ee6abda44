/** The per-source buckets of the rate limiter (common/ratelimiter.go).  What a bucket itself holds
    is not modelled; the stamp is the activity time stored with it. */
module RateLimiter {
  import opened Eviction

  /** A use of a bucket: it was added, or something was reserved from it. */
  datatype Use = Added(source: string, at: int) | Reserved(source: string, at: int)

  /** The time of the last addition, and of the last use of either kind; 0 when there is none. */
  function LastAdded(log: seq<Use>, source: string): int {
    if log == [] then 0
    else
      var last := log[|log| - 1];
      if last.Added? && last.source == source then last.at else LastAdded(log[..|log| - 1], source)
  }

  function LastUsed(log: seq<Use>, source: string): int {
    if log == [] then 0
    else
      var last := log[|log| - 1];
      if last.source == source then last.at else LastUsed(log[..|log| - 1], source)
  }

  function LastUses(buckets: Stamps, log: seq<Use>): Stamps {
    map s | s in buckets :: LastUsed(log, s)
  }

  lemma Logged(log: seq<Use>, use: Use, source: string)
    ensures LastAdded(log + [use], source) == if use.Added? && use.source == source then use.at else LastAdded(log, source)
    ensures LastUsed(log + [use], source) == if use.source == source then use.at else LastUsed(log, source)
  {
    assert (log + [use])[..|log|] == log;
  }

  class SourceBuckets {
    const hardLimit: int
    const softLimit: int
    var buckets: Stamps

    /** Every use so far, in order. */
    ghost var log: seq<Use>

    /** In every state the stored stamp is the time at which the bucket was last added. */
    ghost predicate Valid()
      reads this
    {
      && 0 < softLimit < hardLimit && |buckets| <= hardLimit
      && forall s :: s in buckets ==> buckets[s] == LastAdded(log, s)
    }

    constructor (hardLimit: int, softLimit: int)
      requires 0 < softLimit < hardLimit
      ensures Valid() && buckets == map[] && log == [] && this.hardLimit == hardLimit && this.softLimit == softLimit
    {
      this.hardLimit, this.softLimit, this.buckets, this.log := hardLimit, softLimit, map[], [];
    }

    /** sourceBuckets.reserve: the activity time is set on a copy of the entry, so a use that adds
        nothing leaves the stored stamp behind. */
    method Reserve(source: string, now: int) returns (found: bool)
      requires Valid()
      modifies this`log
      ensures Valid() && (found <==> source in buckets)
      ensures log == if found then old(log) + [Reserved(source, now)] else old(log)
      ensures found ==> LastUsed(log, source) == now && buckets[source] == LastAdded(old(log), source)
    {
      forall s: string {
        Logged(log, Reserved(source, now), s);
      }
      if source in buckets {
        var src := buckets[source];
        src := now;
        log := log + [Reserved(source, now)];
        return true;
      }
      return false;
    }

    /** sourceBuckets.cleanup: a full table is cut to exactly the soft limit, oldest stamps first.
        By EvictsByUseIff this is the order of last use exactly when that follows the stamps. */
    method Cleanup()
      requires Valid()
      modifies this`buckets
      ensures Valid() && |buckets| < hardLimit
      ensures buckets.Keys <= old(buckets).Keys && forall s :: s in buckets ==> buckets[s] == old(buckets)[s]
      ensures old(|buckets|) < hardLimit ==> buckets == old(buckets)
      ensures old(|buckets|) >= hardLimit ==>
                var n := old(|buckets|) - softLimit;
                var victims, uses := old(buckets).Keys - buckets.Keys, LastUses(old(buckets), log);
                && |buckets| == softLimit && Choice(old(buckets), n, victims)
                && (UseFollowsStamps(old(buckets), uses, n) ==> OldestOf(victims, uses))
    {
      hide LastAdded, LastUsed, UseFollowsStamps;
      if |buckets| >= hardLimit {
        ghost var was := buckets;
        var numToRemove := |buckets| - softLimit;
        var victims := Oldest(buckets, numToRemove);
        assert (buckets - victims).Keys == buckets.Keys - victims;
        assert |buckets.Keys - victims| == |buckets.Keys| - |victims|;
        buckets := buckets - victims;
        assert was.Keys - buckets.Keys == victims;
        EvictsByUseIff(was, LastUses(was, log), numToRemove);
        assert Choice(was, numToRemove, victims);
      }
    }

    /** sourceBuckets.addAndReserve: the table never exceeds the hard limit. */
    method AddAndReserve(source: string, now: int)
      requires Valid()
      modifies this`buckets, this`log
      ensures Valid() && source in buckets && buckets[source] == now && log == old(log) + [Added(source, now)]
      ensures forall s :: s in buckets && s != source ==> s in old(buckets) && buckets[s] == old(buckets)[s]
      ensures old(|buckets|) < hardLimit ==> buckets == old(buckets)[source := now]
      ensures old(|buckets|) >= hardLimit ==> softLimit <= |buckets| <= softLimit + 1
      ensures forall v, s :: v in old(buckets) && v !in buckets && s in old(buckets) && s in buckets ==> s == source || old(buckets)[v] <= buckets[s]
    {
      hide LastAdded, LastUsed, UseFollowsStamps;
      Cleanup();
      forall s: string {
        Logged(log, Added(source, now), s);
      }
      assert buckets[source := now].Keys == buckets.Keys + {source};
      assert |buckets.Keys + {source}| <= |buckets.Keys| + 1;
      buckets := buckets[source := now];
      log := log + [Added(source, now)];
    }
  }

  lemma ExampleUses()
    ensures var log := [Added("a", 1), Added("b", 2), Reserved("a", 3)];
            LastUsed(log, "a") == 3 && LastUsed(log, "b") == 2
  {
    Logged([Added("a", 1), Added("b", 2)], Reserved("a", 3), "a");
    Logged([Added("a", 1), Added("b", 2)], Reserved("a", 3), "b");
    Logged([Added("a", 1)], Added("b", 2), "b");
    assert [Added("a", 1), Added("b", 2)] + [Reserved("a", 3)] == [Added("a", 1), Added("b", 2), Reserved("a", 3)];
    assert [Added("a", 1)] + [Added("b", 2)] == [Added("a", 1), Added("b", 2)];
  }

  /** A failing case: a bucket that was used last is evicted, because it was added first. */
  method ActiveBucketEvicted() returns (b: SourceBuckets)
    ensures b.Valid() && "a" !in b.buckets && "b" in b.buckets
    ensures LastUsed(b.log, "a") == 3 && LastUsed(b.log, "b") == 2
  {
    hide LastUsed, LastAdded, UseFollowsStamps;
    ExampleUses();
    b := new SourceBuckets(2, 1);
    b.AddAndReserve("a", 1);
    b.AddAndReserve("b", 2);
    assert b.buckets == map["a" := 1, "b" := 2] && b.buckets.Keys == {"a", "b"};
    var _ := b.Reserve("a", 3);
    assert b.log == [Added("a", 1), Added("b", 2), Reserved("a", 3)];
    b.Cleanup();
  }
}
