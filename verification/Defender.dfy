/** The defender: scores of hosts over a sliding window, bans, and bounded tables
    (common/defender.go).  Times are in nanoseconds and each call sees one time. */
module Defender {
  import opened Eviction

  const MINUTE := 60_000_000_000

  datatype DefenderConfig = DefenderConfig(
    banTime: int, banTimeIncrement: int, threshold: int, scoreInvalid: int, scoreValid: int, scoreRateExceeded: int,
    observationTime: int, entriesSoftLimit: int, entriesHardLimit: int)
  {
    /** DefenderConfig.validate. */
    predicate Valid() {
      && scoreInvalid < threshold && scoreValid < threshold && scoreRateExceeded < threshold
      && banTime > 0 && banTimeIncrement > 0 && observationTime > 0
      && 0 < entriesSoftLimit < entriesHardLimit
    }
  }

  datatype HostEvent = HostEventLoginFailed | HostEventUserNotFound | HostEventNoLoginTried | HostEventRateExceeded

  datatype Event = Event(time: int, score: int)

  datatype HostScore = HostScore(totalScore: int, events: seq<Event>)

  function ScoreOf(cfg: DefenderConfig, e: HostEvent): int {
    match e
    case HostEventLoginFailed => cfg.scoreValid
    case HostEventRateExceeded => cfg.scoreRateExceeded
    case HostEventUserNotFound => cfg.scoreInvalid
    case HostEventNoLoginTried => cfg.scoreInvalid
  }

  /** How much longer a banned host is kept out when it tries again: a share of the ban time, at
      least a minute. */
  function Extension(cfg: DefenderConfig): (r: int)
    requires cfg.Valid()
    ensures r >= MINUTE && (cfg.banTime * cfg.banTimeIncrement >= 100 ==> r == cfg.banTime * cfg.banTimeIncrement / 100 * MINUTE)
  {
    assert cfg.banTime * cfg.banTimeIncrement > 0;
    var share := cfg.banTime * cfg.banTimeIncrement / 100;
    if share == 0 then MINUTE else share * MINUTE
  }

  // ---------------------------------------------------------------------------------------------
  // The window

  predicate Observed(e: Event, span: int, now: int) {
    e.time + span > now
  }

  /** The events still in the observation window. */
  function Window(es: seq<Event>, span: int, now: int): seq<Event> {
    if es == [] then []
    else if Observed(es[0], span, now) then [es[0]] + Window(es[1..], span, now)
    else Window(es[1..], span, now)
  }

  function Sum(es: seq<Event>): int {
    if es == [] then 0 else es[0].score + Sum(es[1..])
  }

  /** The score of a full record of events: everything in the window counts. */
  function WindowScore(es: seq<Event>, span: int, now: int): int {
    Sum(Window(es, span, now))
  }

  lemma {:induction false} WindowConcat(a: seq<Event>, b: seq<Event>, span: int, now: int)
    ensures Window(a + b, span, now) == Window(a, span, now) + Window(b, span, now)
  {
    if a == [] {
      assert a + b == b;
    } else {
      assert (a + b)[1..] == a[1..] + b;
      WindowConcat(a[1..], b, span, now);
    }
  }

  lemma {:induction false} SumConcat(a: seq<Event>, b: seq<Event>)
    ensures Sum(a + b) == Sum(a) + Sum(b)
  {
    if a == [] {
      assert a + b == b;
    } else {
      assert (a + b)[1..] == a[1..] + b;
      SumConcat(a[1..], b);
    }
  }

  /** What has left the window never comes back: forgetting it changes no later window. */
  lemma {:induction false} WindowForgets(es: seq<Event>, span: int, t: int, now: int)
    requires t <= now
    ensures Window(Window(es, span, t), span, now) == Window(es, span, now)
  {
    if es != [] {
      WindowForgets(es[1..], span, t, now);
      if Observed(es[0], span, t) {
        assert Window(es, span, t)[1..] == Window(es[1..], span, t);
      }
    }
  }

  /** A stored list of events stands for a full record if no window from `since` on tells them apart. */
  ghost predicate StandsFor(stored: seq<Event>, record: seq<Event>, span: int, since: int) {
    forall now :: since <= now ==> Window(stored, span, now) == Window(record, span, now)
  }

  lemma StandsForAppended(stored: seq<Event>, record: seq<Event>, e: Event, span: int, since: int, t: int)
    requires StandsFor(stored, record, span, since) && since <= t
    ensures StandsFor(Window(stored + [e], span, t), record + [e], span, t)
    ensures WindowScore(stored + [e], span, t) == WindowScore(record + [e], span, t)
  {
    forall now | t <= now
      ensures Window(Window(stored + [e], span, t), span, now) == Window(record + [e], span, now)
    {
      WindowForgets(stored + [e], span, t, now);
      WindowConcat(stored, [e], span, now);
      WindowConcat(record, [e], span, now);
    }
    WindowForgets(stored + [e], span, t, t);
  }

  /** The loop of AddEvent: the slice is compacted in place while its score is summed. */
  method Compact(events: array<Event>, span: int, now: int) returns (idx: nat, total: int)
    modifies events
    ensures idx <= events.Length
    ensures events[..idx] == Window(old(events[..]), span, now)
    ensures total == WindowScore(old(events[..]), span, now)
  {
    idx, total := 0, 0;
    ghost var was := events[..];
    for i := 0 to events.Length
      invariant idx <= i
      invariant events[i..] == was[i..]
      invariant events[..idx] == Window(was[..i], span, now)
      invariant total == Sum(events[..idx])
    {
      var event := events[i];
      assert was[..i + 1] == was[..i] + [event];
      WindowConcat(was[..i], [event], span, now);
      if Observed(event, span, now) {
        ghost var kept := events[..idx];
        events[idx] := event;
        assert events[..idx + 1] == kept + [event];
        SumConcat(kept, [event]);
        total := total + event.score;
        idx := idx + 1;
      }
    }
    assert was[..events.Length] == was;
  }

  method AppendAndCompact(events: seq<Event>, ev: Event, span: int, now: int) returns (kept: seq<Event>, total: int)
    ensures kept == Window(events + [ev], span, now) && total == WindowScore(events + [ev], span, now)
  {
    var all := events + [ev];
    var a := new Event[|all|](i requires 0 <= i < |all| => all[i]);
    assert a[..] == all;
    var idx;
    idx, total := Compact(a, span, now);
    kept := a[..idx];
  }

  method ScoreEvents(events: seq<Event>, span: int, now: int) returns (score: int)
    ensures score == WindowScore(events, span, now)
  {
    score := 0;
    for i := 0 to |events|
      invariant score == WindowScore(events[..i], span, now)
    {
      assert events[..i + 1] == events[..i] + [events[i]];
      WindowConcat(events[..i], [events[i]], span, now);
      SumConcat(Window(events[..i], span, now), Window([events[i]], span, now));
      if Observed(events[i], span, now) {
        score := score + events[i].score;
      }
    }
    assert events[..|events|] == events;
  }

  // ---------------------------------------------------------------------------------------------
  // The defender

  function Expired(bans: Stamps, now: int): set<string> {
    set ip | ip in bans && bans[ip] < now
  }

  function Live(bans: Stamps, now: int): set<string> {
    set ip | ip in bans && bans[ip] >= now
  }

  /** What is left of a table of bans that was too large: live bans only, at most the soft limit
      plus as many as had expired, and none of them due earlier than a live ban that went. */
  ghost predicate CutBans(was: Stamps, bans: Stamps, softLimit: int, now: int) {
    var room := softLimit + |Expired(was, now)|;
    && bans.Keys <= Live(was, now)
    && |bans| == (if |Live(was, now)| <= room then |Live(was, now)| else room)
    && (forall v, s :: v in Live(was, now) && v !in bans && s in bans && s in was ==> was[v] <= bans[s])
  }

  /** What is left of any table of bans after a cleanup. */
  ghost predicate BansLeft(cfg: DefenderConfig, was: Stamps, bans: Stamps, now: int) {
    && bans.Keys <= was.Keys && (forall h :: h in bans ==> bans[h] == was[h])
    && if |was| <= cfg.entriesHardLimit then bans == was else CutBans(was, bans, cfg.entriesSoftLimit, now)
  }

  function DueAfter(cfg: DefenderConfig, now: int): int {
    now + cfg.banTime * MINUTE
  }

  /** The table of bans after a new ban. */
  ghost predicate BansAfter(cfg: DefenderConfig, was: Stamps, ip: string, now: int, bans: Stamps) {
    BansLeft(cfg, was[ip := DueAfter(cfg, now)], bans, now)
  }

  /** No host that stays was last seen before a host that goes. */
  ghost predicate KeepsNewest(was: map<string, HostScore>, hosts: map<string, HostScore>) {
    forall v, s :: v in was && v !in hosts && s in hosts ==> LastSeen(was[v]) <= LastSeen(hosts[s])
  }

  /** The table of hosts after a cleanup: the same, or exactly the soft limit of the newest. */
  ghost predicate HostsLeft(cfg: DefenderConfig, was: map<string, HostScore>, hosts: map<string, HostScore>) {
    && hosts.Keys <= was.Keys && (forall h :: h in hosts ==> hosts[h] == was[h]) && KeepsNewest(was, hosts)
    && |hosts| == if |was| > cfg.entriesHardLimit then cfg.entriesSoftLimit else |was|
  }

  /** Some event is stored and none is later than t. */
  predicate SeenUntil(hs: HostScore, t: int) {
    hs.events != [] && forall i :: 0 <= i < |hs.events| ==> hs.events[i].time <= t
  }

  /** A host stands for its full record: no later window tells them apart, the last event is the
      same, and no event is later than the clock. */
  ghost predicate HostTracks(hs: HostScore, es: seq<Event>, span: int, clock: int) {
    && StandsFor(hs.events, es, span, clock) && SeenUntil(hs, clock)
    && es != [] && LastSeen(hs) == es[|es| - 1].time
  }

  ghost predicate Tracks(hosts: map<string, HostScore>, record: map<string, seq<Event>>, span: int, clock: int) {
    && hosts.Keys == record.Keys
    && forall ip :: ip in hosts ==> HostTracks(hosts[ip], record[ip], span, clock)
  }

  class MemoryDefender {
    const cfg: DefenderConfig
    var hosts: map<string, HostScore>
    var banned: map<string, int>

    /** Every event of a host since it was last banned or evicted, and the time of the last call. */
    ghost var record: map<string, seq<Event>>
    ghost var clock: int

    function Span(): int {
      cfg.observationTime * MINUTE
    }

    ghost predicate Valid()
      reads this
    {
      && cfg.Valid()
      && |hosts| <= cfg.entriesHardLimit && |banned| <= cfg.entriesHardLimit
      && hosts.Keys == record.Keys && Tracks(hosts, record, Span(), clock)
    }

    /** The full record of a host, empty when there is none. */
    ghost function RecordOf(ip: string): seq<Event>
      reads this
    {
      if ip in record then record[ip] else []
    }

    constructor (cfg: DefenderConfig, now: int)
      requires cfg.Valid()
      ensures Valid() && hosts == map[] && banned == map[] && record == map[] && clock == now && this.cfg == cfg
    {
      this.cfg, this.hosts, this.banned, this.record, this.clock := cfg, map[], map[], map[], now;
    }

    /** The score is the sum over the whole record of what is still in the window. */
    method GetScore(ip: string, now: int) returns (score: int)
      requires Valid() && clock <= now
      ensures score == WindowScore(RecordOf(ip), Span(), now)
    {
      score := 0;
      if ip in hosts {
        score := ScoreEvents(hosts[ip].events, Span(), now);
        assert Window(hosts[ip].events, Span(), now) == Window(record[ip], Span(), now);
      }
    }

    /** memoryDefender.cleanupHosts: exactly the soft limit of hosts stays, none of them with an
        older last event than a host that goes. */
    method CleanupHosts()
      requires |hosts| <= cfg.entriesHardLimit + 1 && cfg.Valid() && Tracks(hosts, record, Span(), clock)
      modifies this`hosts, this`record
      ensures HostsLeft(cfg, old(hosts), hosts) && hosts.Keys == record.Keys && Tracks(hosts, record, Span(), clock)
      ensures forall ip :: ip in record ==> ip in old(record) && record[ip] == old(record)[ip]
    {
      hide StandsFor, SeenUntil;
      if |hosts| > cfg.entriesHardLimit {
        var stamps := StampsOf(hosts);
        var numToRemove := |hosts| - cfg.entriesSoftLimit;
        var victims := Oldest(stamps, numToRemove);
        RemoveSize(hosts, victims);
        hosts := hosts - victims;
        record := record - victims;
      }
    }

    /** memoryDefender.cleanupBanned: expired bans go; of the others at most the soft limit plus as
        many as had expired stay, because the list that is cut still holds the expired ones. */
    method CleanupBanned(now: int)
      requires |banned| <= cfg.entriesHardLimit + 1 && cfg.Valid()
      modifies this`banned
      ensures |banned| <= cfg.entriesHardLimit && BansLeft(cfg, old(banned), banned, now)
    {
      if |banned| > cfg.entriesHardLimit {
        ghost var was := banned;
        var stamps := banned;
        var expired := Expired(banned, now);
        banned := banned - expired;
        assert banned.Keys == was.Keys - expired == Live(was, now);
        assert |was.Keys| == |banned.Keys| + |expired|;
        var numToRemove := |banned| - cfg.entriesSoftLimit;
        if numToRemove <= 0 {
          return;
        }
        var victims := Oldest(stamps, numToRemove);
        LiveVictims(stamps, expired, victims, now);
        assert (banned - victims).Keys == banned.Keys - victims;
        assert |banned.Keys - victims| == |banned.Keys| - |banned.Keys * victims|;
        banned := banned - victims;
      }
    }

    /** memoryDefender.IsBanned, with its block list: a ban that is still running is extended. */
    method IsBanned(ip: string, blocked: bool, now: int) returns (r: bool)
      requires Valid()
      modifies this`banned
      ensures Valid()
      ensures r <==> (ip in old(banned) && old(banned)[ip] > now) || blocked
      ensures banned == if ip in old(banned) && old(banned)[ip] > now then old(banned)[ip := old(banned)[ip] + Extension(cfg)]
                        else old(banned)
    {
      if ip in banned {
        if banned[ip] > now {
          var increment := cfg.banTime * cfg.banTimeIncrement / 100;
          if increment == 0 {
            increment := increment + 1;
          }
          assert banned[ip := banned[ip] + increment * MINUTE].Keys == banned.Keys;
          banned := banned[ip := banned[ip] + increment * MINUTE];
          return true;
        }
      }
      return blocked;
    }

    method Ban(ip: string, now: int)
      requires Valid() && ip in hosts
      modifies this`hosts, this`banned, this`record
      ensures Valid() && hosts == old(hosts) - {ip} && record == old(record) - {ip}
      ensures BansAfter(cfg, old(banned), ip, now, banned)
    {
      hide Tracks, BansLeft, DueAfter;
      TracksFewer(hosts, record, {ip}, Span(), clock);
      OneMoreBan(banned, ip, DueAfter(cfg, now));
      OneHostLess(hosts, ip);
      banned := banned[ip := DueAfter(cfg, now)];
      hosts := hosts - {ip};
      record := record - {ip};
      CleanupBanned(now);
    }

    /** A further event of a known host. */
    method AddToHost(ip: string, ev: Event, now: int)
      requires Valid() && clock <= now && ip in hosts && ev.time == now
      modifies this
      ensures Valid() && clock == now
      ensures var full := old(record)[ip] + [ev];
              if WindowScore(full, Span(), now) >= cfg.threshold then
                record == old(record) - {ip} && BansAfter(cfg, old(banned), ip, now, banned)
              else banned == old(banned) && record == old(record)[ip := full] && hosts.Keys == old(hosts).Keys
    {
      hide Window, Sum, Tracks, BansAfter;
      TracksAppended(hosts, record, ip, ev, Span(), clock, now);
      TracksLater(hosts, record, Span(), clock, now);
      var kept, total := AppendAndCompact(hosts[ip].events, ev, Span(), now);
      clock := now;
      if total >= cfg.threshold {
        Ban(ip, now);
      } else {
        GrowsByOne(hosts, ip, HostScore(total, kept));
        record := record[ip := record[ip] + [ev]];
        hosts := hosts[ip := HostScore(total, kept)];
      }
    }

    /** The first event of a host, which never bans it: validation keeps every score below the
        threshold. */
    method AddFirst(ip: string, ev: Event, now: int)
      requires Valid() && clock <= now && ip !in hosts && ev.time == now
      modifies this`hosts, this`record, this`clock
      ensures Valid() && clock == now
      ensures HostsLeft(cfg, old(hosts)[ip := HostScore(ev.score, [ev])], hosts)
      ensures forall h :: h in record ==> record[h] == if h == ip then [ev] else old(RecordOf(h))
      ensures old(|hosts|) < cfg.entriesHardLimit || Crowd(old(hosts), now) < cfg.entriesSoftLimit ==> ip in hosts
    {
      hide Window, Sum, KeepsNewest, Tracks;
      TracksLater(hosts, record, Span(), clock, now);
      TracksFirst(hosts, record, ip, ev, Span(), now);
      GrowsByOne(hosts, ip, HostScore(ev.score, [ev]));
      clock := now;
      hosts := hosts[ip := HostScore(ev.score, [ev])];
      record := record[ip := [ev]];
      CleanupHosts();
      NewHostStays(cfg, old(hosts), ip, HostScore(ev.score, [ev]), now, hosts);
    }

    /** An event is recorded unless the host is safe.  A host whose full record, the new event
        included, scores at least the threshold in the window leaves the record and its ban is
        added, which outlives the cleanup that follows exactly when there is room for it.  Otherwise
        nobody is banned and the event joins the record.  A host that is new to a full table is evicted at
        once only if as many others as the soft limit were seen at this very time. */
    method AddEvent(ip: string, event: HostEvent, safe: bool, now: int)
      requires Valid() && clock <= now
      modifies this
      ensures Valid() && clock == now
      ensures safe ==> hosts == old(hosts) && banned == old(banned) && record == old(record)
      ensures !safe ==>
                var ev := Event(now, ScoreOf(cfg, event));
                var full := old(RecordOf(ip)) + [ev];
                if WindowScore(full, Span(), now) >= cfg.threshold then
                  && record == old(record) - {ip} && BansAfter(cfg, old(banned), ip, now, banned)
                  && (Untied(old(banned), ip, DueAfter(cfg, now)) ==>
                        (ip in banned <==> RoomForBan(cfg, old(banned), ip, now, false)))
                else
                  && banned == old(banned)
                  && (forall h :: h in record ==> record[h] == if h == ip then full else old(RecordOf(h)))
                  && (ip in old(hosts) ==> record.Keys == old(record).Keys)
                  && (ip !in old(hosts) ==> HostsLeft(cfg, old(hosts)[ip := HostScore(ev.score, [ev])], hosts))
                  && (ip in old(hosts) || old(|hosts|) < cfg.entriesHardLimit || Crowd(old(hosts), now) < cfg.entriesSoftLimit ==>
                        ip in record)
                  && (old(clock) < now ==> ip in record)
    {
      hide Window, Sum, Tracks, BansAfter, HostsLeft, RoomForBan, Untied;
      if safe {
        TracksLater(hosts, record, Span(), clock, now);
        clock := now;
        return;
      }
      var ev := Event(now, ScoreOf(cfg, event));
      if ip in hosts {
        AddToHost(ip, ev, now);
        if BansAfter(cfg, old(banned), ip, now, banned) {
          NewBanStays(cfg, old(banned), ip, now, banned);
        }
      } else {
        assert RecordOf(ip) + [ev] == [ev];
        FirstEventBelowThreshold(cfg, event, now);
        NobodyYet(hosts, record, Span(), clock, now);
        AddFirst(ip, ev, now);
      }
    }
  }

  // ---------------------------------------------------------------------------------------------
  // Who stays in a full table

  /** The bans other than the one of ip that are due later than the given time, or also at it. */
  function Ahead(bans: Stamps, ip: string, due: int, ties: bool): set<string> {
    set h | h in bans && h != ip && (bans[h] > due || (ties && bans[h] == due))
  }

  /** No other ban is due at that time. */
  predicate Untied(bans: Stamps, ip: string, due: int) {
    forall h :: h in bans && h != ip ==> bans[h] != due
  }

  /** There is room for the new ban: the table is not full, or fewer bans are ahead of it than stay. */
  predicate RoomForBan(cfg: DefenderConfig, was: Stamps, ip: string, now: int, ties: bool) {
    || |was[ip := DueAfter(cfg, now)]| <= cfg.entriesHardLimit
    || |Ahead(was, ip, DueAfter(cfg, now), ties)| < cfg.entriesSoftLimit + |Expired(was[ip := DueAfter(cfg, now)], now)|
  }

  /** When a new ban outlives the cleanup that follows it.  Without another ban due at the same time
      the two halves meet: it stays if and only if there is room. */
  lemma NewBanStays(cfg: DefenderConfig, was: Stamps, ip: string, now: int, bans: Stamps)
    requires cfg.Valid() && BansAfter(cfg, was, ip, now, bans)
    ensures RoomForBan(cfg, was, ip, now, true) ==> ip in bans
    ensures ip in bans ==> RoomForBan(cfg, was, ip, now, false)
    ensures Untied(was, ip, DueAfter(cfg, now)) ==> (ip in bans <==> RoomForBan(cfg, was, ip, now, false))
  {
    var due := DueAfter(cfg, now);
    var all := was[ip := due];
    if |all| > cfg.entriesHardLimit {
      if ip in bans {
        KeptHasRoom(was, ip, due, bans, cfg.entriesSoftLimit, now);
      } else {
        RoomKeeps(was, ip, due, bans, cfg.entriesSoftLimit, now);
      }
      if Untied(was, ip, due) {
        assert Ahead(was, ip, due, true) == Ahead(was, ip, due, false);
      }
    }
  }

  lemma KeptHasRoom(was: Stamps, ip: string, due: int, bans: Stamps, softLimit: int, now: int)
    requires now <= due && CutBans(was[ip := due], bans, softLimit, now) && ip in bans && bans[ip] == due
    ensures |Ahead(was, ip, due, false)| < softLimit + |Expired(was[ip := due], now)|
  {
    var ahead := Ahead(was, ip, due, false);
    assert ahead <= bans.Keys;
    hide Ahead, Expired, Live;
    SubsetWithout(ahead, ip, bans.Keys);
  }

  lemma RoomKeeps(was: Stamps, ip: string, due: int, bans: Stamps, softLimit: int, now: int)
    requires now <= due && CutBans(was[ip := due], bans, softLimit, now) && ip !in bans
    requires forall h :: h in bans ==> bans[h] == was[ip := due][h]
    ensures |Ahead(was, ip, due, true)| >= softLimit + |Expired(was[ip := due], now)|
  {
    var all := was[ip := due];
    assert ip in Live(all, now) && bans.Keys <= Ahead(was, ip, due, true);
    hide Ahead, Expired, Live;
    SubsetCount(bans.Keys, Ahead(was, ip, due, true));
    if |bans| == |Live(all, now)| {
      SubsetOfSameSize(bans.Keys, Live(all, now));
    }
  }

  /** One-minute bans and scores of one against a threshold of two, in tables of at most two. */
  const TINY := DefenderConfig(1, 100, 2, 1, 1, 1, 1, 1, 2)

  /** A full table whose bans are all due later, because they were extended, has no room for a new
      ban. */
  lemma NoRoomForBan(now: int, bans: Stamps)
    requires BansAfter(TINY, map["a" := now + 2 * MINUTE, "b" := now + 2 * MINUTE], "c", now, bans)
    ensures "c" !in bans
  {
    var was: Stamps := map["a" := now + 2 * MINUTE, "b" := now + 2 * MINUTE];
    NewBanStays(TINY, was, "c", now, bans);
    assert was["c" := DueAfter(TINY, now)].Keys == {"a", "b", "c"};
    assert |was["c" := DueAfter(TINY, now)]| == |{"a", "b", "c"}| == 3;
    assert Ahead(was, "c", DueAfter(TINY, now), false) == {"a", "b"};
    assert Expired(was["c" := DueAfter(TINY, now)], now) == {};
  }

  lemma TwoEventsReachThreshold(now: int)
    ensures var ev := Event(now, 1); WindowScore([ev] + [ev], MINUTE, now) == 2
  {
    var ev := Event(now, 1);
    FirstEventBelowThreshold(TINY, HostEventLoginFailed, now);
    WindowConcat([ev], [ev], MINUTE, now);
    SumConcat(Window([ev], MINUTE, now), Window([ev], MINUTE, now));
  }

  /** Two failed logins ban a host. */
  method FailTwice(d: MemoryDefender, ip: string, now: int)
    requires d.Valid() && d.cfg == TINY && d.clock <= now && d.hosts == map[]
    modifies d
    ensures d.Valid() && d.clock == now && d.hosts == map[] && BansAfter(TINY, old(d.banned), ip, now, d.banned)
  {
    hide BansAfter, Tracks, Window, Sum;
    ghost var ev := Event(now, 1);
    TwoEventsReachThreshold(now);
    FirstEventBelowThreshold(TINY, HostEventLoginFailed, now);
    assert d.record.Keys == {};
    assert d.RecordOf(ip) + [ev] == [ev];
    d.AddEvent(ip, HostEventLoginFailed, false, now);
    assert d.hosts.Keys <= {ip};
    assert d.RecordOf(ip) == [ev];
    d.AddEvent(ip, HostEventLoginFailed, false, now);
    assert d.hosts.Keys == {};
  }

  lemma FirstBan(bans: Stamps, now: int)
    requires BansAfter(TINY, map[], "a", now, bans)
    ensures bans == map["a" := now + MINUTE]
  {
    GrowsByOne(map[], "a", now + MINUTE);
  }

  lemma SecondBan(bans: Stamps, now: int)
    requires BansAfter(TINY, map["a" := now + MINUTE], "b", now, bans)
    ensures bans == map["a" := now + MINUTE, "b" := now + MINUTE]
  {
    var was: Stamps := map["a" := now + MINUTE];
    assert was.Keys == {"a"};
    GrowsByOne(was, "b", now + MINUTE);
  }

  /** A failing case: two hosts are banned and try again, which extends their bans; a third host then
      reaches the threshold, and its ban does not outlive its own cleanup. */
  method NewBanLost(now: int) returns (d: MemoryDefender, ghost before: Stamps)
    ensures d.Valid() && before == map["a" := now + 2 * MINUTE, "b" := now + 2 * MINUTE]
    ensures BansAfter(TINY, before, "c", now, d.banned) && "c" !in d.banned
  {
    hide Tracks, BansAfter;
    d := new MemoryDefender(TINY, now);
    FailTwice(d, "a", now);
    FirstBan(d.banned, now);
    FailTwice(d, "b", now);
    SecondBan(d.banned, now);
    var _ := d.IsBanned("a", false, now);
    var _ := d.IsBanned("b", false, now);
    before := d.banned;
    assert before == map["a" := now + 2 * MINUTE, "b" := now + 2 * MINUTE];
    FailTwice(d, "c", now);
    NoRoomForBan(now, d.banned);
  }

  // ---------------------------------------------------------------------------------------------
  // What events score

  /** The configured score of an event: a failed login of a user that exists, a user that does not or
      no login at all, an exceeded rate. */
  predicate ConfiguredScore(cfg: DefenderConfig, event: HostEvent, score: int) {
    || (event == HostEventLoginFailed && score == cfg.scoreValid)
    || (event == HostEventUserNotFound && score == cfg.scoreInvalid)
    || (event == HostEventNoLoginTried && score == cfg.scoreInvalid)
    || (event == HostEventRateExceeded && score == cfg.scoreRateExceeded)
  }

  /** One event on a fresh defender. */
  method ScoreOfFirst(cfg: DefenderConfig, event: HostEvent, now: int) returns (score: int)
    requires cfg.Valid()
    ensures ConfiguredScore(cfg, event, score)
  {
    hide Tracks, BansAfter;
    FirstEventBelowThreshold(cfg, event, now);
    var d := new MemoryDefender(cfg, now);
    assert d.RecordOf("h") + [Event(now, ScoreOf(cfg, event))] == [Event(now, ScoreOf(cfg, event))];
    d.AddEvent("h", event, false, now);
    score := d.GetScore("h", now);
  }

  /** The times are in order and all in one window. */
  predicate InOneWindow(times: seq<int>, span: int) {
    && (forall i, j :: 0 <= i <= j < |times| ==> times[i] <= times[j])
    && (forall i, j :: 0 <= i <= j < |times| ==> times[j] < times[i] + span)
  }

  function Repeated(times: seq<int>, score: int): seq<Event> {
    if times == [] then [] else Repeated(times[..|times| - 1], score) + [Event(times[|times| - 1], score)]
  }

  lemma {:induction false} RepeatedScore(times: seq<int>, score: int, span: int, now: int)
    requires forall i :: 0 <= i < |times| ==> times[i] + span > now
    ensures WindowScore(Repeated(times, score), span, now) == |times| * score
  {
    if times != [] {
      var n := |times| - 1;
      var ev := Event(times[n], score);
      var early := Repeated(times[..n], score);
      RepeatedScore(times[..n], score, span, now);
      WindowConcat(early, [ev], span, now);
      assert Observed(ev, span, now) && [ev][1..] == [] && Window([ev], span, now) == [ev] + Window([], span, now) == [ev];
      SumConcat(Window(early, span, now), [ev]);
      assert Sum([ev]) == ev.score + Sum([]);
    }
  }

  /** The record after the first n of these events, none of which led to a ban. */
  function RecordAfter(times: seq<int>, score: int, n: nat): map<string, seq<Event>>
    requires n <= |times|
  {
    if n == 0 then map[] else map["h" := Repeated(times[..n], score)]
  }

  lemma OneMoreRepeated(d: MemoryDefender, times: seq<int>, score: int, n: nat)
    requires n < |times| && InOneWindow(times, d.Span()) && d.record == RecordAfter(times, score, n)
    ensures d.RecordOf("h") + [Event(times[n], score)] == Repeated(times[..n + 1], score)
    ensures WindowScore(Repeated(times[..n + 1], score), d.Span(), times[n]) == (n + 1) * score
  {
    hide Window, Sum;
    assert times[..n + 1][..n] == times[..n];
    RepeatedScore(times[..n + 1], score, d.Span(), times[n]);
  }

  method RepeatOnce(d: MemoryDefender, event: HostEvent, times: seq<int>, ghost score: int, n: nat)
    requires d.Valid() && n < |times| && InOneWindow(times, d.Span()) && ConfiguredScore(d.cfg, event, score)
    requires d.clock <= times[n] && d.banned == map[] && d.record == RecordAfter(times, score, n)
    modifies d
    ensures d.Valid() && d.clock == times[n]
    ensures if (n + 1) * score >= d.cfg.threshold then "h" in d.banned
            else d.banned == map[] && d.record == RecordAfter(times, score, n + 1)
  {
    hide Tracks, BansAfter, Window, Sum, WindowScore, InOneWindow, KeepsNewest, Repeated, RoomForBan, Crowd;
    OneMoreRepeated(d, times, score, n);
    ghost var was := d.record.Keys;
    assert was <= {"h"};
    d.AddEvent("h", event, false, times[n]);
    if (n + 1) * score >= d.cfg.threshold {
      OneBan(d.cfg, times[n], d.banned);
    } else {
      OnlyHost(d, was);
    }
  }

  lemma OnlyHost(d: MemoryDefender, was: set<string>)
    requires "h" in d.record && was <= {"h"} && d.record.Keys <= was + {"h"}
    ensures d.record.Keys == {"h"}
  {
  }

  /** The same event over and over in one window bans the host at the first event whose number, times
      the configured score, reaches the threshold, and not before. */
  method RepeatEvent(cfg: DefenderConfig, event: HostEvent, times: seq<int>, ghost score: int) returns (d: MemoryDefender, n: nat)
    requires cfg.Valid() && times != [] && InOneWindow(times, cfg.observationTime * MINUTE) && ConfiguredScore(cfg, event, score)
    ensures d.Valid() && n <= |times| && forall i :: 1 <= i < n ==> i * score < cfg.threshold
    ensures if "h" in d.banned then n >= 1 && n * score >= cfg.threshold else n == |times| && n * score < cfg.threshold
  {
    hide Tracks, RecordAfter;
    d := new MemoryDefender(cfg, times[0]);
    n := 0;
    assert RecordAfter(times, score, 0) == map[] by { NoRecordYet(times, score); }
    while n < |times|
      invariant fresh(d) && d.Valid() && d.cfg == cfg && n <= |times| && d.banned == map[]
      invariant d.clock == times[if n == 0 then 0 else n - 1] && d.record == RecordAfter(times, score, n)
      invariant forall i :: 1 <= i <= n ==> i * score < cfg.threshold
    {
      RepeatOnce(d, event, times, score, n);
      n := n + 1;
      if "h" in d.banned {
        return;
      }
    }
  }

  lemma NoRecordYet(times: seq<int>, score: int)
    ensures RecordAfter(times, score, 0) == map[]
  {
  }

  lemma OneBan(cfg: DefenderConfig, now: int, bans: Stamps)
    requires cfg.Valid() && BansAfter(cfg, map[], "h", now, bans)
    ensures bans == map["h" := DueAfter(cfg, now)]
  {
    GrowsByOne(map[], "h", DueAfter(cfg, now));
  }

  /** A cut leaves no more than the soft limit if and only if nothing had expired or so few bans are
      live. */
  lemma CutReachesSoftLimitIff(was: Stamps, bans: Stamps, softLimit: int, now: int)
    requires CutBans(was, bans, softLimit, now) && softLimit > 0
    ensures |bans| <= softLimit <==> Expired(was, now) == {} || |Live(was, now)| <= softLimit
  {
    assert Expired(was, now) != {} ==> |Expired(was, now)| > 0;
  }

  /** A failing case: of three bans, one of them expired, two stay although the soft limit is one. */
  lemma CutMissesSoftLimit(bans: Stamps)
    requires CutBans(map["a" := 1, "b" := 20, "c" := 30], bans, 1, 10)
    ensures |bans| == 2
  {
    var was: Stamps := map["a" := 1, "b" := 20, "c" := 30];
    assert was.Keys == {"a", "b", "c"};
    assert Expired(was, 10) == {"a"};
    assert Live(was, 10) == {"b", "c"} && |{"b", "c"}| == 2;
  }

  /** How many hosts were seen at the given time or later. */
  function Crowd(hosts: map<string, HostScore>, now: int): nat {
    |set h | h in hosts && LastSeen(hosts[h]) >= now|
  }

  lemma NewHostStays(
      cfg: DefenderConfig, was: map<string, HostScore>, ip: string, hs: HostScore, now: int, hosts: map<string, HostScore>)
    requires cfg.Valid() && ip !in was && LastSeen(hs) == now && HostsLeft(cfg, was[ip := hs], hosts)
    ensures |was| < cfg.entriesHardLimit || Crowd(was, now) < cfg.entriesSoftLimit ==> ip in hosts
  {
    GrowsByOne(was, ip, hs);
    if ip !in hosts {
      var crowd := set h | h in was && LastSeen(was[h]) >= now;
      assert hosts.Keys <= crowd;
      SubsetCount(hosts.Keys, crowd);
      if |was| < cfg.entriesHardLimit {
        SubsetOfSameSize(hosts.Keys, was[ip := hs].Keys);
      }
    }
  }

  lemma NobodyYet(hosts: map<string, HostScore>, record: map<string, seq<Event>>, span: int, clock: int, now: int)
    requires Tracks(hosts, record, span, clock)
    ensures clock < now ==> Crowd(hosts, now) == 0
  {
    if clock < now {
      assert (set h | h in hosts && LastSeen(hosts[h]) >= now) == {};
    }
  }

  /** The window is what happened less than the observation time ago. */
  lemma {:induction false} WindowMeaning(es: seq<Event>, span: int, now: int)
    ensures forall e :: e in Window(es, span, now) <==> e in es && now - e.time < span
  {
    if es != [] { WindowMeaning(es[1..], span, now); }
  }

  lemma {:induction false} WindowWithin(es: seq<Event>, span: int, now: int)
    ensures forall e :: e in Window(es, span, now) ==> e in es
  {
    if es != [] { WindowWithin(es[1..], span, now); }
  }

  /** After an event has been appended and the list compacted, that event is the last one seen. */
  lemma AppendedSeen(es: seq<Event>, ev: Event, span: int, now: int)
    requires span > 0 && ev.time == now && forall i :: 0 <= i < |es| ==> es[i].time <= now
    ensures var kept := Window(es + [ev], span, now);
            kept != [] && kept[|kept| - 1] == ev && forall i :: 0 <= i < |kept| ==> kept[i].time <= now
  {
    WindowConcat(es, [ev], span, now);
    WindowWithin(es, span, now);
    var early := Window(es, span, now);
    assert Observed(ev, span, now) && [ev][1..] == [];
    assert Window([ev], span, now) == [ev] + Window([], span, now) == [ev];
    assert Window(es + [ev], span, now) == early + [ev];
    forall i | 0 <= i < |early|
      ensures early[i].time <= now
    {
      assert early[i] in early;
    }
  }

  lemma TracksLater(hosts: map<string, HostScore>, record: map<string, seq<Event>>, span: int, clock: int, now: int)
    requires Tracks(hosts, record, span, clock) && clock <= now
    ensures Tracks(hosts, record, span, now)
  {
  }

  lemma TracksFewer(hosts: map<string, HostScore>, record: map<string, seq<Event>>, gone: set<string>, span: int, clock: int)
    requires Tracks(hosts, record, span, clock)
    ensures Tracks(hosts - gone, record - gone, span, clock) && (hosts - gone).Keys == (record - gone).Keys
  {
  }

  lemma TracksFirst(hosts: map<string, HostScore>, record: map<string, seq<Event>>, ip: string, ev: Event, span: int, now: int)
    requires Tracks(hosts, record, span, now) && ev.time <= now
    ensures Tracks(hosts[ip := HostScore(ev.score, [ev])], record[ip := [ev]], span, now)
    ensures hosts.Keys == record.Keys
  {
    hide Window;
  }

  lemma TracksAppended(
      hosts: map<string, HostScore>, record: map<string, seq<Event>>, ip: string, ev: Event, span: int, clock: int, now: int)
    requires Tracks(hosts, record, span, clock) && clock <= now && ip in hosts && span > 0 && ev.time == now
    ensures ip in record && WindowScore(hosts[ip].events + [ev], span, now) == WindowScore(record[ip] + [ev], span, now)
    ensures var hs := HostScore(WindowScore(hosts[ip].events + [ev], span, now), Window(hosts[ip].events + [ev], span, now));
            Tracks(hosts[ip := hs], record[ip := record[ip] + [ev]], span, now)
  {
    hide Window;
    AppendedSeen(hosts[ip].events, ev, span, now);
    StandsForAppended(hosts[ip].events, record[ip], ev, span, clock, now);
    TracksLater(hosts, record, span, clock, now);
  }

  lemma GrowsByOne<V>(m: map<string, V>, key: string, v: V)
    ensures |m[key := v]| == |m| + (if key in m then 0 else 1)
  {
  }

  /** The stamp of a host: the time of its last event. */
  function LastSeen(hs: HostScore): int {
    if hs.events == [] then 0 else hs.events[|hs.events| - 1].time
  }

  function StampsOf(hosts: map<string, HostScore>): (r: Stamps)
    ensures r.Keys == hosts.Keys && |r| == |hosts|
  {
    var r := map ip | ip in hosts :: LastSeen(hosts[ip]);
    assert r.Keys == hosts.Keys;
    assert |r| == |r.Keys| && |hosts| == |hosts.Keys|;
    r
  }

  lemma OneMoreBan(bans: Stamps, ip: string, due: int)
    ensures |bans[ip := due]| <= |bans| + 1
  {
    GrowsByOne(bans, ip, due);
  }

  lemma OneHostLess(hosts: map<string, HostScore>, ip: string)
    requires ip in hosts
    ensures |hosts - {ip}| <= |hosts|
  {
    RemoveSize(hosts, {ip});
  }

  lemma RemoveSize<V>(m: map<string, V>, ks: set<string>)
    requires ks <= m.Keys
    ensures |m - ks| == |m| - |ks|
  {
  }

  /** Live bans are only cut once every expired one has been. */
  lemma LiveVictims(stamps: Stamps, expired: set<string>, victims: set<string>, now: int)
    requires expired == Expired(stamps, now)
    requires OldestOf(victims, stamps)
    ensures var live := stamps.Keys - expired;
            |live * victims| == if |victims| <= |expired| then 0 else |victims| - |expired|
  {
    var live := stamps.Keys - expired;
    if live * victims == {} {
      assert victims <= expired;
      SubsetCount(victims, expired);
    } else {
      var v :| v in live * victims;
      assert expired <= victims by {
        assert forall e :: e in expired && e !in victims ==> stamps[v] <= stamps[e];
      }
      assert live * victims == victims - expired;
      assert |victims - expired| == |victims| - |expired|;
    }
  }

  lemma SubsetWithout<T>(a: set<T>, x: T, b: set<T>)
    requires a <= b && x in b && x !in a
    ensures |a| < |b|
  {
    assert a <= b - {x};
    SubsetCount(a, b - {x});
  }

  /** A validated configuration keeps the score of every single event below the threshold. */
  lemma FirstEventBelowThreshold(cfg: DefenderConfig, event: HostEvent, now: int)
    requires cfg.Valid()
    ensures var ev := Event(now, ScoreOf(cfg, event));
            WindowScore([ev], cfg.observationTime * MINUTE, now) == ev.score < cfg.threshold
  {
    var ev, span := Event(now, ScoreOf(cfg, event)), cfg.observationTime * MINUTE;
    assert Observed(ev, span, now) && [ev][1..] == [];
    assert Window([ev], span, now) == [ev] + Window([], span, now) == [ev];
    assert Sum([ev]) == ev.score + Sum([]);
  }
}
