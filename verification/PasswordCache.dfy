/** The cache of verified passwords (dataprovider/cachedpassword.go, dataprovider/dataprovider.go).
    The slow verification of a password against a stored hash is a parameter. */
module PasswordCache {

  /** Users with their stored hashes, and the password last verified for each cached user. */
  datatype State = State(hashes: map<string, string>, cache: map<string, string>)

  datatype Step =
    | CheckPassword(username: string, password: string)
    | AddUser(username: string, hash: string)
    | UpdateUser(username: string, hash: string)
    | DeleteUser(username: string)

  /** A hash accepts at most one password. */
  ghost predicate OnePassword(verify: (string, string) -> bool) {
    forall hash, p, q :: verify(hash, p) && verify(hash, q) ==> p == q
  }

  /** passwordsCache.Check: whether the user is found, and whether the password matches. */
  function Lookup(cache: map<string, string>, username: string, password: string): (bool, bool) {
    if username == "" || password == "" || username !in cache then (false, false) else (true, cache[username] == password)
  }

  /** passwordsCache.Add. */
  function Remember(cache: map<string, string>, caching: bool, username: string, password: string): map<string, string> {
    if !caching || username == "" || password == "" then cache else cache[username := password]
  }

  /** passwordsCache.Remove. */
  function Forget(cache: map<string, string>, caching: bool, username: string): map<string, string> {
    if caching then cache - {username} else cache
  }

  /** isPasswordOK: the answer and the cache afterwards. */
  function IsPasswordOK(s: State, caching: bool, verify: (string, string) -> bool, username: string, password: string): (bool, State)
    requires username in s.hashes
  {
    var (found, match') := Lookup(s.cache, username, password);
    if caching && found then (match', s)
    else
      var ok := verify(s.hashes[username], password);
      (ok, if ok then s.(cache := Remember(s.cache, caching, username, password)) else s)
  }

  function Next(s: State, caching: bool, verify: (string, string) -> bool, step: Step): State {
    match step
    case CheckPassword(u, p) => if u in s.hashes then IsPasswordOK(s, caching, verify, u, p).1 else s
    case AddUser(u, h) => if u in s.hashes then s else s.(hashes := s.hashes[u := h])
    case UpdateUser(u, h) => if u in s.hashes then State(s.hashes[u := h], Forget(s.cache, caching, u)) else s
    case DeleteUser(u) => if u in s.hashes then State(s.hashes - {u}, Forget(s.cache, caching, u)) else s
  }

  function Run(s: State, caching: bool, verify: (string, string) -> bool, steps: seq<Step>): State
    decreases |steps|
  {
    if steps == [] then s else Run(Next(s, caching, verify, steps[0]), caching, verify, steps[1..])
  }

  /** Every cached password is the one its user's current hash accepts. */
  predicate Coherent(s: State, verify: (string, string) -> bool) {
    forall u :: u in s.cache ==> u in s.hashes && verify(s.hashes[u], s.cache[u])
  }

  lemma {:induction false} RunCoherent(s: State, caching: bool, verify: (string, string) -> bool, steps: seq<Step>)
    requires Coherent(s, verify) && (!caching ==> s.cache == map[])
    ensures Coherent(Run(s, caching, verify, steps), verify)
    decreases |steps|
  {
    if steps != [] {
      RunCoherent(Next(s, caching, verify, steps[0]), caching, verify, steps[1..]);
    }
  }

  /** After every run of password checks and user changes the cached answer is the slow answer. */
  lemma CacheAgreesWithVerifier(
      hashes: map<string, string>, caching: bool, verify: (string, string) -> bool, steps: seq<Step>, username: string, password: string)
    requires OnePassword(verify)
    requires username in Run(State(hashes, map[]), caching, verify, steps).hashes
    ensures var s := Run(State(hashes, map[]), caching, verify, steps);
            IsPasswordOK(s, caching, verify, username, password).0 == verify(s.hashes[username], password)
  {
    RunCoherent(State(hashes, map[]), caching, verify, steps);
  }

  /** The answers to all the password checks of a run; a check of an unknown user has none. */
  function Answers(s: State, caching: bool, verify: (string, string) -> bool, steps: seq<Step>): seq<bool>
    decreases |steps|
  {
    if steps == [] then []
    else
      (if steps[0].CheckPassword? && steps[0].username in s.hashes then
         [IsPasswordOK(s, caching, verify, steps[0].username, steps[0].password).0] else [])
      + Answers(Next(s, caching, verify, steps[0]), caching, verify, steps[1..])
  }

  lemma {:induction false} SameAnswersFrom(s: State, plain: State, verify: (string, string) -> bool, steps: seq<Step>)
    requires OnePassword(verify) && Coherent(s, verify) && s.hashes == plain.hashes && plain.cache == map[]
    ensures Answers(s, true, verify, steps) == Answers(plain, false, verify, steps)
    decreases |steps|
  {
    if steps != [] {
      SameAnswersFrom(Next(s, true, verify, steps[0]), Next(plain, false, verify, steps[0]), verify, steps[1..]);
    }
  }

  /** A run with the cache answers every check as the same run without it. */
  lemma CachingChangesNoAnswer(hashes: map<string, string>, verify: (string, string) -> bool, steps: seq<Step>)
    requires OnePassword(verify)
    ensures Answers(State(hashes, map[]), true, verify, steps) == Answers(State(hashes, map[]), false, verify, steps)
  {
    SameAnswersFrom(State(hashes, map[]), State(hashes, map[]), verify, steps);
  }

  /** After an update the new hash decides, and nothing about the old one is remembered. */
  lemma UpdatedHashDecides(s: State, caching: bool, verify: (string, string) -> bool, u: string, hash: string, password: string)
    requires u in s.hashes && (!caching ==> s.cache == map[])
    ensures var s' := Next(s, caching, verify, UpdateUser(u, hash));
            && u in s'.hashes && IsPasswordOK(s', caching, verify, u, password).0 == verify(hash, password)
            && u !in s'.cache && forall v :: v != u ==> (v in s'.hashes <==> v in s.hashes) && (v in s.hashes ==> s'.hashes[v] == s.hashes[v])
  {
  }

  /** Users come and go as they are added and deleted. */
  lemma KnownUsers(s: State, caching: bool, verify: (string, string) -> bool, u: string, hash: string)
    ensures var added := Next(s, caching, verify, AddUser(u, hash));
            u in added.hashes && added.hashes[u] == (if u in s.hashes then s.hashes[u] else hash)
    ensures u !in Next(s, caching, verify, DeleteUser(u)).hashes
  {
  }

  /** What caching is for: an accepted password is answered from the cache the next time, whatever
      the slow verification would cost. */
  lemma AcceptedIsRemembered(s: State, verify: (string, string) -> bool, u: string, password: string, other: (string, string) -> bool)
    requires u in s.hashes && u != "" && password != "" && u !in s.cache && verify(s.hashes[u], password)
    ensures var s' := Next(s, true, verify, CheckPassword(u, password));
            u in s'.hashes && IsPasswordOK(s', true, other, u, password) == (true, s')
  {
  }

  /** The cache as the server keeps it. */
  class PasswordsCache {
    const caching: bool
    const verify: (string, string) -> bool
    var hashes: map<string, string>
    var cache: map<string, string>

    constructor (caching: bool, verify: (string, string) -> bool, hashes: map<string, string>)
      ensures Abstract() == State(hashes, map[]) && this.caching == caching && this.verify == verify
    {
      this.caching, this.verify, this.hashes, this.cache := caching, verify, hashes, map[];
    }

    ghost function Abstract(): State
      reads this
    {
      State(hashes, cache)
    }

    method CheckUserPassword(username: string, password: string) returns (ok: bool)
      requires username in hashes
      modifies this`cache
      ensures (ok, Abstract()) == IsPasswordOK(old(Abstract()), caching, verify, username, password)
    {
      if caching && username != "" && password != "" && username in cache {
        return cache[username] == password;
      }
      ok := verify(hashes[username], password);
      if ok {
        if caching && username != "" && password != "" {
          cache := cache[username := password];
        }
      }
    }

    method ChangeUser(username: string, hash: string)
      modifies this
      ensures Abstract() == Next(old(Abstract()), caching, verify, UpdateUser(username, hash))
    {
      if username in hashes {
        hashes := hashes[username := hash];
        if caching {
          cache := cache - {username};
        }
      }
    }

    method RemoveUser(username: string)
      modifies this
      ensures Abstract() == Next(old(Abstract()), caching, verify, DeleteUser(username))
    {
      if username in hashes {
        hashes := hashes - {username};
        if caching {
          cache := cache - {username};
        }
      }
    }
  }
}
