/** The cache of WebDAV users (dataprovider/cacheduser.go). */
module CachedUsers {

  /** Expiration 0 stands for the zero time: the entry never expires. */
  datatype CachedUser = CachedUser(username: string, password: string, fsConfig: string, expiration: nat)

  class UsersCache {
    const maxSize: int
    var users: map<string, CachedUser>

    /** Entries are kept under their own, non-empty name and a limited cache stays within its size. */
    ghost predicate Valid()
      reads this
    {
      && (forall name :: name in users ==> name != "" && users[name].username == name)
      && (maxSize > 0 ==> |users| <= maxSize)
    }

    constructor (maxSize: int)
      ensures Valid() && users == map[] && this.maxSize == maxSize
    {
      this.maxSize, this.users := maxSize, map[];
    }

    /** The scan for an entry to give up, in any order: the result never expires, or expires no
        later than any entry that does. */
    method FindVictim() returns (userToRemove: string)
      requires Valid() && users != map[]
      ensures userToRemove in users
      ensures users[userToRemove].expiration == 0 ||
              forall name :: name in users && users[name].expiration != 0 ==>
                               users[userToRemove].expiration <= users[name].expiration
    {
      userToRemove := "";
      var expirationTime := 0;
      var rest := users.Keys;
      while rest != {}
        invariant rest <= users.Keys
        invariant userToRemove == "" ==> rest == users.Keys
        invariant userToRemove != "" ==> userToRemove in users && expirationTime == users[userToRemove].expiration
        invariant userToRemove != "" && expirationTime != 0 ==>
                    forall name :: name in users && name !in rest && users[name].expiration != 0 ==> expirationTime <= users[name].expiration
      {
        var k :| k in rest;
        rest := rest - {k};
        if userToRemove == "" {
          userToRemove := k;
          expirationTime := users[k].expiration;
          continue;
        }
        var expireTime := users[k].expiration;
        if expireTime != 0 && expireTime < expirationTime {
          userToRemove := k;
          expirationTime := expireTime;
        }
      }
    }

    /** usersCache.add: a full cache gives up one entry, even when the added user is cached already. */
    method Add(cachedUser: CachedUser)
      requires Valid()
      modifies this`users
      ensures Valid()
      ensures cachedUser.username != "" ==> cachedUser.username in users && users[cachedUser.username] == cachedUser
      ensures forall name :: name in users && name != cachedUser.username ==> name in old(users) && users[name] == old(users)[name]
      ensures maxSize <= 0 || old(|users|) < maxSize ==> old(users).Keys <= users.Keys
      ensures old(users) != map[] ==> exists v :: v in old(users) && old(users).Keys - {v} <= users.Keys
      ensures forall v, name :: v in old(users) && v !in users && name in old(users) && v != name ==>
                old(users)[v].expiration == 0 || old(users)[name].expiration == 0 || old(users)[v].expiration <= old(users)[name].expiration
    {
      if maxSize > 0 && |users| >= maxSize {
        var userToRemove := FindVictim();
        assert (users - {userToRemove}).Keys == users.Keys - {userToRemove};
        assert |users.Keys - {userToRemove}| == |users.Keys| - 1;
        users := users - {userToRemove};
      }
      if cachedUser.username != "" {
        assert users[cachedUser.username := cachedUser].Keys == users.Keys + {cachedUser.username};
        assert |users.Keys + {cachedUser.username}| <= |users.Keys| + 1;
        users := users[cachedUser.username := cachedUser];
      }
    }

    /** usersCache.swap: an updated user stays cached only with the password and the filesystem it
        was cached with. */
    method Swap(user: CachedUser)
      requires Valid()
      modifies this`users
      ensures Valid()
      ensures forall name :: name != user.username ==>
                (name in users <==> name in old(users)) && (name in users ==> users[name] == old(users)[name])
      ensures user.username in users <==>
                && user.username in old(users)
                && old(users)[user.username].password == user.password && old(users)[user.username].fsConfig == user.fsConfig
      ensures user.username in users ==> users[user.username] == user.(expiration := old(users)[user.username].expiration)
    {
      if user.username in users {
        var cached := users[user.username];
        assert (users - {user.username}).Keys == users.Keys - {user.username};
        assert |users.Keys - {user.username}| <= |users.Keys|;
        if cached.password != user.password {
          users := users - {user.username};
          return;
        }
        if cached.fsConfig == user.fsConfig {
          assert users[user.username := user.(expiration := cached.expiration)].Keys == users.Keys;
          users := users[user.username := user.(expiration := cached.expiration)];
        } else {
          users := users - {user.username};
        }
      }
    }
  }
}
