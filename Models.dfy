/** The data layer of blog/app/models.py: roles with their permission masks,
    users, the current principal (a signed-in user or the anonymous user),
    posts, comments, rooms with their member associations, and the store
    that holds the tables the request handlers change. Times are integer
    seconds. */
module Models {
  import opened Wrappers
  import opened Bits
  import opened Permissions

  /** 2 minutes, the presence window of `User.is_online`. */
  const OnlineWindow: int := 120

  /** Token extraction (`User.extract_token`): a signed, time-limited token
      yields the user identifier it encodes, or None when it is malformed,
      tampered with or expired. Signing is not modelled; the extraction is a
      parameter. */
  type TokenOracle = string -> Option<int>

  class Role {
    /** Name and default flag are set when the row is created; no handler
        changes them. */
    const name: string
    const isDefault: bool
    var permissions: nat

    /** `Role(**kwargs)`: a role created without permissions starts at 0. */
    constructor (name: string, isDefault: bool, permissions: Option<nat>)
      ensures this.name == name && this.isDefault == isDefault
      ensures permissions.None? ==> this.permissions == 0
      ensures permissions.Some? ==> this.permissions == permissions.value
    {
      this.name := name;
      this.isDefault := isDefault;
      if permissions.None? {
        this.permissions := 0;
      } else {
        this.permissions := permissions.value;
      }
    }

    /** `has_permission`: bitwise containment of perm in the mask. */
    predicate HasPermission(perm: nat)
      reads this
    {
      Has(permissions, perm)
    }

    method AddPermission(perm: nat)
      modifies this`permissions
      ensures permissions == Added(old(permissions), perm)
    {
      if !HasPermission(perm) {
        permissions := permissions + perm;
      }
    }

    method RemovePermission(perm: nat)
      modifies this`permissions
      ensures permissions == Removed(old(permissions), perm)
    {
      if HasPermission(perm) {
        BitAndAtMost(permissions, perm);
        permissions := permissions - perm;
      }
    }

    method ResetPermission()
      modifies this`permissions
      ensures permissions == 0
    {
      if permissions != 0 {
        permissions := 0;
      }
    }
  }

  /** The columns of a user row that the handlers read or write. */
  datatype UserRecord = UserRecord(
    username: string,
    email: string,
    role: Role?,
    confirmed: bool,
    deletedAt: Option<int>,
    lastSeen: int,
    hashedPassword: string)

  class User {
    const id: int
    var username: string
    var email: string
    var role: Role?
    var confirmed: bool
    /** Soft-delete timestamp: None means the account is active. */
    var deletedAt: Option<int>
    var lastSeen: int
    /** Output of the salted one-way hash; never read back as a password. */
    var hashedPassword: string

    constructor (id: int, username: string, email: string, role: Role?, hashedPassword: string, now: int)
      ensures this.id == id
      ensures Record() == UserRecord(username, email, role, false, None, now, hashedPassword)
    {
      this.id := id;
      this.username := username;
      this.email := email;
      this.role := role;
      this.confirmed := false;
      this.deletedAt := None;
      this.lastSeen := now;
      this.hashedPassword := hashedPassword;
    }

    /** The whole mutable state of the row, for stating what a handler changes. */
    function Record(): UserRecord
      reads this
    {
      UserRecord(username, email, role, confirmed, deletedAt, lastSeen, hashedPassword)
    }

    /** `User.can`: refuses when the user has no role. */
    predicate Can(perm: nat)
      reads this, role
    {
      role != null && role.HasPermission(perm)
    }

    predicate IsAdministrator()
      reads this, role
    {
      Can(ADMIN)
    }

    /** `ping`: the clock is a parameter. */
    method Ping(now: int)
      modifies this`lastSeen
      ensures lastSeen == now
    {
      lastSeen := now;
    }

    /** `is_online` as the source writes it: true when last seen MORE than
        two minutes ago. */
    predicate IsOnlineAsWritten(now: int)
      reads this
    {
      lastSeen < now - OnlineWindow
    }

    /** `is_online` as intended: last seen less than two minutes ago. */
    predicate IsOnline(now: int)
      reads this
    {
      lastSeen > now - OnlineWindow
    }

    /** `is_following(follower)`: a follows row (follower.id, self.id) exists. */
    predicate IsFollowing(follows: set<(int, int)>, follower: User)
    {
      (follower.id, id) in follows
    }

    /** `is_followed(followed)`: a follows row (self.id, followed.id) exists. */
    predicate IsFollowed(follows: set<(int, int)>, followed: User)
    {
      (id, followed.id) in follows
    }

    /** `check_token`: the token must extract to this user's identifier. */
    predicate CheckToken(extract: TokenOracle, token: string)
    {
      extract(token) == Some(id)
    }
  }

  /** `current_user`: a signed-in user or the `AnonymousUser`. */
  datatype Principal = Anonymous | Authenticated(user: User)

  /** `current_user.can(perm)`; the anonymous user refuses everything. */
  predicate PrincipalCan(c: Principal, perm: nat)
    reads if c.Authenticated? then {c.user, c.user.role} else {}
  {
    match c
    case Anonymous => false
    case Authenticated(u) => u.Can(perm)
  }

  predicate PrincipalIsAdministrator(c: Principal)
    reads if c.Authenticated? then {c.user, c.user.role} else {}
  {
    match c
    case Anonymous => false
    case Authenticated(u) => u.IsAdministrator()
  }

  /** Permission checks fail safely: no role or no user means no permission,
      and being an administrator is holding ADMIN. */
  lemma PermissionChecksFailSafe(c: Principal, perm: nat)
    ensures c.Anonymous? ==> !PrincipalCan(c, perm) && !PrincipalIsAdministrator(c)
    ensures c.Authenticated? && c.user.role == null ==> !PrincipalCan(c, perm)
    ensures PrincipalIsAdministrator(c) == PrincipalCan(c, ADMIN)
  {
  }

  /** For a single flag, `can` is the flag's bit in the role's mask. */
  lemma {:induction false} CanFlag(u: User, k: nat)
    ensures u.Can(Pow2(k)) <==> u.role != null && Bit(u.role.permissions, k)
  {
    if u.role != null {
      HasFlag(u.role.permissions, k);
    }
  }

  /** `is_following` and `is_followed` read the same row from the two ends. */
  lemma FollowQueriesAreConverse(follows: set<(int, int)>, a: User, b: User)
    ensures a.IsFollowing(follows, b) <==> b.IsFollowed(follows, a)
  {
  }

  /** Presence is derived from last_seen: online right after a ping, offline
      once more than two minutes pass without one. */
  lemma PingedUserIsOnline(u: User, pingedAt: int, now: int)
    requires u.lastSeen == pingedAt
    ensures now == pingedAt ==> u.IsOnline(now)
    ensures now >= pingedAt + OnlineWindow ==> !u.IsOnline(now)
  {
  }

  /** As written, a user who has just pinged is reported offline, and one
      absent for an hour is reported online. */
  lemma OnlineAsWrittenIsInverted(u: User, now: int)
    requires u.lastSeen == now
    ensures !u.IsOnlineAsWritten(now) && u.IsOnline(now)
    ensures !u.IsOnlineAsWritten(now + OnlineWindow)
    ensures u.IsOnlineAsWritten(now + 3600) && !u.IsOnline(now + 3600)
  {
  }

  datatype Post = Post(authorId: int, title: string, body: string, imageFilename: Option<string>)

  /** `Post.is_author`: the relationship compares user identities, so ids. */
  predicate PostIsAuthor(post: Post, user: User)
  {
    post.authorId == user.id
  }

  datatype Comment = Comment(postId: int, authorId: int, body: string, disabled: bool)

  datatype RoomUserAssociation = RoomUserAssociation(user: User, roomId: int)

  datatype Room = Room(name: string, authorId: int, roomUsers: seq<RoomUserAssociation>)

  /** `Room.is_author`. */
  predicate RoomIsAuthor(room: Room, user: User)
  {
    room.authorId == user.id
  }

  /** s occurs in t in order, possibly with gaps. */
  predicate IsSubsequence<T(==)>(s: seq<T>, t: seq<T>)
  {
    s == [] || (t != [] && ((s[0] == t[0] && IsSubsequence(s[1..], t[1..])) || IsSubsequence(s, t[1..])))
  }

  /** The members of rus whose online state is `online`, in their order. */
  function Presence(rus: seq<RoomUserAssociation>, now: int, online: bool): (r: seq<RoomUserAssociation>)
    reads set a | a in rus :: a.user
    ensures forall a | a in r :: a in rus && a.user.IsOnline(now) == online
    ensures forall i | 0 <= i < |rus| :: rus[i].user.IsOnline(now) == online ==> rus[i] in r
    ensures IsSubsequence(r, rus)
  {
    if rus == [] then []
    else if rus[0].user.IsOnline(now) == online then [rus[0]] + Presence(rus[1..], now, online)
    else Presence(rus[1..], now, online)
  }

  /** `Room.online_users`. */
  function OnlineUsers(room: Room, now: int): seq<RoomUserAssociation>
    reads set a | a in room.roomUsers :: a.user
  {
    Presence(room.roomUsers, now, true)
  }

  /** `Room.offline_users`. */
  function OfflineUsers(room: Room, now: int): seq<RoomUserAssociation>
    reads set a | a in room.roomUsers :: a.user
  {
    Presence(room.roomUsers, now, false)
  }

  lemma {:induction false} PresenceSplits(rus: seq<RoomUserAssociation>, now: int)
    ensures multiset(Presence(rus, now, true)) + multiset(Presence(rus, now, false)) == multiset(rus)
  {
    if rus != [] {
      var rest := rus[1..];
      PresenceSplits(rest, now);
      assert rus == [rus[0]] + rest;
      if rus[0].user.IsOnline(now) {
        assert Presence(rus, now, true) == [rus[0]] + Presence(rest, now, true);
        assert Presence(rus, now, false) == Presence(rest, now, false);
      } else {
        assert Presence(rus, now, true) == Presence(rest, now, true);
        assert Presence(rus, now, false) == [rus[0]] + Presence(rest, now, false);
      }
    }
  }

  /** online_users and offline_users partition the room's members: no member
      is in both, together they are all members with multiplicity, and each
      keeps the members' order. */
  lemma PresencePartition(room: Room, now: int)
    ensures forall a | a in OnlineUsers(room, now) :: a !in OfflineUsers(room, now)
    ensures multiset(OnlineUsers(room, now)) + multiset(OfflineUsers(room, now)) == multiset(room.roomUsers)
    ensures IsSubsequence(OnlineUsers(room, now), room.roomUsers)
    ensures IsSubsequence(OfflineUsers(room, now), room.roomUsers)
  {
    PresenceSplits(room.roomUsers, now);
  }

  /** The tables the handlers change, as the database session sees them. */
  class Store {
    /** Roles by their unique name. */
    var roles: map<string, Role>
    /** Rows of `follows` as (follower_id, followed_id); at most one per pair. */
    var follows: set<(int, int)>
    var posts: map<int, Post>
    var comments: map<int, Comment>
    var rooms: map<int, Room>
    /** Users by primary key. */
    var users: map<int, User>

    /** Each role is stored under its own name, each user under its own id. */
    ghost predicate Valid()
      reads this
    {
      && (forall n | n in roles :: roles[n].name == n)
      && (forall i | i in users :: users[i].id == i)
    }

    constructor ()
      ensures Valid()
      ensures roles == map[] && follows == {} && posts == map[]
      ensures comments == map[] && rooms == map[] && users == map[]
    {
      roles, follows, posts := map[], {}, map[];
      comments, rooms, users := map[], map[], map[];
    }
  }
}
