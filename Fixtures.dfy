/** Role seeding of app/fixtures.py (`_load_roles`): each of three canonical
    roles is looked up by name, created when missing, reset to no
    permissions and then given each of its listed flags in turn. */
module Fixtures {
  import opened Wrappers
  import opened Bits
  import opened Permissions
  import opened Models

  /** One entry of the role list: name, permissions, default flag. */
  datatype RoleSeed = RoleSeed(name: string, permissions: seq<nat>, isDefault: bool)

  const RoleSeeds: seq<RoleSeed> := [
    RoleSeed("User", [FOLLOW, COMMENT, WRITE], true),
    RoleSeed("Moderator", [FOLLOW, COMMENT, WRITE, MODERATE], false),
    RoleSeed("Administrator", [FOLLOW, COMMENT, WRITE, MODERATE, ADMIN], false)
  ]

  /** The mask after `reset_permission()` followed by `add_permission(p)` for
      each p of perms in order. */
  function SeededMask(perms: seq<nat>): nat
  {
    if perms == [] then 0 else Added(SeededMask(perms[..|perms| - 1]), perms[|perms| - 1])
  }

  /** Seeding with single flags sets exactly the bits of the listed flags,
      whatever their order and repetitions. */
  lemma {:induction false} SeededMaskBits(perms: seq<nat>, ks: seq<nat>)
    requires |ks| == |perms|
    requires forall i | 0 <= i < |perms| :: perms[i] == Pow2(ks[i])
    ensures forall j: nat :: Bit(SeededMask(perms), j) == (j in ks)
  {
    if perms == [] {
      forall j: nat ensures !Bit(0, j) { BitOfZero(j); }
    } else {
      var n := |perms| - 1;
      SeededMaskBits(perms[..n], ks[..n]);
      AddedFlag(SeededMask(perms[..n]), ks[n]);
      assert ks == ks[..n] + [ks[n]];
      forall j: nat ensures Bit(SeededMask(perms), j) == (j in ks) {
        assert (j in ks) == (j in ks[..n] || j == ks[n]);
      }
    }
  }

  /** The three seeded masks are 7, 15 and 31. */
  lemma SeededMasks()
    ensures SeededMask(RoleSeeds[0].permissions) == 7
    ensures SeededMask(RoleSeeds[1].permissions) == 15
    ensures SeededMask(RoleSeeds[2].permissions) == 31
  {
    var ps := RoleSeeds[2].permissions;
    assert SeededMask(ps[..1]) == 1 by { assert ps[..1][..0] == []; }
    assert SeededMask(ps[..2]) == 3 by { assert ps[..2][..1] == ps[..1]; assert BitAnd(1, 2) == 0; }
    assert SeededMask(ps[..3]) == 7 by { assert ps[..3][..2] == ps[..2]; assert BitAnd(3, 4) == 2 * BitAnd(1, 2); }
    assert SeededMask(ps[..4]) == 15 by { assert ps[..4][..3] == ps[..3]; assert BitAnd(7, 8) == 2 * BitAnd(3, 4); }
    assert SeededMask(ps) == 31 by { assert ps[..4] == ps[..|ps| - 1]; assert BitAnd(15, 16) == 2 * BitAnd(7, 8); }
    assert RoleSeeds[0].permissions == ps[..3];
    assert RoleSeeds[1].permissions == ps[..4];
  }

  /** The stored state of a role row that `_load_roles` decides. */
  datatype RoleRow = RoleRow(permissions: nat, isDefault: bool)

  /** The row of each stored role, by name. */
  ghost function Table(roles: map<string, Role>): (t: map<string, RoleRow>)
    reads roles.Values
    ensures t.Keys == roles.Keys
  {
    map n | n in roles :: RoleRow(roles[n].permissions, roles[n].isDefault)
  }

  /** The table after one iteration: the role gets its seeded mask; its
      default flag is the listed one only when the role is created. */
  function TableAfter(t: map<string, RoleRow>, seed: RoleSeed): map<string, RoleRow>
  {
    t[seed.name := RoleRow(SeededMask(seed.permissions),
                           if seed.name in t then t[seed.name].isDefault else seed.isDefault)]
  }

  /** The table after seeding a list of roles in order. */
  function SeededTable(t: map<string, RoleRow>, seeds: seq<RoleSeed>): map<string, RoleRow>
  {
    if seeds == [] then t
    else TableAfter(SeededTable(t, seeds[..|seeds| - 1]), seeds[|seeds| - 1])
  }

  /** Names of a role list. */
  function Names(seeds: seq<RoleSeed>): set<string>
  {
    set i | 0 <= i < |seeds| :: seeds[i].name
  }

  /** The three seed names are pairwise different. */
  lemma SeedNamesDistinct()
    ensures forall i, j | 0 <= i < j < |RoleSeeds| :: RoleSeeds[i].name != RoleSeeds[j].name
  {
    assert |RoleSeeds[0].name| == 4 && |RoleSeeds[1].name| == 9 && |RoleSeeds[2].name| == 13;
  }

  lemma NamesOfPrefix(seeds: seq<RoleSeed>, k: nat)
    requires k < |seeds|
    ensures Names(seeds[..k + 1]) == Names(seeds[..k]) + {seeds[k].name}
  {
    assert forall i | 0 <= i < k :: seeds[..k + 1][i] == seeds[..k][i];
    if k + 1 == |seeds| {
      assert seeds[..k + 1] == seeds;
    }
  }

  /** Seeding adds exactly the listed names to the table and leaves the
      rows of the other roles alone. */
  lemma {:induction false} SeededTableKeep(t: map<string, RoleRow>, seeds: seq<RoleSeed>)
    ensures SeededTable(t, seeds).Keys == t.Keys + Names(seeds)
    ensures forall n | n in t && n !in Names(seeds) :: SeededTable(t, seeds)[n] == t[n]
  {
    if seeds != [] {
      var m := |seeds| - 1;
      SeededTableKeep(t, seeds[..m]);
      NamesOfPrefix(seeds, m);
      assert seeds[..m + 1] == seeds;
    }
  }

  /** With distinct names, each listed role ends with its seeded mask, keeps
      the default flag it had, and takes the listed flag when it is new. */
  lemma {:induction false} SeededTableListed(t: map<string, RoleRow>, seeds: seq<RoleSeed>)
    requires forall i, j | 0 <= i < j < |seeds| :: seeds[i].name != seeds[j].name
    ensures forall i | 0 <= i < |seeds| ::
      && seeds[i].name in SeededTable(t, seeds)
      && SeededTable(t, seeds)[seeds[i].name].permissions == SeededMask(seeds[i].permissions)
      && SeededTable(t, seeds)[seeds[i].name].isDefault ==
         (if seeds[i].name in t then t[seeds[i].name].isDefault else seeds[i].isDefault)
  {
    if seeds != [] {
      var m := |seeds| - 1;
      var init, last := seeds[..m], seeds[m];
      assert forall i | 0 <= i < m :: init[i] == seeds[i];
      SeededTableListed(t, init);
      SeededTableKeep(t, init);
      NamesOfPrefix(seeds, m);
      assert seeds[..m + 1] == seeds;
      assert last.name !in Names(init);
      var prev := SeededTable(t, init);
      assert SeededTable(t, seeds) == TableAfter(prev, last);
      assert last.name in prev <==> last.name in t;
    }
  }

  /** The three seeds give User 7, Moderator 15 and Administrator 31, add
      exactly those names, and leave every other row alone. */
  lemma LoadedTable(t: map<string, RoleRow>)
    ensures SeededTable(t, RoleSeeds).Keys == t.Keys + {"User", "Moderator", "Administrator"}
    ensures SeededTable(t, RoleSeeds)["User"].permissions == 7
    ensures SeededTable(t, RoleSeeds)["Moderator"].permissions == 15
    ensures SeededTable(t, RoleSeeds)["Administrator"].permissions == 31
    ensures forall i | 0 <= i < |RoleSeeds| ::
      SeededTable(t, RoleSeeds)[RoleSeeds[i].name].isDefault ==
      (if RoleSeeds[i].name in t then t[RoleSeeds[i].name].isDefault else RoleSeeds[i].isDefault)
    ensures forall n | n in t && n !in {"User", "Moderator", "Administrator"} :: SeededTable(t, RoleSeeds)[n] == t[n]
  {
    SeedNamesDistinct();
    SeededTableKeep(t, RoleSeeds);
    SeededTableListed(t, RoleSeeds);
    SeededMasks();
    assert RoleSeeds[0].name == "User" && RoleSeeds[1].name == "Moderator" && RoleSeeds[2].name == "Administrator";
    assert Names(RoleSeeds) == {"User", "Moderator", "Administrator"};
  }

  /** Seeding a second time changes nothing: each listed role already exists,
      so keeps its default flag, and its mask is fixed whatever it was. */
  lemma LoadingIsIdempotent(t: map<string, RoleRow>)
    ensures SeededTable(SeededTable(t, RoleSeeds), RoleSeeds) == SeededTable(t, RoleSeeds)
  {
    var once := SeededTable(t, RoleSeeds);
    var twice := SeededTable(once, RoleSeeds);
    LoadedTable(t);
    LoadedTable(once);
    assert RoleSeeds[0].name == "User" && RoleSeeds[1].name == "Moderator" && RoleSeeds[2].name == "Administrator";
    forall n | n in twice ensures n in once && twice[n] == once[n] {
      if n == "User" {
        assert twice[n].isDefault == once[n].isDefault;
      } else if n == "Moderator" {
        assert twice[n].isDefault == once[n].isDefault;
      } else if n == "Administrator" {
        assert twice[n].isDefault == once[n].isDefault;
      }
    }
  }

  /** `reset_permission()` followed by `add_permission(p)` for each listed p. */
  method SeedPermissions(role: Role, perms: seq<nat>)
    modifies role`permissions
    ensures role.permissions == SeededMask(perms)
  {
    role.ResetPermission();
    for i := 0 to |perms|
      invariant role.permissions == SeededMask(perms[..i])
    {
      assert perms[..i + 1][..i] == perms[..i];
      role.AddPermission(perms[i]);
    }
    assert perms[..|perms|] == perms;
  }

  /** Storing the looked-up or newly created role keeps every entry an
      earlier table had and keeps each role under its own name. */
  lemma StoreKeepsEntries(roles0: map<string, Role>, roles: map<string, Role>, name: string, role: Role, stored: map<string, Role>)
    requires forall n | n in roles :: roles[n].name == n
    requires forall n | n in roles0 :: n in roles && roles[n] == roles0[n]
    requires name in roles ==> role == roles[name]
    requires role.name == name
    requires stored == roles[name := role]
    ensures forall n | n in stored :: stored[n].name == n
    ensures forall n | n in roles0 :: n in stored && stored[n] == roles0[n]
  {
  }

  /** With roles stored under their own names, a role named `name` is not
      stored under any other name. */
  lemma OthersAreOtherObjects(roles: map<string, Role>, name: string, role: Role)
    requires forall n | n in roles :: roles[n].name == n
    requires role.name == name
    ensures forall n | n in roles && n != name :: roles[n] != role
  {
  }

  /** One iteration of the loop of `_load_roles`: look the role up by name,
      create it from the seed when missing, reset its mask and add the listed
      flags, and stage it in the session under its name. */
  method SeedRole(session: map<string, Role>, seed: RoleSeed) returns (staged: map<string, Role>, role: Role)
    requires forall n | n in session :: session[n].name == n
    modifies if seed.name in session then {session[seed.name]} else {}
    ensures staged == session[seed.name := role] && role.name == seed.name
    ensures forall n | n in staged :: staged[n].name == n
    ensures seed.name in session ==> role == session[seed.name]
    ensures seed.name !in session ==> fresh(role)
    ensures Table(staged) == TableAfter(old(Table(session)), seed)
  {
    if seed.name in session {
      role := session[seed.name];
    } else {
      role := new Role(seed.name, seed.isDefault, None);
    }
    OthersAreOtherObjects(session, seed.name, role);
    SeedPermissions(role, seed.permissions);
    staged := session[seed.name := role];
    ghost var now, expected := Table(staged), TableAfter(old(Table(session)), seed);
    forall n | n in staged ensures n in now && n in expected && now[n] == expected[n] {
      if n != seed.name {
        assert session[n] != role;
      }
    }
  }

  /** The loop of `_load_roles` over a list of roles, in order. The roles
      are staged in the session and written back by the final commit. */
  method SeedRoles(db: Store, seeds: seq<RoleSeed>)
    requires db.Valid()
    modifies db`roles, db.roles.Values
    ensures db.Valid()
    ensures forall n | n in old(db.roles) :: n in db.roles && db.roles[n] == old(db.roles)[n]
    ensures forall n | n in db.roles && n !in old(db.roles) :: fresh(db.roles[n])
    ensures Table(db.roles) == SeededTable(old(Table(db.roles)), seeds)
  {
    var session: map<string, Role> := db.roles;
    ghost var roles0, t0 := session, Table(session);
    for k := 0 to |seeds|
      invariant forall n | n in session :: session[n].name == n
      invariant forall n | n in roles0 :: n in session && session[n] == roles0[n]
      invariant forall n | n in session && n !in roles0 :: fresh(session[n])
      invariant Table(session) == SeededTable(t0, seeds[..k])
    {
      assert seeds[..k + 1][..k] == seeds[..k] && seeds[..k + 1][k] == seeds[k];
      ghost var before := session;
      var role;
      session, role := SeedRole(session, seeds[k]);
      StoreKeepsEntries(roles0, before, seeds[k].name, role, session);
    }
    assert seeds[..|seeds|] == seeds;
    db.roles := session;
  }

  /** `_load_roles`: afterwards User has mask 7, Moderator 15 and
      Administrator 31, whatever they held before; an existing role keeps its
      object and its default flag, a missing one is created with the listed
      flag; roles not in the list are untouched. */
  method LoadRoles(db: Store)
    requires db.Valid()
    modifies db`roles, db.roles.Values
    ensures db.Valid()
    ensures db.roles.Keys == old(db.roles).Keys + {"User", "Moderator", "Administrator"}
    ensures db.roles["User"].permissions == 7
    ensures db.roles["Moderator"].permissions == 15
    ensures db.roles["Administrator"].permissions == 31
    ensures forall n | n in old(db.roles) :: db.roles[n] == old(db.roles)[n]
    ensures forall n | n in old(db.roles) && n !in {"User", "Moderator", "Administrator"} ::
      db.roles[n].permissions == old(db.roles[n].permissions)
    ensures forall i | 0 <= i < |RoleSeeds| && RoleSeeds[i].name !in old(db.roles) ::
      fresh(db.roles[RoleSeeds[i].name]) && db.roles[RoleSeeds[i].name].isDefault == RoleSeeds[i].isDefault
  {
    ghost var t0 := Table(db.roles);
    SeedRoles(db, RoleSeeds);
    LoadedTable(t0);
    ghost var t := Table(db.roles);
    assert t["User"].permissions == db.roles["User"].permissions;
    assert t["Moderator"].permissions == db.roles["Moderator"].permissions;
    assert t["Administrator"].permissions == db.roles["Administrator"].permissions;
  }
}
