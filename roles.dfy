/**
 * Role lookups of src/discord/roles.rs: a guild's roles ordered by position,
 * a member's roles, the union of their permissions, the permission table
 * and role mentions. The guild's roles arrive from the Discord API as the
 * values of a map, so in no particular order; they are a parameter here.
 * A permission set is modelled as the set of its flag names, so
 * `get_permission_names` is the identity on it.
 */
module Roles {
  import opened Base

  type RoleId = u64
  type u16 = x: int | 0 <= x < 0x1_0000

  /** The flag name whose presence grants every permission (roles.rs:48). */
  const AdministratorName: string := "Administrator"
  /** The name Discord gives the role every member has (roles.rs:69). */
  const EveryoneName: string := "@everyone"

  /** The fields of serenity's `Role` that the code reads. */
  datatype Role = Role(id: RoleId, name: string, position: u16, permissions: set<string>)

  /** The fields of serenity's `Member` that the code reads: the ids of its roles. */
  datatype Member = Member(roles: seq<RoleId>)

  // ---------------------------------------------------------------------
  // `get_guild_roles`: highest position first

  predicate SortedByPosition(rs: seq<Role>) {
    forall i, j :: 0 <= i < j < |rs| ==> rs[i].position >= rs[j].position
  }

  /** In an order by position, no role after the first is above it. */
  lemma HeadIsHighest(sorted: seq<Role>, x: Role)
    requires SortedByPosition(sorted) && sorted != [] && x in sorted[1..]
    ensures x.position <= sorted[0].position
  {
    var m :| 0 <= m < |sorted[1..]| && sorted[1..][m] == x;
    assert sorted[m + 1] == x;
  }

  /** A role at or above every role of an order by position can go in front of it. */
  lemma SortedCons(x: Role, rest: seq<Role>)
    requires SortedByPosition(rest)
    requires forall k :: 0 <= k < |rest| ==> rest[k].position <= x.position
    ensures SortedByPosition([x] + rest)
  {
    var out := [x] + rest;
    forall i, j | 0 <= i < j < |out| ensures out[i].position >= out[j].position {
      if i > 0 {
        assert out[i] == rest[i - 1] && out[j] == rest[j - 1];
      } else {
        assert out[j] == rest[j - 1];
      }
    }
  }

  /** `r` put before the first role of `sorted` whose position is not above its own. */
  function Insert(r: Role, sorted: seq<Role>): (out: seq<Role>)
    requires SortedByPosition(sorted)
    ensures SortedByPosition(out)
    ensures multiset(out) == multiset(sorted) + multiset{r}
  {
    if sorted == [] || sorted[0].position <= r.position then
      SortedCons(r, sorted);
      [r] + sorted
    else
      var rest := Insert(r, sorted[1..]);
      assert forall k :: 0 <= k < |rest| ==> rest[k].position <= sorted[0].position by {
        forall k | 0 <= k < |rest| ensures rest[k].position <= sorted[0].position {
          assert rest[k] in multiset(rest);
          if rest[k] != r {
            HeadIsHighest(sorted, rest[k]);
          }
        }
      }
      SortedCons(sorted[0], rest);
      assert multiset([sorted[0]] + rest) == multiset(sorted) + multiset{r} by {
        assert sorted == [sorted[0]] + sorted[1..];
      }
      [sorted[0]] + rest
  }

  /**
   * `roles.sort_by(|a, b| b.position.cmp(&a.position))` (roles.rs:14-15):
   * the roles ordered by position, highest first.
   */
  function SortByPosition(roles: seq<Role>): (sorted: seq<Role>)
    ensures SortedByPosition(sorted)
    ensures multiset(sorted) == multiset(roles)
  {
    if roles == [] then []
    else
      assert roles == [roles[0]] + roles[1..];
      Insert(roles[0], SortByPosition(roles[1..]))
  }

  /** `get_guild_roles` (roles.rs:11-18), with the guild's roles as a parameter. */
  function GuildRoles(roles: seq<Role>): (sorted: seq<Role>)
    ensures SortedByPosition(sorted)
    ensures multiset(sorted) == multiset(roles)
    ensures forall r :: r in sorted <==> r in roles
  {
    var sorted := SortByPosition(roles);
    assert forall r :: r in sorted <==> r in multiset(roles);
    sorted
  }

  // ---------------------------------------------------------------------
  // `get_user_roles`: the guild's roles the member has, in the same order

  /** `.filter(|role| user.roles.contains(&role.id))` (roles.rs:24-26). */
  function HeldBy(rs: seq<Role>, member: Member): (held: seq<Role>)
    ensures |held| <= |rs|
  {
    if rs == [] then []
    else if rs[0].id in member.roles then [rs[0]] + HeldBy(rs[1..], member)
    else HeldBy(rs[1..], member)
  }

  /** Filtering a concatenation filters each part, so the order of the input is kept. */
  lemma {:induction false} HeldByAppend(a: seq<Role>, b: seq<Role>, member: Member)
    ensures HeldBy(a + b, member) == HeldBy(a, member) + HeldBy(b, member)
    decreases |a|
  {
    if a == [] {
      assert a + b == b;
    } else {
      assert (a + b)[0] == a[0] && (a + b)[1..] == a[1..] + b;
      HeldByAppend(a[1..], b, member);
    }
  }

  /** Exactly the roles whose id the member lists are kept. */
  lemma {:induction false} HeldByKeepsExactlyHeld(rs: seq<Role>, member: Member, r: Role)
    ensures r in HeldBy(rs, member) <==> r in rs && r.id in member.roles
    decreases |rs|
  {
    if rs != [] {
      HeldByKeepsExactlyHeld(rs[1..], member, r);
      assert rs == [rs[0]] + rs[1..];
    }
  }

  /** The kept roles are a subsequence, so filtering keeps an order by position. */
  lemma {:induction false} HeldByKeepsOrder(rs: seq<Role>, member: Member)
    requires SortedByPosition(rs)
    ensures SortedByPosition(HeldBy(rs, member))
    decreases |rs|
  {
    if rs != [] {
      var rest := HeldBy(rs[1..], member);
      assert SortedByPosition(rest) by {
        HeldByKeepsOrder(rs[1..], member);
      }
      forall k | 0 <= k < |rest| ensures rest[k].position <= rs[0].position {
        HeldByKeepsExactlyHeld(rs[1..], member, rest[k]);
        var m :| 0 <= m < |rs[1..]| && rs[1..][m] == rest[k];
        assert rs[m + 1] == rest[k];
      }
    }
  }

  /** `get_user_roles` (roles.rs:20-27): the member's roles, highest position first. */
  function UserRoles(guildRoles: seq<Role>, member: Member): (roles: seq<Role>)
    ensures SortedByPosition(roles)
    ensures forall r :: r in roles <==> r in guildRoles && r.id in member.roles
  {
    var roles := HeldBy(GuildRoles(guildRoles), member);
    HeldByKeepsOrder(GuildRoles(guildRoles), member);
    forall r ensures r in roles <==> r in guildRoles && r.id in member.roles {
      HeldByKeepsExactlyHeld(GuildRoles(guildRoles), member, r);
    }
    roles
  }

  // ---------------------------------------------------------------------
  // `get_all_permissions`: the union of the member's role permissions

  /** The permissions of the roles, joined from the first to the last. */
  function PermissionUnion(rs: seq<Role>): (granted: set<string>)
    ensures forall i :: 0 <= i < |rs| ==> rs[i].permissions <= granted
    decreases |rs|
  {
    if rs == [] then {} else PermissionUnion(rs[..|rs| - 1]) + rs[|rs| - 1].permissions
  }

  /** A permission is in the union exactly when some role grants it. */
  lemma {:induction false} PermissionUnionGrants(rs: seq<Role>, p: string)
    ensures p in PermissionUnion(rs) <==> exists i :: 0 <= i < |rs| && p in rs[i].permissions
    decreases |rs|
  {
    if rs != [] {
      var init := rs[..|rs| - 1];
      PermissionUnionGrants(init, p);
      if exists i :: 0 <= i < |init| && p in init[i].permissions {
        var i :| 0 <= i < |init| && p in init[i].permissions;
        assert rs[i] == init[i];
      }
      if exists i :: 0 <= i < |rs| && p in rs[i].permissions {
        var i :| 0 <= i < |rs| && p in rs[i].permissions;
        if i < |init| {
          assert init[i] == rs[i];
        }
      }
    }
  }

  /** The union does not depend on the order of the roles. */
  lemma PermissionUnionIgnoresOrder(a: seq<Role>, b: seq<Role>)
    requires multiset(a) == multiset(b)
    ensures PermissionUnion(a) == PermissionUnion(b)
  {
    forall p ensures p in PermissionUnion(a) <==> p in PermissionUnion(b) {
      PermissionUnionGrants(a, p);
      PermissionUnionGrants(b, p);
      if exists i :: 0 <= i < |a| && p in a[i].permissions {
        var i :| 0 <= i < |a| && p in a[i].permissions;
        assert a[i] in multiset(b);
        var j :| 0 <= j < |b| && b[j] == a[i];
      }
      if exists j :: 0 <= j < |b| && p in b[j].permissions {
        var j :| 0 <= j < |b| && p in b[j].permissions;
        assert b[j] in multiset(a);
        var i :| 0 <= i < |a| && a[i] == b[j];
      }
    }
  }

  /** The permissions granted by the roles the member holds. */
  function MemberPermissions(guildRoles: seq<Role>, member: Member): set<string> {
    PermissionUnion(UserRoles(guildRoles, member))
  }

  /** A member has a permission exactly when one of the guild's roles it holds grants it. */
  lemma MemberPermissionsGrants(guildRoles: seq<Role>, member: Member, p: string)
    ensures p in MemberPermissions(guildRoles, member) <==>
      exists r :: r in guildRoles && r.id in member.roles && p in r.permissions
  {
    var roles := UserRoles(guildRoles, member);
    PermissionUnionGrants(roles, p);
    if exists r :: r in guildRoles && r.id in member.roles && p in r.permissions {
      var r :| r in guildRoles && r.id in member.roles && p in r.permissions;
      var i :| 0 <= i < |roles| && roles[i] == r;
    }
  }

  /** A member that holds none of the guild's roles has no permission. */
  lemma MemberWithoutRolesHasNone(guildRoles: seq<Role>, member: Member)
    requires forall r :: r in guildRoles ==> r.id !in member.roles
    ensures MemberPermissions(guildRoles, member) == {}
  {
    forall p | p in MemberPermissions(guildRoles, member) ensures false {
      MemberPermissionsGrants(guildRoles, member, p);
    }
  }

  /**
   * `get_all_permissions` (roles.rs:29-38): starting from no permission,
   * add the permissions of each of the member's roles.
   */
  method AllPermissions(guildRoles: seq<Role>, member: Member) returns (permissions: set<string>)
    ensures permissions == MemberPermissions(guildRoles, member)
  {
    permissions := {};
    var roles := UserRoles(guildRoles, member);

    for i := 0 to |roles|
      invariant permissions == PermissionUnion(roles[..i])
    {
      assert roles[..i + 1][..i] == roles[..i];
      permissions := permissions + roles[i].permissions;
    }
    assert roles[..|roles|] == roles;
  }

  // ---------------------------------------------------------------------
  // `get_permissions`: every permission name with whether the member has it

  /** The table `get_permissions` builds: each of `all` maps to whether `granted` gives it. */
  function PermissionTable(granted: set<string>, all: seq<string>): (table: map<string, bool>)
    ensures table.Keys == Names(all)
    ensures AdministratorName in granted ==> forall n :: n in table ==> table[n]
    ensures AdministratorName !in granted ==> forall n :: n in table ==> (table[n] <==> n in granted)
  {
    map n | n in all :: AdministratorName in granted || n in granted
  }

  /** With `Administrator`, the table is the one of a member granted every name. */
  lemma AdministratorGrantsAll(granted: set<string>, all: seq<string>)
    requires AdministratorName in granted
    ensures PermissionTable(granted, all) == PermissionTable(granted + Names(all), all)
  {
  }

  /** The names listed in `names`. */
  function Names(names: seq<string>): set<string> {
    set n | n in names
  }

  /** The names of a prefix of `all`, one name longer. */
  lemma NamesStep(all: seq<string>, i: nat)
    requires i < |all|
    ensures Names(all[..i + 1]) == Names(all[..i]) + {all[i]}
  {
    assert all[..i + 1] == all[..i] + [all[i]];
  }

  /** A map over the names of `all` that agrees with the table everywhere is the table. */
  lemma IsPermissionTable(m: map<string, bool>, granted: set<string>, all: seq<string>)
    requires m.Keys == Names(all[..|all|])
    requires forall n :: n in m ==> (m[n] <==> AdministratorName in granted || n in granted)
    ensures m == PermissionTable(granted, all)
  {
    assert all[..|all|] == all;
  }

  /**
   * `get_permissions` (roles.rs:40-61), with the names of all permission
   * flags as the parameter `all`.
   */
  method GetPermissions(guildRoles: seq<Role>, member: Member, all: seq<string>) returns (permissions: map<string, bool>)
    ensures permissions == PermissionTable(MemberPermissions(guildRoles, member), all)
  {
    permissions := map[];
    var user := AllPermissions(guildRoles, member);

    if AdministratorName in user {
      for i := 0 to |all|
        invariant permissions.Keys == Names(all[..i])
        invariant forall n :: n in permissions ==> permissions[n]
      {
        NamesStep(all, i);
        permissions := permissions[all[i] := true];
      }
      IsPermissionTable(permissions, user, all);
      return;
    }

    for i := 0 to |all|
      invariant permissions.Keys == Names(all[..i])
      invariant forall n :: n in permissions ==> (permissions[n] <==> n in user)
    {
      NamesStep(all, i);
      var hasPermission := all[i] in user;
      permissions := permissions[all[i] := hasPermission];
    }
    IsPermissionTable(permissions, user, all);
  }

  // ---------------------------------------------------------------------
  // `RoleExt::as_mention`

  /** The character of a decimal digit. */
  function Digit(d: nat): (c: char)
    requires d < 10
    ensures c as int - '0' as int == d
  {
    ('0' as int + d) as char
  }

  /** `format!("{}", n)` for a non-negative integer: its decimal digits. */
  function DecimalString(n: nat): (s: string)
    ensures |s| >= 1
    ensures forall k :: 0 <= k < |s| ==> '0' <= s[k] <= '9'
    ensures |s| > 1 ==> s[0] != '0'
    decreases n
  {
    if n < 10 then [Digit(n)] else DecimalString(n / 10) + [Digit(n % 10)]
  }

  /** The value of a string of decimal digits. */
  function ParseDecimal(s: string): nat
    requires forall k :: 0 <= k < |s| ==> '0' <= s[k] <= '9'
    decreases |s|
  {
    if s == [] then 0 else ParseDecimal(s[..|s| - 1]) * 10 + (s[|s| - 1] as int - '0' as int)
  }

  /** Reading the digits back gives the number: printing ids loses nothing. */
  lemma {:induction false} ParseDecimalString(n: nat)
    ensures ParseDecimal(DecimalString(n)) == n
    decreases n
  {
    var s := DecimalString(n);
    if n >= 10 {
      assert s[..|s| - 1] == DecimalString(n / 10) && s[|s| - 1] == Digit(n % 10);
      ParseDecimalString(n / 10);
      assert ParseDecimal(s) == (n / 10) * 10 + n % 10;
    }
  }

  /** `as_mention` (roles.rs:67-75): `@everyone` for that role, `<@&id>` for any other. */
  function AsMention(role: Role): (mention: string)
    ensures role.name == EveryoneName ==> mention == EveryoneName
    ensures role.name != EveryoneName ==>
      && |mention| >= 5
      && mention[..3] == "<@&" && mention[|mention| - 1] == '>'
      && mention[3..|mention| - 1] == DecimalString(role.id)
  {
    if role.name == EveryoneName then EveryoneName
    else
      var m := "<@&" + DecimalString(role.id) + ">";
      assert m[3..|m| - 1] == DecimalString(role.id);
      m
  }

  /** A mention reads `@everyone` exactly for the role of that name. */
  lemma MentionsEveryoneOnlyForEveryone(role: Role)
    ensures AsMention(role) == EveryoneName <==> role.name == EveryoneName
  {
    if role.name != EveryoneName {
      assert AsMention(role)[0] == '<' != EveryoneName[0];
    }
  }

  /** Mentions of roles other than `@everyone` identify the role id. */
  lemma MentionIdentifiesRole(a: Role, b: Role)
    requires a.name != EveryoneName && b.name != EveryoneName
    ensures AsMention(a) == AsMention(b) <==> a.id == b.id
  {
    if AsMention(a) == AsMention(b) {
      var m := AsMention(a);
      ParseDecimalString(a.id);
      ParseDecimalString(b.id);
      assert DecimalString(a.id) == m[3..|m| - 1] == DecimalString(b.id);
    }
  }
}
