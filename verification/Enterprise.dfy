/** Bringing the users, roles and permissions of an Enterprise meta server to a wanted state, one
    remote action at a time. */
module Enterprise {
  import opened Collections
  import opened Wrappers
  import opened Slices

  // ---------- differences ----------

  function NotIn<T(==)>(s: seq<T>): T -> bool {
    (x: T) => x !in s
  }

  function Minus<T(==)>(a: seq<T>, b: seq<T>): seq<T> {
    Filter(NotIn(b), a)
  }

  function ToSet<T(==)>(s: seq<T>): set<T> {
    set x | x in s
  }

  method Difference<T(==)>(wants: seq<T>, haves: seq<T>) returns (revoke: seq<T>, add: seq<T>)
    ensures revoke == Minus(haves, wants) && add == Minus(wants, haves)
  {
    add := [];
    for i := 0 to |wants|
      invariant add == Minus(wants[..i], haves)
    {
      var found := false;
      for j := 0 to |haves|
        invariant found <==> wants[i] in haves[..j]
      {
        if wants[i] != haves[j] {
          continue;
        }
        found := true;
      }
      assert haves[..|haves|] == haves && wants[..i + 1][..i] == wants[..i];
      if !found {
        add := add + [wants[i]];
      }
    }
    revoke := [];
    for i := 0 to |haves|
      invariant revoke == Minus(haves[..i], wants)
    {
      var found := false;
      for j := 0 to |wants|
        invariant !found && haves[i] !in wants[..j]
      {
        if wants[j] != haves[i] {
          continue;
        }
        found := true;
        break;
      }
      assert wants[..|wants|] == wants && haves[..i + 1][..i] == haves[..i];
      if !found {
        revoke := revoke + [haves[i]];
      }
    }
    assert wants[..|wants|] == wants && haves[..|haves|] == haves;
  }

  /** As sets: what is revoked is what is had and not wanted, what is added is wanted and not had. */
  lemma MinusIsDifference<T>(a: seq<T>, b: seq<T>)
    ensures ToSet(Minus(a, b)) == ToSet(a) - ToSet(b)
  {
    forall x | x in ToSet(Minus(a, b)) ensures x in ToSet(a) - ToSet(b) {
      FilterMembers(NotIn(b), a, x);
    }
    forall x | x in ToSet(a) - ToSet(b) ensures x in ToSet(Minus(a, b)) {
      FilterMembers(NotIn(b), a, x);
    }
  }

  // ---------- permissions ----------

  datatype Scope = Scope(name: string)

  datatype Permission = Permission(name: string)

  /** A list of permissions for each scope. */
  type Permissions = map<Scope, seq<Permission>>

  datatype Grant = Grant(scope: Scope, allowed: Permission)

  /** The permissions of all scopes as one set. */
  function Grants(p: Permissions): set<Grant> {
    set scope, x | scope in p && x in p[scope] :: Grant(scope, x)
  }

  /** The part of `a` that is not in `b`, scope by scope; a scope stays even with nothing in it. */
  function Outside(a: Permissions, b: Permissions): Permissions {
    map scope | scope in a :: if scope in b then Minus(a[scope], b[scope]) else a[scope]
  }

  method PermissionsDifference(wants: Permissions, haves: Permissions) returns (revoke: Permissions, add: Permissions)
    ensures revoke == Outside(haves, wants) && add == Outside(wants, haves)
  {
    revoke, add := map[], map[];
    var todo := wants.Keys;
    ghost var done: set<Scope> := {};
    while todo != {}
      invariant done + todo == wants.Keys && done !! todo
      invariant Covers(wants, haves, done, add) && Covers(haves, wants, haves.Keys * done, revoke)
    {
      var scope: Scope :| scope in todo;
      CoversMore(wants, haves, done, add, scope);
      CoversCommon(haves, wants, done, revoke, scope);
      if scope in haves {
        var r, a := Difference(wants[scope], haves[scope]);
        revoke := revoke[scope := r];
        add := add[scope := a];
      } else {
        add := add[scope := wants[scope]];
      }
      todo, done := todo - {scope}, done + {scope};
    }
    assert done == wants.Keys;
    revoke := AddUnwanted(wants, haves, revoke);
  }

  /** One more scope of the part of `a` outside `b`. */
  lemma CoversMore(a: Permissions, b: Permissions, scopes: set<Scope>, part: Permissions, scope: Scope)
    requires Covers(a, b, scopes, part) && scope in a
    ensures Covers(a, b, scopes + {scope},
                   part[scope := if scope in b then Minus(a[scope], b[scope]) else a[scope]])
  {
  }

  /** One more scope of `b`, which is a scope of `a` or not. */
  lemma CoversCommon(a: Permissions, b: Permissions, scopes: set<Scope>, part: Permissions, scope: Scope)
    requires Covers(a, b, a.Keys * scopes, part) && scope in b
    ensures scope in a ==> Covers(a, b, a.Keys * (scopes + {scope}), part[scope := Minus(a[scope], b[scope])])
    ensures scope !in a ==> Covers(a, b, a.Keys * (scopes + {scope}), part)
  {
    assert scope in a ==> a.Keys * (scopes + {scope}) == a.Keys * scopes + {scope};
    assert scope !in a ==> a.Keys * (scopes + {scope}) == a.Keys * scopes;
  }

  /** The second loop of the difference: all of a scope that is not wanted at all. */
  method AddUnwanted(wants: Permissions, haves: Permissions, some: Permissions) returns (revoke: Permissions)
    requires Covers(haves, wants, haves.Keys * wants.Keys, some)
    ensures revoke == Outside(haves, wants)
  {
    revoke := some;
    var todo := haves.Keys;
    assert haves.Keys * wants.Keys == haves.Keys - (todo - wants.Keys);
    while todo != {}
      invariant todo <= haves.Keys
      invariant Covers(haves, wants, haves.Keys - (todo - wants.Keys), revoke)
    {
      var scope: Scope :| scope in todo;
      ghost var before := todo;
      todo := todo - {scope};
      if scope !in wants {
        assert haves.Keys - (todo - wants.Keys) == haves.Keys - (before - wants.Keys) + {scope};
        revoke := revoke[scope := haves[scope]];
      } else {
        assert haves.Keys - (todo - wants.Keys) == haves.Keys - (before - wants.Keys);
      }
    }
  }

  /** `part` is the part of `a` outside `b` on the given scopes. */
  ghost predicate Covers(a: Permissions, b: Permissions, scopes: set<Scope>, part: Permissions) {
    && part.Keys == scopes && scopes <= a.Keys
    && forall scope :: scope in scopes ==> part[scope] == if scope in b then Minus(a[scope], b[scope]) else a[scope]
  }

  /** For every scope the two halves of the difference are the set differences. */
  lemma OutsideIsDifference(a: Permissions, b: Permissions)
    ensures Grants(Outside(a, b)) == Grants(a) - Grants(b)
  {
    forall g: Grant ensures g in Grants(Outside(a, b)) <==> g in Grants(a) - Grants(b) {
      if g.scope in a && g.scope in b { FilterMembers(NotIn(b[g.scope]), a[g.scope], g.allowed); }
    }
  }

  // ---------- the server ----------

  /** What becomes of an action: it is done; it is refused; it is done but the answer is lost. */
  datatype Outcome = Done | Refused | AnswerLost

  predicate AllDone(outcomes: seq<Outcome>) {
    forall o :: o in outcomes ==> o == Done
  }

  /** One set the meta server keeps (the permissions of a user or a role, the users of a role, or all
      memberships), the outcomes of the actions on it to come, and every state it went through. */
  class Meta<T(==)> {
    var held: set<T>
    var outcomes: seq<Outcome>
    ghost var trace: seq<set<T>>

    constructor (held: set<T>, outcomes: seq<Outcome>)
      ensures this.held == held && this.outcomes == outcomes && trace == [held]
    {
      this.held, this.outcomes, trace := held, outcomes, [held];
    }

    method Post(next: set<T>) returns (ok: bool)
      modifies this
      ensures held == old(held) || held == next
      ensures ok ==> held == next
      ensures trace == old(trace) + [held]
      ensures AllDone(old(outcomes)) ==> ok && AllDone(outcomes)
    {
      var outcome := if outcomes == [] then Done else outcomes[0];
      if outcomes != [] {
        assert outcomes[0] in outcomes && forall o :: o in outcomes[1..] ==> o in outcomes;
        outcomes := outcomes[1..];
      }
      if outcome != Refused {
        held := next;
      }
      trace := trace + [held];
      ok := outcome == Done;
    }

    method Add(some: set<T>) returns (ok: bool)
      modifies this
      ensures held == old(held) || held == old(held) + some
      ensures ok ==> held == old(held) + some
      ensures trace == old(trace) + [held]
      ensures AllDone(old(outcomes)) ==> ok && AllDone(outcomes)
    {
      ok := Post(held + some);
    }

    method Remove(some: set<T>) returns (ok: bool)
      modifies this
      ensures held == old(held) || held == old(held) - some
      ensures ok ==> held == old(held) - some
      ensures trace == old(trace) + [held]
      ensures AllDone(old(outcomes)) ==> ok && AllDone(outcomes)
    {
      ok := Post(held - some);
    }
  }

  // ---------- what may be seen on the way ----------

  /** Between what was had and what is wanted, never with both something new and something unwanted. */
  ghost predicate RevokesFirst<T>(have: set<T>, want: set<T>, now: set<T>) {
    have * want <= now && (now <= have || now <= want)
  }

  /** Between what was had and what is wanted, never without both something had and something wanted. */
  ghost predicate AddsFirst<T>(have: set<T>, want: set<T>, now: set<T>) {
    now <= have + want && (have <= now || want <= now)
  }

  ghost predicate Revoking<T>(have: set<T>, want: set<T>, before: seq<set<T>>, after: seq<set<T>>) {
    before <= after && forall i :: |before| <= i < |after| ==> RevokesFirst(have, want, after[i])
  }

  ghost predicate Adding<T>(have: set<T>, want: set<T>, before: seq<set<T>>, after: seq<set<T>>) {
    before <= after && forall i :: |before| <= i < |after| ==> AddsFirst(have, want, after[i])
  }

  /** First the unwanted are removed, then the missing are added: three states at most. */
  lemma Revokes<T>(have: set<T>, want: set<T>, revoke: set<T>, add: set<T>)
    requires revoke == have - want && add == want - have
    ensures RevokesFirst(have, want, have) && RevokesFirst(have, want, have - revoke)
    ensures have - revoke + add == want && RevokesFirst(have, want, want)
  {
  }

  /** In either order the set stays between have * want and have + want. */
  lemma StaysBetween<T>(have: set<T>, want: set<T>, before: seq<set<T>>, after: seq<set<T>>)
    requires Revoking(have, want, before, after) || Adding(have, want, before, after)
    ensures forall i :: |before| <= i < |after| ==> have * want <= after[i] <= have + want
  {
    forall i | |before| <= i < |after| ensures have * want <= after[i] <= have + want {
      assert RevokesFirst(have, want, after[i]) || AddsFirst(have, want, after[i]);
    }
  }

  // ---------- permission and member updates ----------

  /** First what is not wanted is removed, then what is missing is added; nothing is posted for an empty list. */
  method RevokeThenAdd<T(==)>(meta: Meta<T>, revoke: set<T>, revokes: bool, add: set<T>, adds: bool, ghost want: set<T>)
    returns (ok: bool)
    requires revoke == meta.held - want && add == want - meta.held
    requires (!revokes ==> revoke == {}) && (!adds ==> add == {})
    modifies meta
    ensures Revoking(old(meta.held), want, old(meta.trace), meta.trace)
    ensures ok ==> meta.held == want
    ensures AllDone(old(meta.outcomes)) ==> ok
  {
    Revokes(meta.held, want, revoke, add);
    if revokes {
      ok := meta.Remove(revoke);
      if !ok {
        return;
      }
    }
    if adds {
      ok := meta.Add(add);
      return;
    }
    ok := true;
  }

  /** SetUserPerms and SetRolePerms; `answer` is the server's answer about the user or the role. */
  method SetPerms(meta: Meta<Grant>, perms: Permissions, answer: Option<Permissions>) returns (ok: bool)
    requires answer.Some? ==> Grants(answer.value) == meta.held
    modifies meta
    ensures Revoking(old(meta.held), Grants(perms), old(meta.trace), meta.trace)
    ensures ok ==> meta.held == Grants(perms)
    ensures answer.None? ==> !ok && unchanged(meta)
    ensures answer.Some? && AllDone(old(meta.outcomes)) ==> ok
  {
    if answer.None? {
      return false;
    }
    var revoke, add := PermissionsDifference(perms, answer.value);
    OutsideIsDifference(perms, answer.value);
    OutsideIsDifference(answer.value, perms);
    ok := RevokeThenAdd(meta, Grants(revoke), |revoke| > 0, Grants(add), |add| > 0, Grants(perms));
  }

  /** SetRoleUsers; an action on no users is not posted. */
  method SetRoleUsers<T(==)>(meta: Meta<T>, users: seq<T>, answer: Option<seq<T>>) returns (ok: bool)
    requires answer.Some? ==> ToSet(answer.value) == meta.held
    modifies meta
    ensures Revoking(old(meta.held), ToSet(users), old(meta.trace), meta.trace)
    ensures ok ==> meta.held == ToSet(users)
    ensures answer.None? ==> !ok && unchanged(meta)
    ensures answer.Some? && AllDone(old(meta.outcomes)) ==> ok
  {
    if answer.None? {
      return false;
    }
    var revoke, add := Difference(users, answer.value);
    MinusIsDifference(users, answer.value);
    MinusIsDifference(answer.value, users);
    ok := RevokeThenAdd(meta, ToSet(revoke), |revoke| > 0, ToSet(add), |add| > 0, ToSet(users));
  }

  // ---------- roles and their users ----------

  datatype UserName = UserName(name: string)

  datatype RoleName = RoleName(name: string)

  datatype Role = Role(name: RoleName, users: seq<UserName>)

  datatype Member = Member(role: RoleName, user: UserName)

  /** Who is in what role, by the server's list of roles. */
  function Members(roles: seq<Role>): set<Member> {
    set r, u | r in roles && u in r.users :: Member(r.name, u)
  }

  function Copies(role: Role, users: seq<UserName>, u: UserName): seq<Role> {
    if users == [] then []
    else Copies(role, users[..|users| - 1], u) + if users[|users| - 1] == u then [role] else []
  }

  /** The roles of a user in the order of the list, one as often as it names the user. */
  function RolesOf(roles: seq<Role>, u: UserName): seq<Role> {
    if roles == [] then []
    else
      var last := roles[|roles| - 1];
      RolesOf(roles[..|roles| - 1], u) + Copies(last, last.users, u)
  }

  type RolesByUser = map<UserName, seq<Role>>

  function Lookup(m: RolesByUser, u: UserName): seq<Role> {
    if u in m then m[u] else []
  }

  method UserRoles(roles: seq<Role>) returns (m: RolesByUser)
    ensures forall u :: Lookup(m, u) == RolesOf(roles, u) && (u in m <==> RolesOf(roles, u) != [])
  {
    m := map[];
    for i := 0 to |roles|
      invariant NoneEmpty(m) && forall u :: Lookup(m, u) == RolesOf(roles[..i], u)
    {
      assert roles[..i + 1][..i] == roles[..i];
      m := WithRole(m, roles[i]);
    }
    assert roles[..|roles|] == roles;
  }

  predicate NoneEmpty(m: RolesByUser) {
    forall u :: u in m ==> m[u] != []
  }

  /** One turn of the outer loop: the role is appended for each of its users. */
  method WithRole(before: RolesByUser, role: Role) returns (m: RolesByUser)
    requires NoneEmpty(before)
    ensures NoneEmpty(m) && forall u :: Lookup(m, u) == Lookup(before, u) + Copies(role, role.users, u)
  {
    m := before;
    AppendedNone(before, role);
    for j := 0 to |role.users|
      invariant Appended(before, m, role, role.users[..j])
    {
      var ur := Lookup(m, role.users[j]);
      AppendedMore(before, m, role, role.users[..j], role.users[j]);
      assert role.users[..j + 1] == role.users[..j] + [role.users[j]];
      m := m[role.users[j] := ur + [role]];
    }
    assert role.users[..|role.users|] == role.users;
  }

  ghost predicate Appended(before: RolesByUser, m: RolesByUser, role: Role, users: seq<UserName>) {
    NoneEmpty(m) && forall u :: Lookup(m, u) == Lookup(before, u) + Copies(role, users, u)
  }

  lemma AppendedNone(before: RolesByUser, role: Role)
    requires NoneEmpty(before)
    ensures Appended(before, before, role, role.users[..0])
  {
    assert forall u :: Lookup(before, u) + [] == Lookup(before, u);
  }

  lemma AppendedMore(before: RolesByUser, m: RolesByUser, role: Role, users: seq<UserName>, next: UserName)
    requires Appended(before, m, role, users)
    ensures Appended(before, m[next := Lookup(m, next) + [role]], role, users + [next])
  {
    forall u
      ensures Lookup(m[next := Lookup(m, next) + [role]], u) == Lookup(before, u) + Copies(role, users + [next], u)
    {
      CopiesMore(role, users, next, u, Lookup(before, u));
    }
  }

  lemma CopiesMore(role: Role, users: seq<UserName>, next: UserName, u: UserName, roles: seq<Role>)
    ensures roles + Copies(role, users + [next], u)
         == (roles + Copies(role, users, u)) + if next == u then [role] else []
  {
    assert (users + [next])[..|users|] == users;
  }

  lemma {:induction false} CopiesMember(role: Role, users: seq<UserName>, u: UserName, r: Role)
    ensures r in Copies(role, users, u) <==> r == role && u in users
  {
    if users != [] {
      assert users == users[..|users| - 1] + [users[|users| - 1]];
      CopiesMember(role, users[..|users| - 1], u, r);
    }
  }

  /** The roles of a user are exactly the roles that have the user. */
  lemma {:induction false} RolesOfIsConverse(roles: seq<Role>, u: UserName, r: Role)
    ensures r in RolesOf(roles, u) <==> r in roles && u in r.users
  {
    if roles != [] {
      var last := roles[|roles| - 1];
      assert roles == roles[..|roles| - 1] + [last];
      RolesOfIsConverse(roles[..|roles| - 1], u, r);
      CopiesMember(last, last.users, u, r);
    }
  }

  function Has(u: UserName): Role -> bool {
    (r: Role) => u in r.users
  }

  lemma {:induction false} CopiesOnce(role: Role, users: seq<UserName>, u: UserName)
    requires Distinct(users)
    ensures Copies(role, users, u) == if u in users then [role] else []
  {
    if users != [] {
      var init, last := users[..|users| - 1], users[|users| - 1];
      assert users == init + [last];
      CopiesOnce(role, init, u);
    }
  }

  /** When no role names a user twice, a user's roles are the sublist of the roles that have the user. */
  lemma {:induction false} RolesOfInOrder(roles: seq<Role>, u: UserName)
    requires forall r :: r in roles ==> Distinct(r.users)
    ensures RolesOf(roles, u) == Filter(Has(u), roles)
  {
    if roles != [] {
      var last := roles[|roles| - 1];
      RolesOfInOrder(roles[..|roles| - 1], u);
      CopiesOnce(last, last.users, u);
    }
  }

  function Names(roles: seq<Role>): (names: seq<RoleName>)
    ensures |names| == |roles| && forall i :: 0 <= i < |roles| ==> names[i] == roles[i].name
  {
    seq(|roles|, i requires 0 <= i < |roles| => roles[i].name)
  }

  function MembersOf(names: seq<RoleName>, u: UserName): set<Member> {
    set r | r in names :: Member(r, u)
  }

  function OtherMembers(held: set<Member>, u: UserName): set<Member> {
    set m | m in held && m.user != u
  }

  /** The user in exactly the given roles, and everyone else as they are. */
  function WantMembers(held: set<Member>, u: UserName, names: seq<RoleName>): set<Member> {
    OtherMembers(held, u) + MembersOf(names, u)
  }

  lemma NamesAreHeld(roles: seq<Role>, u: UserName)
    ensures Members(roles) == OtherMembers(Members(roles), u) + MembersOf(Names(RolesOf(roles, u)), u)
  {
    var mine := RolesOf(roles, u);
    forall r | r in roles && u in r.users ensures r.name in Names(mine) {
      RolesOfIsConverse(roles, u, r);
      var i :| 0 <= i < |mine| && mine[i] == r;
      assert Names(mine)[i] == r.name;
    }
    forall name | name in Names(mine) ensures Member(name, u) in Members(roles) {
      var i :| 0 <= i < |mine| && Names(mine)[i] == name;
      RolesOfIsConverse(roles, u, mine[i]);
    }
  }

  lemma RoleChanges(held: set<Member>, u: UserName, want: seq<RoleName>, have: seq<RoleName>)
    requires held == OtherMembers(held, u) + MembersOf(have, u)
    ensures MembersOf(Minus(want, have), u) == WantMembers(held, u, want) - held
    ensures MembersOf(Minus(have, want), u) == held - WantMembers(held, u, want)
  {
    forall r ensures r in Minus(want, have) <==> r in want && r !in have { FilterMembers(NotIn(have), want, r); }
    forall r ensures r in Minus(have, want) <==> r in have && r !in want { FilterMembers(NotIn(want), have, r); }
  }

  lemma MembersOfStep(names: seq<RoleName>, u: UserName, i: nat)
    requires i < |names|
    ensures MembersOf(names[..i + 1], u) == MembersOf(names[..i], u) + {Member(names[i], u)}
    ensures MembersOf(names[..i + 1], u) <= MembersOf(names, u)
  {
    assert names[..i + 1] == names[..i] + [names[i]];
  }

  /** The role part of an update: new roles first, one by one, then the roles to leave. */
  method UpdateRoles(meta: Meta<Member>, u: UserName, want: seq<RoleName>, roles: seq<Role>) returns (ok: bool)
    requires Members(roles) == meta.held
    modifies meta
    ensures Adding(old(meta.held), WantMembers(old(meta.held), u, want), old(meta.trace), meta.trace)
    ensures ok ==> meta.held == WantMembers(old(meta.held), u, want)
    ensures ok ==> forall m :: m in meta.held <==> if m.user == u then m.role in want else m in old(meta.held)
    ensures AllDone(old(meta.outcomes)) ==> ok
  {
    var m := UserRoles(roles);
    var have := Names(Lookup(m, u));
    var revoke, add := Difference(want, have);
    NamesAreHeld(roles, u);
    RoleChanges(meta.held, u, want, have);
    ok := AddToRoles(meta, u, add, WantMembers(meta.held, u, want));
    if ok {
      ok := LeaveRoles(meta, u, revoke, old(meta.held), WantMembers(old(meta.held), u, want));
    }
  }

  method AddToRoles(meta: Meta<Member>, u: UserName, add: seq<RoleName>, ghost want: set<Member>) returns (ok: bool)
    requires MembersOf(add, u) == want - meta.held
    modifies meta
    ensures Adding(old(meta.held), want, old(meta.trace), meta.trace)
    ensures ok ==> meta.held == old(meta.held) + want
    ensures AllDone(old(meta.outcomes)) ==> ok && AllDone(meta.outcomes)
  {
    for i := 0 to |add|
      invariant meta.held == old(meta.held) + MembersOf(add[..i], u)
      invariant Adding(old(meta.held), want, old(meta.trace), meta.trace)
      invariant AllDone(old(meta.outcomes)) ==> AllDone(meta.outcomes)
    {
      MembersOfStep(add, u, i);
      ok := meta.Add({Member(add[i], u)});
      if !ok {
        return;
      }
    }
    assert add[..|add|] == add;
    ok := true;
  }

  method LeaveRoles(meta: Meta<Member>, u: UserName, revoke: seq<RoleName>, ghost have: set<Member>,
                    ghost want: set<Member>)
    returns (ok: bool)
    requires MembersOf(revoke, u) == have - want && meta.held == have + want
    modifies meta
    ensures Adding(have, want, old(meta.trace), meta.trace)
    ensures ok ==> meta.held == want
    ensures AllDone(old(meta.outcomes)) ==> ok
  {
    for i := 0 to |revoke|
      invariant meta.held == have + want - MembersOf(revoke[..i], u)
      invariant Adding(have, want, old(meta.trace), meta.trace)
      invariant AllDone(old(meta.outcomes)) ==> AllDone(meta.outcomes)
    {
      MembersOfStep(revoke, u, i);
      ok := meta.Remove({Member(revoke[i], u)});
      if !ok {
        return;
      }
    }
    assert revoke[..|revoke|] == revoke;
    ok := true;
  }

  /** At every moment of a role update the memberships of everyone else are as before. */
  lemma OthersKept(have: set<Member>, u: UserName, want: seq<RoleName>, before: seq<set<Member>>,
                   after: seq<set<Member>>, i: nat, m: Member)
    requires Adding(have, WantMembers(have, u, want), before, after) && |before| <= i < |after| && m.user != u
    ensures m in after[i] <==> m in have
  {
    assert AddsFirst(have, WantMembers(have, u, want), after[i]);
    assert m in OtherMembers(have, u) <==> m in have;
    assert m !in MembersOf(want, u);
  }

  // ---------- the two shapes of permissions ----------

  datatype ScopeKind = AllScope | DBScope

  datatype ScopedPermission = ScopedPermission(kind: ScopeKind, name: string, allowed: seq<Permission>)

  const ALL_DATABASES := Scope("")

  function ScopeOf(p: ScopedPermission): Scope {
    if p.kind == AllScope then ALL_DATABASES else Scope(p.name)
  }

  function EntryOf(scope: Scope, allowed: seq<Permission>): ScopedPermission {
    if scope == ALL_DATABASES then ScopedPermission(AllScope, "", allowed)
    else ScopedPermission(DBScope, scope.name, allowed)
  }

  /** The last entry of a scope wins. */
  function ByScope(perms: seq<ScopedPermission>): Permissions {
    if perms == [] then map[]
    else
      var last := perms[|perms| - 1];
      ByScope(perms[..|perms| - 1])[ScopeOf(last) := last.allowed]
  }

  method ToEnterprise(perms: seq<ScopedPermission>) returns (res: Permissions)
    ensures res == ByScope(perms)
  {
    res := map[];
    for i := 0 to |perms|
      invariant res == ByScope(perms[..i])
    {
      assert perms[..i + 1][..i] == perms[..i];
      if perms[i].kind == AllScope {
        res := res[ALL_DATABASES := perms[i].allowed];
      } else {
        res := res[Scope(perms[i].name) := perms[i].allowed];
      }
    }
    assert perms[..|perms|] == perms;
  }

  function Entries(p: Permissions): map<Scope, ScopedPermission> {
    map scope | scope in p :: EntryOf(scope, p[scope])
  }

  /** One entry for each of the scopes, in any order. */
  ghost predicate Listing(p: Permissions, scopes: set<Scope>, res: seq<ScopedPermission>) {
    Lists(ScopeOf, Entries(p), scopes, res)
  }

  method ToCloudHub(p: Permissions) returns (res: seq<ScopedPermission>)
    ensures Listing(p, p.Keys, res)
    ensures forall x :: x in res ==>
      if x.kind == AllScope then x.name == "" && Scope("") in p && x.allowed == p[Scope("")]
      else x.name != "" && Scope(x.name) in p && x.allowed == p[Scope(x.name)]
  {
    res := [];
    var todo := p.Keys;
    while todo != {}
      invariant todo <= p.Keys
      invariant Listing(p, p.Keys - todo, res)
      invariant forall x :: x in res ==>
        if x.kind == AllScope then x.name == "" && Scope("") in p && x.allowed == p[Scope("")]
        else x.name != "" && Scope(x.name) in p && x.allowed == p[Scope(x.name)]
    {
      var scope: Scope :| scope in todo;
      ListsMore(ScopeOf, Entries(p), p.Keys - todo, res, scope);
      if scope == ALL_DATABASES {
        res := res + [ScopedPermission(AllScope, "", p[scope])];
      } else {
        res := res + [ScopedPermission(DBScope, scope.name, p[scope])];
      }
      todo := todo - {scope};
      assert p.Keys - todo == p.Keys - (todo + {scope}) + {scope};
    }
    assert p.Keys - todo == p.Keys;
  }

  lemma {:induction false} ByScopeEntries(perms: seq<ScopedPermission>, scope: Scope)
    ensures scope in ByScope(perms) <==> exists x :: x in perms && ScopeOf(x) == scope
    ensures scope in ByScope(perms) ==>
      exists x :: x in perms && ScopeOf(x) == scope && x.allowed == ByScope(perms)[scope]
  {
    if perms != [] {
      var init, last := perms[..|perms| - 1], perms[|perms| - 1];
      assert perms == init + [last] && last in perms;
      ByScopeEntries(init, scope);
    }
  }

  /** The permissions of a scope are those of its last entry, where all databases go under the empty name. */
  lemma {:induction false} LastEntryWins(perms: seq<ScopedPermission>, i: nat)
    requires i < |perms|
    requires forall j :: i < j < |perms| ==> ScopeOf(perms[j]) != ScopeOf(perms[i])
    ensures var scope := Scope(if perms[i].kind == AllScope then "" else perms[i].name);
            scope in ByScope(perms) && ByScope(perms)[scope] == perms[i].allowed
  {
    if i < |perms| - 1 { LastEntryWins(perms[..|perms| - 1], i); }
  }

  /** Permissions of the server survive the round trip, whatever order the map was walked in. */
  lemma PermissionsRoundTrip(p: Permissions, res: seq<ScopedPermission>)
    requires Listing(p, p.Keys, res)
    ensures ByScope(res) == p
  {
    forall scope ensures scope in ByScope(res) <==> scope in p {
      ByScopeEntries(res, scope);
      if scope in p { assert ScopeOf(EntryOf(scope, p[scope])) == scope; }
    }
    forall scope | scope in p ensures ByScope(res)[scope] == p[scope] {
      ByScopeEntries(res, scope);
    }
  }

  /** An entry for all databases has no name, any other has one, and a scope has one list. */
  predicate Canonical(perms: seq<ScopedPermission>) {
    && (forall x :: x in perms ==> x == EntryOf(ScopeOf(x), x.allowed))
    && (forall x, y :: x in perms && y in perms && ScopeOf(x) == ScopeOf(y) ==> x.allowed == y.allowed)
  }

  /** The entries given to the server come back as they were exactly when they are canonical. */
  lemma EntriesRoundTripExact(perms: seq<ScopedPermission>, res: seq<ScopedPermission>)
    requires Listing(ByScope(perms), ByScope(perms).Keys, res)
    ensures ToSet(res) == ToSet(perms) <==> Canonical(perms)
  {
    var p := ByScope(perms);
    if Canonical(perms) {
      forall x | x in perms ensures x in res {
        ByScopeEntries(perms, ScopeOf(x));
        assert x == EntryOf(ScopeOf(x), p[ScopeOf(x)]);
      }
      forall x | x in res ensures x in perms {
        ByScopeEntries(perms, ScopeOf(x));
      }
    }
    if ToSet(res) == ToSet(perms) {
      forall x | x in perms ensures x in res { assert x in ToSet(perms); }
    }
  }

  // ---------- updating a user ----------

  datatype UserChange = UserChange(name: UserName, passwd: string, roles: Option<seq<RoleName>>,
                                   permissions: Option<seq<ScopedPermission>>)

  /** A password change is a change of its own; then roles; then permissions. When the list of roles
      cannot be had, the update reports success and changes nothing. */
  method UpdateUser(members: Meta<Member>, perms: Meta<Grant>, u: UserChange, passwordOk: bool,
                    rolesAnswer: Option<seq<Role>>, permsAnswer: Option<Permissions>)
    returns (ok: bool)
    requires rolesAnswer.Some? ==> Members(rolesAnswer.value) == members.held
    requires permsAnswer.Some? ==> Grants(permsAnswer.value) == perms.held
    modifies members, perms
    ensures u.passwd != "" ==> ok == passwordOk && unchanged(members) && unchanged(perms)
    ensures u.passwd == "" && u.roles.Some? && rolesAnswer.None? ==> ok && unchanged(members) && unchanged(perms)
    ensures u.roles.None? ==> unchanged(members)
    ensures u.permissions.None? ==> unchanged(perms)
    ensures u.roles.Some? ==>
      Adding(old(members.held), WantMembers(old(members.held), u.name, u.roles.value), old(members.trace),
             members.trace)
    ensures u.permissions.Some? ==>
      Revoking(old(perms.held), Grants(ByScope(u.permissions.value)), old(perms.trace), perms.trace)
    ensures ok && u.passwd == "" && (u.roles.Some? ==> rolesAnswer.Some?) ==>
      && (u.roles.Some? ==>
            forall m :: m in members.held <==>
              if m.user == u.name then m.role in u.roles.value else m in old(members.held))
      && (u.permissions.Some? ==> perms.held == Grants(ByScope(u.permissions.value)))
    ensures (u.passwd == "" && rolesAnswer.Some? && permsAnswer.Some?
             && AllDone(old(members.outcomes)) && AllDone(old(perms.outcomes))) ==> ok
  {
    if u.passwd != "" {
      return passwordOk;
    }
    if u.roles.Some? {
      if rolesAnswer.None? {
        return true;
      }
      ok := UpdateRoles(members, u.name, u.roles.value, rolesAnswer.value);
      if !ok {
        return;
      }
    }
    if u.permissions.Some? {
      var wanted := ToEnterprise(u.permissions.value);
      ok := SetPerms(perms, wanted, permsAnswer);
      return;
    }
    ok := true;
  }
}
