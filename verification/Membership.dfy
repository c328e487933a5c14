/** How users come by their roles: the mapping of a principal at first login, the switch of a super
    admin into an organization, and the per-organization facade. */
module Membership {
  import opened Wrappers
  import opened Slices
  import opened Users
  import Text

  datatype Organization = Organization(id: string, name: string, defaultRole: string)

  datatype Mapping = Mapping(id: string, organization: string, provider: string, scheme: string,
                             providerOrganization: string)

  datatype Principal = Principal(subject: string, issuer: string, organization: string, group: string)

  type Organizations = map<string, Organization>

  const WILDCARD: string := "*"

  /** Organizations are stored under their own ids. */
  predicate KeysAreIds(orgs: Organizations) {
    forall id :: id in orgs ==> orgs[id].id == id
  }

  // ---------- matching ----------

  /** strings.Split(s, ","). */
  function Split(s: string): (parts: seq<string>)
    ensures parts != []
  {
    if s == "" then [""]
    else
      var rest := Split(s[1..]);
      if s[0] == ',' then [""] + rest else [[s[0]] + rest[0]] + rest[1..]
  }

  predicate CommaFree(parts: seq<string>) {
    parts != [] && forall i :: 0 <= i < |parts| ==> Text.Lacks(parts[i], ',')
  }

  /** The parts have no comma and make up the text, joined by commas. */
  lemma {:induction false} SplitJoins(s: string)
    ensures CommaFree(Split(s)) && Text.Join(Split(s), ",") == s
  {
    if s != "" {
      var rest := Split(s[1..]);
      SplitJoins(s[1..]);
      assert s == [s[0]] + s[1..];
      if s[0] == ',' {
        assert ([""] + rest)[1..] == rest;
      } else {
        var first := [s[0]] + rest[0];
        forall i | 0 <= i < |first| ensures first[i] != ',' { if i > 0 { assert first[i] == rest[0][i - 1]; } }
        if |rest| > 1 { assert ([first] + rest[1..])[1..] == rest[1..]; }
      }
    }
  }

  /** And there is one way to do so. */
  lemma {:induction false} JoinSplits(parts: seq<string>)
    requires CommaFree(parts)
    ensures Split(Text.Join(parts, ",")) == parts
    decreases |parts|, |parts[0]|
  {
    var first, text := parts[0], Text.Join(parts, ",");
    if first == "" {
      if |parts| > 1 {
        JoinSplits(parts[1..]);
        assert text[1..] == Text.Join(parts[1..], ",");
        assert [""] + parts[1..] == parts;
      }
    } else {
      var shorter := [first[1..]] + parts[1..];
      forall i | 0 <= i < |first[1..]| ensures first[1..][i] != ',' { assert first[i + 1] != ','; }
      JoinSplits(shorter);
      assert shorter[1..] == parts[1..] && first == [first[0]] + first[1..];
      assert text[1..] == Text.Join(shorter, ",") && first[0] != ',';
      assert [first] + parts[1..] == parts;
    }
  }

  /** The group is one of the comma-separated groups of the text. */
  ghost predicate Listed(group: string, text: string) {
    exists parts :: CommaFree(parts) && text == Text.Join(parts, ",") && group in parts
  }

  lemma SplitIsListed(group: string, text: string)
    ensures group in Split(text) <==> Listed(group, text)
  {
    SplitJoins(text);
    if parts :| CommaFree(parts) && text == Text.Join(parts, ",") && group in parts { JoinSplits(parts); }
  }

  method MatchGroup(match_: string, groups: seq<string>) returns (r: bool)
    ensures r <==> match_ in groups
  {
    for i := 0 to |groups|
      invariant match_ !in groups[..i]
    {
      if match_ == groups[i] {
        return true;
      }
    }
    r := false;
  }

  predicate Applies(m: Mapping, p: Principal) {
    && (m.provider == WILDCARD || m.provider == p.issuer)
    && (m.scheme == WILDCARD || m.scheme == "oauth2")
    && (m.providerOrganization == WILDCARD || m.providerOrganization in Split(p.group))
  }

  method ApplyMapping(m: Mapping, p: Principal) returns (r: bool)
    ensures r <==> Applies(m, p)
    ensures r <==>
      && (m.provider == "*" || m.provider == p.issuer) && (m.scheme == "*" || m.scheme == "oauth2")
      && (m.providerOrganization == "*" || Listed(m.providerOrganization, p.group))
  {
    SplitIsListed(m.providerOrganization, p.group);
    if m.provider != WILDCARD && m.provider != p.issuer {
      return false;
    }
    if m.scheme != WILDCARD && m.scheme != "oauth2" {
      return false;
    }
    if m.providerOrganization == WILDCARD {
      return true;
    }
    r := MatchGroup(m.providerOrganization, Split(p.group));
  }

  // ---------- roles from mappings ----------

  predicate OneRoleEach(roles: seq<Role>) {
    forall i, j :: 0 <= i < j < |roles| ==> roles[i].organization != roles[j].organization
  }

  predicate HasRole(roles: seq<Role>, org: string) {
    exists i :: 0 <= i < |roles| && roles[i].organization == org
  }

  /** Some mapping gives the principal the organization, and the organization exists. */
  predicate Mapped(mappings: seq<Mapping>, orgs: Organizations, p: Principal, org: string) {
    org in orgs && exists i :: 0 <= i < |mappings| && mappings[i].organization == org && Applies(mappings[i], p)
  }

  /** The roles are exactly one for each existing organization that some mapping matches, with that
      organization's default role. */
  ghost predicate ExactlyMapped(mappings: seq<Mapping>, orgs: Organizations, p: Principal, roles: seq<Role>) {
    && OneRoleEach(roles)
    && (forall i :: 0 <= i < |roles| ==>
          Mapped(mappings, orgs, p, roles[i].organization) && roles[i].name == orgs[roles[i].organization].defaultRole)
    && (forall org :: Mapped(mappings, orgs, p, org) ==> HasRole(roles, org))
  }

  method MapPrincipalToRoles(mappings: seq<Mapping>, orgs: Organizations, p: Principal) returns (roles: seq<Role>)
    requires KeysAreIds(orgs)
    ensures ExactlyMapped(mappings, orgs, p, roles)
  {
    roles := [];
    for i := 0 to |mappings|
      invariant ExactlyMapped(mappings[..i], orgs, p, roles)
    {
      var m := mappings[i];
      var applies := ApplyMapping(m, p);
      MappedStep(mappings, i, orgs, p);
      if applies && m.organization in orgs {
        var org := orgs[m.organization];
        var has := FindRole(roles, org.id);
        if !has {
          roles := AddRole(roles, Role(org.defaultRole, org.id));
        }
      }
    }
    assert mappings[..|mappings|] == mappings;
  }

  lemma MappedStep(mappings: seq<Mapping>, i: nat, orgs: Organizations, p: Principal)
    requires i < |mappings|
    ensures forall org :: Mapped(mappings[..i + 1], orgs, p, org) <==>
      Mapped(mappings[..i], orgs, p, org) || (org in orgs && mappings[i].organization == org && Applies(mappings[i], p))
  {
    forall org | Mapped(mappings[..i], orgs, p, org) ensures Mapped(mappings[..i + 1], orgs, p, org) {
      var k :| 0 <= k < i && mappings[..i][k].organization == org && Applies(mappings[..i][k], p);
      assert mappings[..i + 1][k] == mappings[..i][k];
    }
    assert mappings[..i + 1][i] == mappings[i];
  }

  /** The inner loop over the roles collected so far. */
  method FindRole(roles: seq<Role>, org: string) returns (r: bool)
    ensures r <==> HasRole(roles, org)
  {
    for i := 0 to |roles|
      invariant forall j :: 0 <= j < i ==> roles[j].organization != org
    {
      if roles[i].organization == org {
        return true;
      }
    }
    r := false;
  }

  method AddRole(roles: seq<Role>, role: Role) returns (more: seq<Role>)
    requires OneRoleEach(roles) && !HasRole(roles, role.organization)
    ensures more == roles + [role] && OneRoleEach(more)
    ensures forall org :: HasRole(more, org) <==> HasRole(roles, org) || org == role.organization
  {
    more := roles + [role];
    forall org | HasRole(roles, org) ensures HasRole(more, org) {
      var i :| 0 <= i < |roles| && roles[i].organization == org;
      assert more[i].organization == org;
    }
    assert more[|roles|] == role;
  }

  // ---------- the handlers ----------

  /** The handlers' view of the world besides the users: settings and the other stores. */
  datatype World = World(orgs: Organizations, mappings: seq<Mapping>, defaultOrg: string,
                         superAdminGroup: string, superAdminNewUsers: bool)

  predicate ValidWorld(w: World) {
    KeysAreIds(w.orgs) && w.defaultOrg in w.orgs
  }

  /** mapPrincipalToSuperAdmin. */
  predicate IsSuperAdmin(w: World, p: Principal) {
    p.issuer == "auth0" && w.superAdminGroup != "" && w.superAdminGroup in Split(p.group)
  }

  function SchemeOf(p: Principal): string {
    if p.issuer == "cloudhub" then "basic" else "oauth2"
  }

  function LoginFor(p: Principal): Login {
    Login(p.subject, p.issuer, SchemeOf(p))
  }

  predicate ValidPrincipal(p: Principal) {
    p.subject != "" && p.issuer != ""
  }

  /** Every user has at most one role in each organization. */
  predicate OneRolePerOrg(db: Db) {
    forall id :: id in db.users ==> OneRoleEach(db.users[id].roles)
  }

  /** The user that Me creates, with the mapped roles; a super admin also gets the default organization. */
  function NewUser(w: World, p: Principal, first: bool, mapped: seq<Role>): User
    requires ValidWorld(w)
  {
    var super := first || w.superAdminNewUsers || IsSuperAdmin(w, p);
    var more := if super && !HasRole(mapped, w.defaultOrg)
                then [Role(w.orgs[w.defaultOrg].defaultRole, w.defaultOrg)] else [];
    User(0, p.subject, p.issuer, SchemeOf(p), "", super, mapped + more)
  }

  /** The users after Me: a known user may become super admin, an unknown one with a role, or who is
      super admin by the principal, is created. */
  function Introduced(db: Db, w: World, p: Principal, mapped: seq<Role>): Db
    requires ValidWorld(w)
  {
    if !ValidPrincipal(p) then db
    else
      match Search(db, LoginFor(p), 0)
      case Some(id) =>
        if IsSuperAdmin(w, p) && !db.users[id].superAdmin then Replaced(db, db.users[id].(superAdmin := true)) else db
      case None =>
        if !IsSuperAdmin(w, p) && mapped == [] then db
        else Inserted(db, NewUser(w, p, |db.users| == 0, mapped))
  }

  /** Me keeps the roles of every known user, and one role per organization for all. */
  lemma IntroducedKeeps(db: Db, w: World, p: Principal, mapped: seq<Role>)
    requires ValidWorld(w) && Consistent(db) && ExactlyMapped(w.mappings, w.orgs, p, mapped)
    ensures var after := Introduced(db, w, p, mapped);
            && Consistent(after)
            && (OneRolePerOrg(db) ==> OneRolePerOrg(after))
            && (forall id :: id in db.users ==> id in after.users && after.users[id].roles == db.users[id].roles)
  {
    var user := NewUser(w, p, |db.users| == 0, mapped);
    NewUserRoles(w, p, |db.users| == 0, mapped);
    InsertedKeeps(db, user);
  }

  /** Who is super admin from the first login on. */
  ghost predicate StartsSuper(db: Db, w: World, p: Principal) {
    db.users == map[] || w.superAdminNewUsers || ByGroup(w, p)
  }

  /** By a group of the identity provider. */
  ghost predicate ByGroup(w: World, p: Principal) {
    p.issuer == "auth0" && w.superAdminGroup != "" && Listed(w.superAdminGroup, p.group)
  }

  /** Who Me turns away, and what it stores of an unknown user: the login, the mapped roles, and for a super
      admin also the default role of the default organization. */
  lemma MeCreates(db: Db, w: World, p: Principal, mapped: seq<Role>, r: Role)
    requires ValidWorld(w) && Consistent(db) && ValidPrincipal(p)
    requires forall id :: id in db.users ==> LoginOf(db.users[id]) != LoginFor(p)
    ensures LoginFor(p) == Login(p.subject, p.issuer, if p.issuer == "cloudhub" then "basic" else "oauth2")
    ensures var after, id := Introduced(db, w, p, mapped), db.sequence + 1;
            if mapped == [] && !ByGroup(w, p) then after == db
            else
              && after.users.Keys == db.users.Keys + {id} && after.users - {id} == db.users - {id}
              && var u := after.users[id];
                 && LoginOf(u) == LoginFor(p)
                 && (u.superAdmin <==> StartsSuper(db, w, p))
                 && (r in u.roles <==>
                      || r in mapped
                      || (u.superAdmin && !HasRole(mapped, w.defaultOrg)
                          && r == Role(w.orgs[w.defaultOrg].defaultRole, w.defaultOrg)))
  {
    var user := NewUser(w, p, db.users == map[], mapped);
    MeInserts(db, w, p, mapped);
    InsertedIs(db, user);
    NewUserIs(w, p, db.users == map[], mapped, r);
    LoginIs(p);
    assert LoginOf(user) == LoginOf(user.(id := db.sequence + 1));
  }

  lemma LoginIs(p: Principal)
    ensures LoginFor(p) == Login(p.subject, p.issuer, if p.issuer == "cloudhub" then "basic" else "oauth2")
  {
  }

  lemma MeInserts(db: Db, w: World, p: Principal, mapped: seq<Role>)
    requires ValidWorld(w) && ValidPrincipal(p) && forall id :: id in db.users ==> LoginOf(db.users[id]) != LoginFor(p)
    ensures Introduced(db, w, p, mapped)
         == if mapped == [] && !ByGroup(w, p) then db else Inserted(db, NewUser(w, p, db.users == map[], mapped))
  {
    SplitIsListed(w.superAdminGroup, p.group);
    assert Search(db, LoginFor(p), 0) == None;
  }

  lemma InsertedIs(db: Db, u: User)
    requires Consistent(db)
    ensures var after, id := Inserted(db, u), db.sequence + 1;
            && after.users.Keys == db.users.Keys + {id} && after.users - {id} == db.users - {id}
            && after.users[id] == u.(id := id)
  {
  }

  lemma NewUserIs(w: World, p: Principal, first: bool, mapped: seq<Role>, r: Role)
    requires ValidWorld(w)
    ensures var u := NewUser(w, p, first, mapped);
            && LoginOf(u) == LoginFor(p)
            && (u.superAdmin <==> first || w.superAdminNewUsers || ByGroup(w, p))
            && (r in u.roles <==>
                  || r in mapped
                  || (u.superAdmin && !HasRole(mapped, w.defaultOrg)
                      && r == Role(w.orgs[w.defaultOrg].defaultRole, w.defaultOrg)))
  {
    SplitIsListed(w.superAdminGroup, p.group);
  }

  /** A known user becomes super admin by a group of the identity provider; nothing else changes. */
  lemma MeKnows(db: Db, w: World, p: Principal, mapped: seq<Role>, id: nat)
    requires ValidWorld(w) && Consistent(db) && ValidPrincipal(p) && Search(db, LoginFor(p), 0) == Some(id)
    ensures var after := Introduced(db, w, p, mapped);
            && after.users.Keys == db.users.Keys && after.users - {id} == db.users - {id}
            && after.users[id] == db.users[id].(superAdmin := db.users[id].superAdmin || ByGroup(w, p))
  {
    SplitIsListed(w.superAdminGroup, p.group);
    assert db.users[id].(superAdmin := db.users[id].superAdmin) == db.users[id];
  }

  lemma NewUserRoles(w: World, p: Principal, first: bool, mapped: seq<Role>)
    requires ValidWorld(w) && OneRoleEach(mapped)
    ensures OneRoleEach(NewUser(w, p, first, mapped).roles)
  {
    assert mapped + [] == mapped;
  }

  lemma InsertedKeeps(db: Db, user: User)
    requires Consistent(db) && OneRoleEach(user.roles)
    ensures var after := Inserted(db, user);
            && Consistent(after)
            && (OneRolePerOrg(db) ==> OneRolePerOrg(after))
            && (forall id :: id in db.users ==> id in after.users && after.users[id].roles == db.users[id].roles)
  {
  }

  /** The user-changing part of Me. */
  method Me(store: UsersStore, w: World, p: Principal) returns (ghost mapped: seq<Role>)
    requires ValidWorld(w) && Consistent(store.State())
    modifies store
    ensures ExactlyMapped(w.mappings, w.orgs, p, mapped)
    ensures store.State() == Introduced(old(store.State()), w, p, mapped)
  {
    var roles := MapPrincipalToRoles(w.mappings, w.orgs, p);
    mapped := roles;
    if !ValidPrincipal(p) {
      return;
    }
    var usr := store.Get(ByLogin(LoginFor(p)));
    var superAdmin := IsSuperAdmin(w, p);
    if usr.Ok? {
      if superAdmin && !usr.value.superAdmin {
        var updated := store.Update(usr.value.(superAdmin := true));
      }
      return;
    }
    if !superAdmin && |roles| == 0 {
      return;
    }
    var super := |store.users| == 0 || w.superAdminNewUsers || superAdmin;
    if super {
      var has := FindRole(roles, w.defaultOrg);
      if !has {
        roles := AddRole(roles, Role(w.orgs[w.defaultOrg].defaultRole, w.defaultOrg));
      }
    }
    assert mapped + [] == mapped;
    var added := store.Add(User(0, p.subject, p.issuer, SchemeOf(p), "", super, roles));
  }

  /** Whether the principal may switch to the organization: as a member, or as a super admin. */
  predicate MayJoin(db: Db, w: World, org: string, p: Principal) {
    && org in w.orgs && org != "" && ValidPrincipal(p)
    && var id := Search(db, LoginFor(p), 0);
       id.Some? && (View(db, org, id.value) != [] || db.users[id.value].superAdmin)
  }

  /** The users after UpdateMe: a super admin outside the organization gets its default role. */
  function Joined(db: Db, w: World, org: string, p: Principal): Db
    requires ValidWorld(w)
  {
    if !MayJoin(db, w, org, p) then db
    else
      var u := db.users[Search(db, LoginFor(p), 0).value];
      if RolesIn(u.roles, org) != [] then db
      else Replaced(db, u.(roles := u.roles + [Role(w.orgs[org].defaultRole, org)]))
  }

  /** UpdateMe makes the user a member, changes nothing another organization sees, and keeps one role
      per organization. */
  lemma JoinedKeeps(db: Db, w: World, org: string, p: Principal, other: string, id: nat)
    requires ValidWorld(w) && Consistent(db)
    ensures var after := Joined(db, w, org, p);
            && Consistent(after)
            && (OneRolePerOrg(db) ==> OneRolePerOrg(after))
            && (other != org ==> View(after, other, id) == View(db, other, id))
            && (MayJoin(db, w, org, p) ==> View(after, org, Search(db, LoginFor(p), 0).value) != [])
  {
    if MayJoin(db, w, org, p) {
      RoleAppended(db.users[Search(db, LoginFor(p), 0).value].roles, Role(w.orgs[org].defaultRole, org));
    }
  }

  /** Who joins gets exactly the default role of the organization, a member keeps its roles there, and
      nothing else changes. */
  lemma JoinedSees(db: Db, w: World, org: string, p: Principal)
    requires ValidWorld(w) && Consistent(db) && MayJoin(db, w, org, p)
    ensures var after, id := Joined(db, w, org, p), Search(db, LoginFor(p), 0).value;
            && after.users - {id} == db.users - {id} && id in after.users
            && after.users[id].(roles := db.users[id].roles) == db.users[id]
            && View(after, org, id)
               == if View(db, org, id) != [] then View(db, org, id) else [Role(w.orgs[org].defaultRole, org)]
  {
    var role := Role(w.orgs[org].defaultRole, org);
    RoleAppended(db.users[Search(db, LoginFor(p), 0).value].roles, role);
    assert [] + [role] == [role];
  }

  /** The user-changing part of UpdateMe. */
  method UpdateMe(store: UsersStore, facade: OrganizationUsers, w: World, p: Principal) returns (allowed: bool)
    requires ValidWorld(w) && Consistent(store.State()) && facade.store == store
    modifies store
    ensures allowed == MayJoin(old(store.State()), w, facade.organization, p)
    ensures var db, org, q := old(store.State()), facade.organization, ByLogin(LoginFor(p));
            allowed <==>
              && org in w.orgs && org != "" && p.subject != "" && p.issuer != ""
              && (GetIn(db, org, q).Ok? || (Find(db, q).Some? && db.users[Find(db, q).value].superAdmin))
    ensures store.State() == Joined(old(store.State()), w, facade.organization, p)
  {
    if facade.organization !in w.orgs || !ValidPrincipal(p) {
      return false;
    }
    var org := w.orgs[facade.organization];
    var found := facade.Get(Some(facade.organization), ByLogin(LoginFor(p)));
    if found.Ok? {
      return true;
    }
    if found.error != UserNotFound {
      return false;
    }
    var u := store.Get(ByLogin(LoginFor(p)));
    if u.Err? {
      return false;
    }
    if !u.value.superAdmin {
      return false;
    }
    var updated := store.Update(u.value.(roles := u.value.roles + [Role(org.defaultRole, org.id)]));
    allowed := true;
  }

  /** A role in an organization the user had none in. */
  lemma RoleAppended(roles: seq<Role>, role: Role)
    ensures RolesIn(roles + [role], role.organization) == RolesIn(roles, role.organization) + [role]
    ensures forall other :: other != role.organization ==> RolesIn(roles + [role], other) == RolesIn(roles, other)
    ensures OneRoleEach(roles) && RolesIn(roles, role.organization) == [] ==> OneRoleEach(roles + [role])
  {
    assert (roles + [role])[..|roles|] == roles;
    forall other | other != role.organization ensures RolesIn(roles + [role], other) == RolesIn(roles, other) {
      assert RolesIn(roles, other) + [] == RolesIn(roles, other);
    }
    if RolesIn(roles, role.organization) == [] {
      forall i | 0 <= i < |roles| ensures roles[i].organization != role.organization {
        FilterMembers(Of(role.organization), roles, roles[i]);
      }
    }
  }

  // ---------- one role per organization, over whole runs ----------

  lemma {:induction false} OneRoleIn(roles: seq<Role>, org: string)
    requires OneRoleEach(roles)
    ensures |RolesIn(roles, org)| <= 1
  {
    if roles != [] {
      var init, last := roles[..|roles| - 1], roles[|roles| - 1];
      OneRoleIn(init, org);
      if last.organization == org {
        FilterNone(Of(org), init);
      }
    }
  }

  lemma {:induction false} OutsideOneEach(roles: seq<Role>, org: string)
    requires OneRoleEach(roles)
    ensures OneRoleEach(RolesOutside(roles, org))
  {
    if roles != [] {
      var init, last := roles[..|roles| - 1], roles[|roles| - 1];
      OutsideOneEach(init, org);
      forall i | 0 <= i < |RolesOutside(init, org)|
        ensures RolesOutside(init, org)[i].organization != last.organization
      {
        FilterMembers(NotOf(org), init, RolesOutside(init, org)[i]);
      }
    }
  }

  lemma WithGiven(roles: seq<Role>, org: string, given: seq<Role>)
    requires OneRoleEach(roles) && ValidRoles(org, given) && |given| <= 1
    ensures OneRoleEach(RolesOutside(roles, org) + given)
  {
    var outside := RolesOutside(roles, org);
    OutsideOneEach(roles, org);
    forall i | 0 <= i < |outside| ensures outside[i].organization != org {
      FilterMembers(NotOf(org), roles, outside[i]);
    }
  }

  /** The roles a facade caller passes. */
  function Given(call: Call): seq<Role> {
    match call
    case AddCall(u) => u.roles
    case UpdateCall(u) => u.roles
    case DeleteCall(_) => []
  }

  /** A facade call that passes at most one role keeps every user at one role per organization. */
  lemma PerformOneRole(db: Db, org: string, call: Call)
    requires Consistent(db) && OneRolePerOrg(db) && |Given(call)| <= 1
    ensures OneRolePerOrg(Perform(db, org, call))
  {
    match call
    case AddCall(u) =>
      var found := Search(db, LoginOf(u), 0);
      if ValidRoles(org, u.roles) && found.Some? { WithGiven(db.users[found.value].roles, org, u.roles); }
    case UpdateCall(u) =>
      if ValidRoles(org, u.roles) && u.id in db.users { WithGiven(db.users[u.id].roles, org, u.roles); }
    case DeleteCall(id) =>
      if id in db.users { OutsideOneEach(db.users[id].roles, org); }
  }

  /** So the branch of AuthorizedUser for a user with several roles in an organization is never taken. */
  lemma NeverTooManyRoles(db: Db, org: string, q: Query)
    requires OneRolePerOrg(db) && GetIn(db, org, q).Ok?
    ensures |GetIn(db, org, q).value.roles| == 1
  {
    OneRoleIn(db.users[Find(db, q).value].roles, org);
  }

  /** One request that changes users. */
  datatype Request = MeRequest(p: Principal) | UpdateMeRequest(org: string, p: Principal)
    | FacadeRequest(org: string, call: Call)

  /** Any run of Me, UpdateMe and the facades from the empty store, with organizations and mappings
      changing in between, in which facade callers pass at most one role. */
  method Serve(requests: seq<Request>, worlds: seq<World>) returns (store: UsersStore)
    requires |worlds| == |requests| && forall i :: 0 <= i < |worlds| ==> ValidWorld(worlds[i])
    requires forall i :: 0 <= i < |requests| ==> requests[i].FacadeRequest? ==> |Given(requests[i].call)| <= 1
    ensures fresh(store) && OneRolePerOrg(store.State())
    ensures forall org, q :: GetIn(store.State(), org, q).Ok? ==> |GetIn(store.State(), org, q).value.roles| == 1
  {
    store := new UsersStore();
    for i := 0 to |requests|
      invariant fresh(store) && Consistent(store.State()) && OneRolePerOrg(store.State())
    {
      match requests[i] {
        case MeRequest(p) =>
          ghost var before := store.State();
          ghost var mapped := Me(store, worlds[i], p);
          IntroducedKeeps(before, worlds[i], p, mapped);
        case UpdateMeRequest(org, p) =>
          JoinedKeeps(store.State(), worlds[i], org, p, org, 0);
          var facade := new OrganizationUsers(store, org);
          var allowed := UpdateMe(store, facade, worlds[i], p);
        case FacadeRequest(org, call) =>
          PerformConsistent(store.State(), org, call);
          PerformOneRole(store.State(), org, call);
          Dispatch(store, org, call);
      }
    }
    forall org, q | GetIn(store.State(), org, q).Ok? ensures |GetIn(store.State(), org, q).value.roles| == 1 {
      NeverTooManyRoles(store.State(), org, q);
    }
  }

  method Dispatch(store: UsersStore, org: string, call: Call)
    requires Consistent(store.State())
    modifies store
    ensures store.State() == if org != "" then Perform(old(store.State()), org, call) else old(store.State())
  {
    var facade := new OrganizationUsers(store, org);
    match call {
      case AddCall(u) => var added := facade.Add(Some(org), u);
      case UpdateCall(u) => var updated := facade.Update(Some(org), u);
      case DeleteCall(id) => var deleted := facade.Delete(Some(org), id);
    }
  }
}
