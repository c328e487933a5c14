/** One user record shared by all organizations, and the per-organization facade on it that only
    shows and changes the roles of its organization. */
module Users {
  import opened Wrappers
  import opened Slices

  datatype Role = Role(name: string, organization: string)

  datatype User = User(id: nat, name: string, provider: string, scheme: string, email: string,
                       superAdmin: bool, roles: seq<Role>)

  datatype Login = Login(name: string, provider: string, scheme: string)

  /** An id; or name, provider and scheme; or a name alone; any other query is incomplete. */
  datatype Query = ById(id: nat) | ByLogin(login: Login) | ByName(name: string) | Incomplete

  datatype Error = BadQuery | UserNotFound | UserAlreadyExists | InvalidRoles | NoOrganization

  // ---------- the state ----------

  /** The users bucket: records under their ids, and the last id handed out. */
  datatype Db = Db(users: map<nat, User>, sequence: nat)

  predicate Consistent(db: Db) {
    forall id :: id in db.users ==> db.users[id].id == id && 1 <= id <= db.sequence
  }

  function LoginOf(u: User): Login {
    Login(u.name, u.provider, u.scheme)
  }

  /** The first user with the login, in key order from `id` on. */
  function Search(db: Db, login: Login, id: nat): (r: Option<nat>)
    ensures r.Some? ==> id <= r.value && r.value in db.users && LoginOf(db.users[r.value]) == login
    decreases db.sequence + 1 - id
  {
    if id > db.sequence then None
    else if id in db.users && LoginOf(db.users[id]) == login then Some(id)
    else Search(db, login, id + 1)
  }

  /** The first user with the name, in key order from `id` on. */
  function SearchName(db: Db, name: string, id: nat): (r: Option<nat>)
    ensures r.Some? ==> id <= r.value && r.value in db.users && db.users[r.value].name == name
    decreases db.sequence + 1 - id
  {
    if id > db.sequence then None
    else if id in db.users && db.users[id].name == name then Some(id)
    else SearchName(db, name, id + 1)
  }

  /** The search passes no user with the login, and so none with the name. */
  lemma {:induction false} SearchIsFirst(db: Db, login: Login, name: string, id: nat, k: nat)
    requires id <= k <= db.sequence && k in db.users
    ensures LoginOf(db.users[k]) == login ==> Search(db, login, id).Some? && Search(db, login, id).value <= k
    ensures db.users[k].name == name ==> SearchName(db, name, id).Some? && SearchName(db, name, id).value <= k
    decreases db.sequence + 1 - id
  {
    if id < k { SearchIsFirst(db, login, name, id + 1, k); }
  }

  /** What is reported when a query gives no user. */
  function NoUser(q: Query): Error {
    if q.Incomplete? then BadQuery else UserNotFound
  }

  function Find(db: Db, q: Query): (r: Option<nat>)
    ensures r.Some? ==> r.value in db.users
  {
    match q
    case ById(id) => if id in db.users then Some(id) else None
    case ByLogin(login) => Search(db, login, 0)
    case ByName(name) => SearchName(db, name, 0)
    case Incomplete => None
  }

  function Inserted(db: Db, u: User): Db {
    Db(db.users[db.sequence + 1 := u.(id := db.sequence + 1)], db.sequence + 1)
  }

  function Replaced(db: Db, u: User): Db {
    db.(users := db.users[u.id := u])
  }

  // ---------- roles ----------

  function Of(org: string): Role -> bool {
    (r: Role) => r.organization == org
  }

  function NotOf(org: string): Role -> bool {
    (r: Role) => r.organization != org
  }

  /** The role sequence an organization sees. */
  function RolesIn(roles: seq<Role>, org: string): seq<Role> {
    Filter(Of(org), roles)
  }

  /** The roles that an organization cannot see. */
  function RolesOutside(roles: seq<Role>, org: string): seq<Role> {
    Filter(NotOf(org), roles)
  }

  predicate ValidRoles(org: string, roles: seq<Role>) {
    forall i :: 0 <= i < |roles| ==> roles[i].organization == org && org != "" && roles[i].name != ""
  }

  predicate Misplaced(r: Role, org: string) {
    r.organization != org || r.organization == "" || r.name == ""
  }

  lemma InvalidExactly(org: string, roles: seq<Role>)
    ensures ValidRoles(org, roles) <==> !exists i :: 0 <= i < |roles| && Misplaced(roles[i], org)
  {
    if !ValidRoles(org, roles) {
      var i :| 0 <= i < |roles| && !(roles[i].organization == org && org != "" && roles[i].name != "");
      assert Misplaced(roles[i], org);
    }
  }

  /** What an organization sees of a user; nothing when there is no such user. */
  function View(db: Db, org: string, id: nat): seq<Role> {
    if id in db.users then RolesIn(db.users[id].roles, org) else []
  }

  lemma ReplaceRoles(roles: seq<Role>, org: string, given: seq<Role>, other: string)
    requires ValidRoles(org, given)
    ensures RolesIn(RolesOutside(roles, org) + given, org) == given
    ensures other != org ==> RolesIn(RolesOutside(roles, org) + given, other) == RolesIn(roles, other)
  {
    FilterConcat(Of(org), RolesOutside(roles, org), given);
    FilterTwice(NotOf(org), Of(org), roles);
    FilterAll(Of(org), given);
    if other != org {
      FilterConcat(Of(other), RolesOutside(roles, org), given);
      FilterTwice(NotOf(org), Of(other), roles);
      FilterNone(Of(other), given);
      assert RolesIn(roles, other) + [] == RolesIn(roles, other);
    }
  }

  // ---------- the facade, on values ----------

  datatype Call = AddCall(u: User) | UpdateCall(u: User) | DeleteCall(id: nat)

  function GetIn(db: Db, org: string, q: Query): Result<User, Error> {
    match Find(db, q)
    case None => Err(NoUser(q))
    case Some(id) =>
      var roles := RolesIn(db.users[id].roles, org);
      if roles == [] then Err(UserNotFound) else Ok(db.users[id].(roles := roles))
  }

  function Perform(db: Db, org: string, call: Call): Db {
    match call
    case AddCall(u) =>
      if !ValidRoles(org, u.roles) then db
      else
        (match Search(db, LoginOf(u), 0)
         case None => Inserted(db, u)
         case Some(id) =>
           var usr := db.users[id];
           if RolesIn(usr.roles, org) != [] then db
           else Replaced(db, usr.(roles := RolesOutside(usr.roles, org) + u.roles,
                                  superAdmin := usr.superAdmin || u.superAdmin)))
    case UpdateCall(u) =>
      if !ValidRoles(org, u.roles) || u.id !in db.users then db
      else Replaced(db, u.(roles := RolesOutside(db.users[u.id].roles, org) + u.roles))
    case DeleteCall(id) =>
      if id !in db.users then db
      else Replaced(db, db.users[id].(roles := RolesOutside(db.users[id].roles, org)))
  }

  function PerformAll(db: Db, org: string, calls: seq<Call>): Db {
    if calls == [] then db
    else Perform(PerformAll(db, org, calls[..|calls| - 1]), org, calls[|calls| - 1])
  }

  lemma PerformConsistent(db: Db, org: string, call: Call)
    requires Consistent(db)
    ensures Consistent(Perform(db, org, call))
  {
  }

  /** One call of an organization's facade leaves what any other organization sees unchanged. */
  lemma PerformLeavesOthers(db: Db, org: string, call: Call, other: string, id: nat)
    requires Consistent(db) && other != org
    ensures View(Perform(db, org, call), other, id) == View(db, other, id)
  {
    match call
    case AddCall(u) =>
      if ValidRoles(org, u.roles) {
        match Search(db, LoginOf(u), 0)
        case None => FilterNone(Of(other), u.roles);
        case Some(found) => ReplaceRoles(db.users[found].roles, org, u.roles, other);
      }
    case UpdateCall(u) =>
      if ValidRoles(org, u.roles) && u.id in db.users { ReplaceRoles(db.users[u.id].roles, org, u.roles, other); }
    case DeleteCall(gone) =>
      if gone in db.users {
        ReplaceRoles(db.users[gone].roles, org, [], other);
        assert RolesOutside(db.users[gone].roles, org) + [] == RolesOutside(db.users[gone].roles, org);
      }
  }

  /** Non-interference over any run of facade calls. */
  lemma {:induction false} RunLeavesOthers(db: Db, org: string, calls: seq<Call>, other: string, id: nat)
    requires Consistent(db) && other != org
    ensures Consistent(PerformAll(db, org, calls))
    ensures View(PerformAll(db, org, calls), other, id) == View(db, other, id)
  {
    if calls != [] {
      var before := PerformAll(db, org, calls[..|calls| - 1]);
      RunLeavesOthers(db, org, calls[..|calls| - 1], other, id);
      PerformConsistent(before, org, calls[|calls| - 1]);
      PerformLeavesOthers(before, org, calls[|calls| - 1], other, id);
    }
  }

  /** What Get shows of a record: all of it but the roles of other organizations, or nothing if that leaves
      no role. */
  lemma GetShowsExactly(db: Db, org: string, id: nat, r: Role)
    requires id in db.users
    ensures var shown, record := GetIn(db, org, ById(id)), db.users[id];
            && (shown.Ok? <==> exists i :: 0 <= i < |record.roles| && record.roles[i].organization == org)
            && (shown.Ok? ==> shown.value.(roles := record.roles) == record)
            && (shown.Ok? ==> (r in shown.value.roles <==> r in record.roles && r.organization == org))
            && (shown.Err? ==> shown.error == UserNotFound)
  {
    var record := db.users[id];
    FilterMembers(Of(org), record.roles, r);
    if i :| 0 <= i < |record.roles| && record.roles[i].organization == org {
      FilterMembers(Of(org), record.roles, record.roles[i]);
    }
    if RolesIn(record.roles, org) != [] {
      FilterMembers(Of(org), record.roles, RolesIn(record.roles, org)[0]);
    }
  }

  /** The organization now sees the user with this id and exactly the roles given, and all others are as
      they were. */
  ghost predicate NowSees(db: Db, after: Db, org: string, u: User, id: nat) {
    var q := ByLogin(Login(u.name, u.provider, u.scheme));
    && after.users.Keys == db.users.Keys + {id} && after.users - {id} == db.users - {id}
    && View(after, org, id) == u.roles && Find(after, q) == Some(id)
    && (u.roles != [] ==> GetIn(after, org, q) == Ok(after.users[id].(roles := u.roles)))
  }

  lemma AddNewUser(db: Db, org: string, u: User)
    requires Consistent(db) && ValidRoles(org, u.roles) && Search(db, LoginOf(u), 0).None?
    ensures var after, id := Perform(db, org, AddCall(u)), db.sequence + 1;
            NowSees(db, after, org, u, id) && after.users[id] == u.(id := id)
  {
    FilterAll(Of(org), u.roles);
    var after := Inserted(db, u);
    assert LoginOf(after.users[db.sequence + 1]) == LoginOf(u);
    SearchIsFirst(after, LoginOf(u), "", 0, db.sequence + 1);
    var found := Search(after, LoginOf(u), 0).value;
    if found in db.users { SearchIsFirst(db, LoginOf(u), "", 0, found); }
  }

  lemma AddKnownUser(db: Db, org: string, u: User, id: nat)
    requires Consistent(db) && ValidRoles(org, u.roles) && Search(db, LoginOf(u), 0) == Some(id)
    requires RolesIn(db.users[id].roles, org) == []
    ensures var after := Perform(db, org, AddCall(u));
            && NowSees(db, after, org, u, id)
            && after.users[id].(roles := db.users[id].roles)
               == db.users[id].(superAdmin := u.superAdmin || db.users[id].superAdmin)
  {
    ReplaceRoles(db.users[id].roles, org, u.roles, org);
    var after := Perform(db, org, AddCall(u));
    SearchIsFirst(after, LoginOf(u), "", 0, id);
    SearchIsFirst(db, LoginOf(u), "", 0, Search(after, LoginOf(u), 0).value);
  }

  /** Add, seen through Get: with valid roles, and if the organization did not see the login before, it now
      sees the user with exactly the roles given. A known user keeps what else is known, and is super admin
      if it was or is meant to be; a new one is as given. All others are as they were, and in any other
      case all are. */
  lemma AddThenGet(db: Db, org: string, u: User)
    requires Consistent(db)
    ensures var after, q := Perform(db, org, AddCall(u)), ByLogin(Login(u.name, u.provider, u.scheme));
            if !ValidRoles(org, u.roles) || GetIn(db, org, q).Ok? then after == db
            else
              var known := Find(db, q);
              var id := if known.Some? then known.value else db.sequence + 1;
              && NowSees(db, after, org, u, id)
              && after.users[id].(roles := [])
                 == (if known.Some? then db.users[id].(superAdmin := u.superAdmin || db.users[id].superAdmin)
                     else u.(id := id)).(roles := [])
  {
    if ValidRoles(org, u.roles) {
      match Search(db, LoginOf(u), 0)
      case None => AddNewUser(db, org, u);
      case Some(id) => if RolesIn(db.users[id].roles, org) == [] { AddKnownUser(db, org, u, id); }
    }
  }

  /** After an update Get returns exactly the user given, or no user if it was given no role. */
  lemma UpdateThenGet(db: Db, org: string, u: User)
    requires u.id in db.users && ValidRoles(org, u.roles)
    ensures GetIn(Perform(db, org, UpdateCall(u)), org, ById(u.id))
         == if u.roles == [] then Err(UserNotFound) else Ok(u)
    ensures Perform(db, org, UpdateCall(u)).users - {u.id} == db.users - {u.id}
  {
    ReplaceRoles(db.users[u.id].roles, org, u.roles, org);
  }

  /** After a delete the organization does not see the user, of whom nothing but roles has changed, and all
      others are as before. */
  lemma DeleteThenGet(db: Db, org: string, id: nat)
    requires Consistent(db) && id in db.users
    ensures var after := Perform(db, org, DeleteCall(id));
            && View(after, org, id) == [] && after.users - {id} == db.users - {id}
            && id in after.users && after.users[id].(roles := db.users[id].roles) == db.users[id]
  {
    var roles := db.users[id].roles;
    ReplaceRoles(roles, org, [], org);
    assert RolesOutside(roles, org) + [] == RolesOutside(roles, org);
  }

  // ---------- the stores ----------

  class UsersStore {
    var users: map<nat, User>
    var sequence: nat

    function State(): Db
      reads this
    {
      Db(users, sequence)
    }

    constructor ()
      ensures State() == Db(map[], 0)
    {
      users, sequence := map[], 0;
    }

    method Get(q: Query) returns (r: Result<User, Error>)
      ensures r == match Find(State(), q) case None => Err(NoUser(q)) case Some(id) => Ok(users[id])
      ensures r.Err? ==> r.error == if q.Incomplete? then BadQuery else UserNotFound
    {
      match q {
        case ById(id) =>
          r := if id in users then Ok(users[id]) else Err(UserNotFound);
        case ByLogin(login) =>
          var id := 0;
          while id <= sequence
            invariant Search(State(), login, 0) == Search(State(), login, id)
            decreases sequence + 1 - id
          {
            if id in users && LoginOf(users[id]) == login {
              return Ok(users[id]);
            }
            id := id + 1;
          }
          r := Err(UserNotFound);
        case ByName(name) =>
          var id := 0;
          while id <= sequence
            invariant SearchName(State(), name, 0) == SearchName(State(), name, id)
            decreases sequence + 1 - id
          {
            if id in users && users[id].name == name {
              return Ok(users[id]);
            }
            id := id + 1;
          }
          r := Err(UserNotFound);
        case Incomplete =>
          r := Err(BadQuery);
      }
    }

    method Add(u: User) returns (r: Result<User, Error>)
      modifies this
      ensures if Search(old(State()), LoginOf(u), 0).Some?
              then r == Err(UserAlreadyExists) && State() == old(State())
              else r == Ok(u.(id := sequence)) && State() == Inserted(old(State()), u)
      ensures r.Ok? ==> sequence == old(sequence) + 1 && users == old(users)[sequence := u.(id := sequence)]
    {
      var found := Get(ByLogin(LoginOf(u)));
      if found.Ok? {
        return Err(UserAlreadyExists);
      }
      sequence := sequence + 1;
      users := users[sequence := u.(id := sequence)];
      r := Ok(u.(id := sequence));
    }

    method Update(u: User) returns (r: Option<Error>)
      modifies this
      ensures if u.id in old(users) then r == None && State() == Replaced(old(State()), u)
              else r == Some(UserNotFound) && State() == old(State())
      ensures r.None? ==> users == old(users)[u.id := u] && sequence == old(sequence)
    {
      if u.id !in users {
        return Some(UserNotFound);
      }
      users := users[u.id := u];
      r := None;
    }

    method All() returns (all: seq<User>)
      ensures all == ListBelow(State(), sequence + 1)
    {
      all := [];
      for id := 0 to sequence + 1
        invariant all == ListBelow(State(), id)
      {
        if id in users {
          all := all + [users[id]];
        }
      }
    }
  }

  /** The facade of one organization; `context` is the organization set on the request context. */
  class OrganizationUsers {
    const store: UsersStore
    const organization: string

    constructor (store: UsersStore, organization: string)
      ensures this.store == store && this.organization == organization
    {
      this.store, this.organization := store, organization;
    }

    predicate HasContext(context: Option<string>) {
      context.Some? && context.value != ""
    }

    method Get(context: Option<string>, q: Query) returns (r: Result<User, Error>)
      ensures r == if HasContext(context) then GetIn(store.State(), organization, q) else Err(NoOrganization)
    {
      if !HasContext(context) {
        return Err(NoOrganization);
      }
      var usr := store.Get(q);
      if usr.Err? {
        return usr;
      }
      var roles := FilterSlice(usr.value.roles, Of(organization));
      if |roles| == 0 {
        return Err(UserNotFound);
      }
      r := Ok(usr.value.(roles := roles));
    }

    method Add(context: Option<string>, u: User) returns (r: Result<User, Error>)
      requires Consistent(store.State())
      modifies store
      ensures store.State() == if HasContext(context) then Perform(old(store.State()), organization, AddCall(u))
                               else old(store.State())
      ensures r == Err(NoOrganization) <==> context == None || context == Some("")
      ensures HasContext(context) ==>
        (r == Err(InvalidRoles) <==> exists i :: 0 <= i < |u.roles| && Misplaced(u.roles[i], organization))
      ensures HasContext(context) && ValidRoles(organization, u.roles) ==>
        var found := Search(old(store.State()), LoginOf(u), 0);
        r == if found.None? then Ok(u.(id := store.sequence))
             else if View(old(store.State()), organization, found.value) != [] then Err(UserAlreadyExists)
             else Ok(u.(id := found.value))
    {
      if !HasContext(context) {
        return Err(NoOrganization);
      }
      InvalidExactly(organization, u.roles);
      if !ValidRoles(organization, u.roles) {
        return Err(InvalidRoles);
      }
      var found := store.Get(ByLogin(LoginOf(u)));
      if found.Err? {
        r := store.Add(u);
        return;
      }
      var usr := found.value;
      var a := ToArray(usr.roles);
      var n := FilterInPlace(a, NotOf(organization));
      Complement(usr.roles, organization);
      if a.Length - n > 0 {
        return Err(UserAlreadyExists);
      }
      var roles := Append(a, n, u.roles);
      if u.superAdmin {
        usr := usr.(superAdmin := true);
      }
      var updated := store.Update(usr.(roles := roles));
      r := Ok(u.(id := usr.id));
    }

    method Delete(context: Option<string>, id: nat) returns (r: Option<Error>)
      requires Consistent(store.State())
      modifies store
      ensures store.State() == if HasContext(context) then Perform(old(store.State()), organization, DeleteCall(id))
                               else old(store.State())
      ensures r == if !HasContext(context) then Some(NoOrganization)
                   else if id in old(store.users) then None else Some(UserNotFound)
    {
      if !HasContext(context) {
        return Some(NoOrganization);
      }
      var found := store.Get(ById(id));
      if found.Err? {
        return Some(found.error);
      }
      var roles := FilterSlice(found.value.roles, NotOf(organization));
      r := store.Update(found.value.(roles := roles));
    }

    method Update(context: Option<string>, u: User) returns (r: Option<Error>)
      modifies store
      ensures store.State() == if HasContext(context) then Perform(old(store.State()), organization, UpdateCall(u))
                               else old(store.State())
      ensures r == if !HasContext(context) then Some(NoOrganization)
                   else if !ValidRoles(organization, u.roles) then Some(InvalidRoles)
                   else if u.id in old(store.users) then None else Some(UserNotFound)
    {
      if !HasContext(context) {
        return Some(NoOrganization);
      }
      if !ValidRoles(organization, u.roles) {
        return Some(InvalidRoles);
      }
      var found := store.Get(ById(u.id));
      if found.Err? {
        return Some(found.error);
      }
      var a := ToArray(found.value.roles);
      var n := FilterInPlace(a, NotOf(organization));
      var roles := Append(a, n, u.roles);
      r := store.Update(u.(roles := roles));
    }

    method All(context: Option<string>) returns (r: Result<seq<User>, Error>)
      ensures r == if HasContext(context)
                   then Ok(Visible(ListBelow(store.State(), store.sequence + 1), organization))
                   else Err(NoOrganization)
    {
      if !HasContext(context) {
        return Err(NoOrganization);
      }
      var all := store.All();
      var us: seq<User> := [];
      for i := 0 to |all|
        invariant us == Visible(all[..i], organization)
      {
        assert all[..i + 1][..i] == all[..i];
        var roles := FilterSlice(all[i].roles, Of(organization));
        if |roles| != 0 {
          us := us + [all[i].(roles := roles)];
        }
      }
      assert all[..|all|] == all;
      r := Ok(us);
    }
  }

  /** The users below an id, in key order. */
  function ListBelow(db: Db, id: nat): seq<User> {
    if id == 0 then []
    else ListBelow(db, id - 1) + if id - 1 in db.users then [db.users[id - 1]] else []
  }

  /** The users with a role in the organization, with only those roles. */
  function Visible(all: seq<User>, org: string): seq<User> {
    if all == [] then []
    else
      var last := all[|all| - 1];
      var roles := RolesIn(last.roles, org);
      Visible(all[..|all| - 1], org) + if roles == [] then [] else [last.(roles := roles)]
  }

  /** Users that satisfy GetIn, below an id, in the order of their ids. */
  ghost predicate Lists(db: Db, org: string, id: nat, us: seq<User>) {
    && (forall i :: 0 <= i < |us| ==> us[i].id < id && GetIn(db, org, ById(us[i].id)) == Ok(us[i]))
    && (forall k: nat :: k < id && GetIn(db, org, ById(k)).Ok? ==> GetIn(db, org, ById(k)).value in us)
    && (forall i, j :: 0 <= i < j < |us| ==> us[i].id < us[j].id)
  }

  /** The list of an organization holds exactly the users its Get finds, each once and as Get returns
      it, in the order of their ids. */
  lemma {:induction false} VisibleIsExact(db: Db, org: string, id: nat) returns (us: seq<User>)
    requires Consistent(db)
    ensures us == Visible(ListBelow(db, id), org) && Lists(db, org, id, us)
  {
    if id == 0 {
      us := [];
    } else {
      var before := VisibleIsExact(db, org, id - 1);
      us := VisibleStep(db, org, id - 1, before);
    }
  }

  /** What the user with this id adds to the list. */
  function Entry(db: Db, org: string, id: nat): seq<User> {
    var r := GetIn(db, org, ById(id));
    if r.Ok? then [r.value] else []
  }

  lemma VisibleStep(db: Db, org: string, id: nat, before: seq<User>) returns (us: seq<User>)
    requires Consistent(db) && before == Visible(ListBelow(db, id), org) && Lists(db, org, id, before)
    ensures us == Visible(ListBelow(db, id + 1), org) && Lists(db, org, id + 1, us)
  {
    us := before + Entry(db, org, id);
    VisibleNext(db, org, id);
    ListsNext(db, org, id, before);
  }

  lemma ListsNext(db: Db, org: string, id: nat, us: seq<User>)
    requires Consistent(db) && Lists(db, org, id, us)
    ensures Lists(db, org, id + 1, us + Entry(db, org, id))
  {
    if Entry(db, org, id) == [] { assert us + [] == us; }
  }

  lemma VisibleNext(db: Db, org: string, id: nat)
    ensures Visible(ListBelow(db, id + 1), org) == Visible(ListBelow(db, id), org) + Entry(db, org, id)
  {
    var before := ListBelow(db, id);
    if id in db.users {
      assert (before + [db.users[id]])[..|before|] == before;
    } else {
      assert before + [] == before && Visible(before, org) + [] == Visible(before, org);
    }
  }

  /** (roles of the user) - (roles not in the organization) is the number of roles in it. */
  lemma {:induction false} Complement(roles: seq<Role>, org: string)
    ensures |RolesIn(roles, org)| + |RolesOutside(roles, org)| == |roles|
  {
    if roles != [] { Complement(roles[..|roles| - 1], org); }
  }
}
