/** Organizations, and everything an organization owns, in the key-value service. */
module Tenants {
  import opened Collections
  import opened Wrappers
  import opened Decimal
  import opened Slices
  import opened Membership
  import Sources
  import Users

  const DEFAULT_ID: string := "default"
  const DEFAULT_NAME: string := "Default"
  const DEFAULT_ROLE: string := "member"

  datatype Error = OrganizationNotFound | OrganizationAlreadyExists | CannotDeleteDefault | DependentMissing

  /** A server or a dashboard: a record of one organization. */
  datatype Record = Record(id: int, name: string, organization: string)

  type Records = map<int, Record>

  type Mappings = map<string, Mapping>

  // ---------- organizations ----------

  predicate UniqueNames(orgs: Organizations) {
    forall a, b :: a in orgs && b in orgs && orgs[a].name == orgs[b].name ==> a == b
  }

  /** Ids are the default's or come from the sequence, in decimal. */
  ghost predicate IdsIssued(orgs: Organizations, sequence: nat) {
    forall id :: id in orgs ==> id == DEFAULT_ID || IssuedUpTo(id, sequence)
  }

  ghost predicate IssuedUpTo(id: string, sequence: nat) {
    exists k: nat :: k <= sequence && id == FormatNat(k)
  }

  /** What every sequential run keeps: keys are ids, names are unique, the default organization exists. */
  ghost predicate ValidOrganizations(orgs: Organizations, sequence: nat) {
    KeysAreIds(orgs) && UniqueNames(orgs) && DEFAULT_ID in orgs && IdsIssued(orgs, sequence)
  }

  predicate NameTaken(orgs: Organizations, name: string) {
    exists id :: id in orgs && orgs[id].name == name
  }

  lemma FreshId(orgs: Organizations, sequence: nat)
    requires IdsIssued(orgs, sequence)
    ensures FormatNat(sequence + 1) !in orgs && FormatNat(sequence + 1) != DEFAULT_ID
  {
    var id := FormatNat(sequence + 1);
    assert IsDigit(id[0]) && !IsDigit(DEFAULT_ID[0]);
    if id in orgs {
      var k: nat :| k <= sequence && id == FormatNat(k);
      FormatNatInjective(k, sequence + 1);
    }
  }

  // ---------- runs ----------

  datatype State = State(orgs: Organizations, sequence: nat)

  datatype Call = CreatingDefault | Adding(o: Organization) | Updating(o: Organization) | Deleting(id: string)

  function Step(s: State, call: Call): State {
    match call
    case CreatingDefault =>
      if DEFAULT_ID in s.orgs then s
      else s.(orgs := s.orgs[DEFAULT_ID := Organization(DEFAULT_ID, DEFAULT_NAME, DEFAULT_ROLE)])
    case Adding(o) =>
      if NameTaken(s.orgs, o.name) then s
      else
        var id := FormatNat(s.sequence + 1);
        State(s.orgs[id := o.(id := id)], s.sequence + 1)
    case Updating(o) =>
      if o.id !in s.orgs || (o.name != s.orgs[o.id].name && NameTaken(s.orgs, o.name)) then s
      else s.(orgs := s.orgs[o.id := o])
    case Deleting(id) =>
      if id == DEFAULT_ID then s else s.(orgs := s.orgs - {id})
  }

  function Run(s: State, calls: seq<Call>): State {
    if calls == [] then s else Step(Run(s, calls[..|calls| - 1]), calls[|calls| - 1])
  }

  lemma StepValid(s: State, call: Call)
    requires ValidOrganizations(s.orgs, s.sequence)
    ensures var t := Step(s, call); ValidOrganizations(t.orgs, t.sequence) && s.sequence <= t.sequence
  {
    match call
    case CreatingDefault =>
    case Adding(o) => AddIsValid(s, o);
    case Updating(o) =>
    case Deleting(id) => if id != DEFAULT_ID { WithoutIsValid(s.orgs, s.sequence, id); }
  }

  lemma AddIsValid(s: State, o: Organization)
    requires ValidOrganizations(s.orgs, s.sequence)
    ensures var t := Step(s, Adding(o)); ValidOrganizations(t.orgs, t.sequence)
  {
    FreshId(s.orgs, s.sequence);
    forall id | id in s.orgs && id != DEFAULT_ID ensures IssuedUpTo(id, s.sequence + 1) {
      var k: nat :| k <= s.sequence && id == FormatNat(k);
    }
    if !NameTaken(s.orgs, o.name) {
      forall id | id in s.orgs ensures s.orgs[id].name != o.name {}
    }
  }

  /** Every sequential run from an empty store keeps the default organization, and names unique. */
  lemma {:induction false} RunValid(calls: seq<Call>)
    ensures var t := Run(Step(State(map[], 0), CreatingDefault), calls); ValidOrganizations(t.orgs, t.sequence)
  {
    if calls != [] {
      RunValid(calls[..|calls| - 1]);
      StepValid(Run(Step(State(map[], 0), CreatingDefault), calls[..|calls| - 1]), calls[|calls| - 1]);
    }
  }

  // ---------- what a caller sees ----------

  /** After a deletion the organization is not found, every other one is as it was, and its name is free: the
      organization can be added again, under a new id. */
  lemma DeletedIsGone(s: State, id: string, name: string)
    requires ValidOrganizations(s.orgs, s.sequence) && id in s.orgs && id != "default"
    ensures var t := Step(s, Deleting(id));
            && id !in t.orgs && t.orgs == s.orgs - {id} && t.sequence == s.sequence
            && (NameTaken(t.orgs, name) <==> NameTaken(s.orgs, name) && name != s.orgs[id].name)
            && var again := Organization(FormatNat(s.sequence + 1), s.orgs[id].name, s.orgs[id].defaultRole);
               again.id !in s.orgs && Step(t, Adding(s.orgs[id])).orgs == t.orgs[again.id := again]
  {
    var t := Step(s, Deleting(id));
    forall other | other in s.orgs && other != id ensures other in t.orgs && t.orgs[other] == s.orgs[other] {}
    if NameTaken(s.orgs, name) && name != s.orgs[id].name {
      var k :| k in s.orgs && s.orgs[k].name == name;
      assert k in t.orgs && t.orgs[k].name == name;
    }
    FreshId(s.orgs, s.sequence);
    assert !NameTaken(t.orgs, s.orgs[id].name);
  }

  // ---------- what a deletion leaves ----------

  function RecordsWithout(records: Records, org: string): Records {
    map id | id in records && records[id].organization != org :: records[id]
  }

  function MappingsWithout(mappings: Mappings, org: string): Mappings {
    map id | id in mappings && mappings[id].organization != org :: mappings[id]
  }

  function SourcesWithout(b: Sources.Bucket, org: string): Sources.Bucket {
    map key | key in b && b[key].organization != org :: b[key]
  }

  function UsersWithout(users: map<nat, Users.User>, org: string): map<nat, Users.User> {
    map id | id in users :: users[id].(roles := Users.RolesOutside(users[id].roles, org))
  }

  predicate RecordsValid(records: Records) {
    forall id :: id in records ==> records[id].id == id
  }

  predicate MappingsValid(mappings: Mappings) {
    forall id :: id in mappings ==> mappings[id].id == id
  }

  /** After a deletion the organization has no source, and another's sources are as before but for
      the default flag. */
  lemma SourcesLeft(b: Sources.Bucket, now: Sources.Bucket, org: string, key: Sources.Key)
    requires Sources.ClearDefaults(now) == Sources.ClearDefaults(SourcesWithout(b, org))
    ensures key in now <==> key in b && b[key].organization != org
    ensures key in now ==> now[key].organization != org && now[key].(isDefault := b[key].isDefault) == b[key]
  {
    assert key in now <==> key in Sources.ClearDefaults(now);
    assert key in SourcesWithout(b, org) <==> key in Sources.ClearDefaults(SourcesWithout(b, org));
    if key in now {
      assert Sources.ClearDefaults(now)[key] == now[key].(isDefault := false);
      assert Sources.ClearDefaults(SourcesWithout(b, org))[key] == b[key].(isDefault := false);
    }
  }

  /** After a deletion the organization has no server, dashboard or mapping, and another's are as before. */
  lemma RecordsLeft(records: Records, mappings: Mappings, org: string, id: int, mappingId: string)
    ensures var now := RecordsWithout(records, org);
            && (id in now <==> id in records && records[id].organization != org)
            && (id in now ==> now[id] == records[id])
    ensures var now := MappingsWithout(mappings, org);
            && (mappingId in now <==> mappingId in mappings && mappings[mappingId].organization != org)
            && (mappingId in now ==> now[mappingId] == mappings[mappingId])
  {
  }

  /** After a deletion no user has a role in the organization, and another sees the roles it saw. */
  lemma RolesLeft(users: map<nat, Users.User>, sequence: nat, org: string, other: string, id: nat)
    ensures var before, after := Users.Db(users, sequence), Users.Db(UsersWithout(users, org), sequence);
            Users.View(after, other, id) == if other == org then [] else Users.View(before, other, id)
  {
    if id in users {
      Users.ReplaceRoles(users[id].roles, org, [], other);
      assert Users.RolesOutside(users[id].roles, org) + [] == Users.RolesOutside(users[id].roles, org);
    }
  }

  class Service {
    const sources: Sources.SourcesStore
    const users: Users.UsersStore
    var organizations: Organizations
    var sequence: nat
    var servers: Records
    var dashboards: Records
    var mappings: Mappings

    function Orgs(): State
      reads this
    {
      State(organizations, sequence)
    }

    ghost predicate Valid()
      reads this, sources, users
    {
      && ValidOrganizations(organizations, sequence)
      && sources.Valid() && Users.Consistent(users.State())
      && RecordsValid(servers) && RecordsValid(dashboards) && MappingsValid(mappings)
    }

    /** NewService on an empty store. */
    constructor ()
      ensures Valid() && fresh(sources) && fresh(users)
      ensures Orgs() == Step(State(map[], 0), CreatingDefault)
    {
      sources := new Sources.SourcesStore();
      users := new Users.UsersStore();
      organizations, sequence, servers, dashboards, mappings := map[], 0, map[], map[], map[];
      new;
      CreateDefault();
    }

    method CreateDefault()
      modifies this
      ensures unchanged(this`servers) && unchanged(this`dashboards)
      ensures Orgs() == Step(old(Orgs()), CreatingDefault)
      ensures organizations == if "default" in old(organizations) then old(organizations)
                               else old(organizations)["default" := Organization("default", "Default", "member")]
      ensures mappings == if "default" in old(organizations) || "default" in old(mappings) then old(mappings)
                          else old(mappings)["default" := Mapping("default", "default", "*", "*", "*")]
    {
      if DEFAULT_ID in organizations {
        return;
      }
      organizations := organizations[DEFAULT_ID := Organization(DEFAULT_ID, DEFAULT_NAME, DEFAULT_ROLE)];
      if DEFAULT_ID in mappings {
        return;
      }
      mappings := mappings[DEFAULT_ID := Mapping(DEFAULT_ID, DEFAULT_ID, WILDCARD, WILDCARD, WILDCARD)];
    }

    method NameIsUnique(name: string) returns (r: bool)
      ensures r <==> !NameTaken(organizations, name)
    {
      var todo := organizations.Keys;
      while todo != {}
        invariant todo <= organizations.Keys
        invariant forall id :: id in organizations && id !in todo ==> organizations[id].name != name
      {
        var id :| id in todo;
        if organizations[id].name == name {
          return false;
        }
        todo := todo - {id};
      }
      r := true;
    }

    method Add(o: Organization) returns (r: Result<Organization, Error>)
      requires Valid()
      modifies this`organizations, this`sequence
      ensures Valid()
      ensures r.Err? <==> NameTaken(old(organizations), o.name)
      ensures Orgs() == Step(old(Orgs()), Adding(o))
      ensures r.Err? ==> r.error == OrganizationAlreadyExists
      ensures r.Ok? ==> r.value == o.(id := FormatNat(sequence)) && r.value.id !in old(organizations)
      ensures r.Ok? ==> organizations == old(organizations)[r.value.id := r.value] && sequence == old(sequence) + 1
      ensures r.Err? ==> organizations == old(organizations)
    {
      StepValid(Orgs(), Adding(o));
      var unique := NameIsUnique(o.name);
      if !unique {
        return Err(OrganizationAlreadyExists);
      }
      FreshId(organizations, sequence);
      sequence := sequence + 1;
      var added := o.(id := FormatNat(sequence));
      organizations := organizations[added.id := added];
      r := Ok(added);
    }

    method Update(o: Organization) returns (r: Option<Error>)
      requires Valid()
      modifies this`organizations
      ensures Valid()
      ensures o.id !in old(organizations) ==> r == Some(OrganizationNotFound)
      ensures o.id in old(organizations) ==>
        r == if o.name != old(organizations)[o.id].name && NameTaken(old(organizations), o.name)
             then Some(OrganizationAlreadyExists) else None
      ensures Orgs() == Step(old(Orgs()), Updating(o))
      ensures organizations == if r.None? then old(organizations)[o.id := o] else old(organizations)
    {
      if o.id !in organizations {
        return Some(OrganizationNotFound);
      }
      if o.name != organizations[o.id].name {
        var unique := NameIsUnique(o.name);
        if !unique {
          return Some(OrganizationAlreadyExists);
        }
      }
      organizations := organizations[o.id := o];
      r := None;
    }

    /** The organization goes, and with it all that is its own: its servers, dashboards and mappings,
        its sources, and its roles in every user. Nothing else changes, but the default flag of a
        source may move. */
    method Delete(id: string) returns (r: Option<Error>)
      requires Valid()
      modifies this, sources, users
      ensures Valid()
      ensures r == if id == DEFAULT_ID then Some(CannotDeleteDefault)
                   else if id in old(organizations) then None else Some(OrganizationNotFound)
      ensures r.Some? ==> unchanged(this) && unchanged(sources) && unchanged(users)
      ensures Orgs() == Step(old(Orgs()), Deleting(id))
      ensures r.None? ==> organizations == old(organizations) - {id} && sequence == old(sequence)
      ensures r.None? ==>
        && servers == RecordsWithout(old(servers), id)
        && dashboards == RecordsWithout(old(dashboards), id)
        && mappings == MappingsWithout(old(mappings), id)
        && users.users == UsersWithout(old(users.users), id)
        && Sources.ClearDefaults(sources.bucket) == Sources.ClearDefaults(SourcesWithout(old(sources.bucket), id))
        && (Sources.OneDefault(old(sources.bucket)) ==> Sources.OneDefault(sources.bucket))
    {
      if id == DEFAULT_ID {
        return Some(CannotDeleteDefault);
      }
      if id !in organizations {
        return Some(OrganizationNotFound);
      }
      WithoutIsValid(organizations, sequence, id);
      organizations := organizations - {id};
      r := DeleteOwned(id);
    }

    /** The dependent deletions, one store after the other; an error of any of them ends the deletion. */
    method DeleteOwned(id: string) returns (r: Option<Error>)
      requires Valid() && id != "" && id != DEFAULT_ID
      modifies this`servers, this`dashboards, this`mappings, sources, users
      ensures Valid() && r == None
      ensures servers == RecordsWithout(old(servers), id)
      ensures dashboards == RecordsWithout(old(dashboards), id)
      ensures mappings == MappingsWithout(old(mappings), id)
      ensures users.users == UsersWithout(old(users.users), id)
      ensures Sources.ClearDefaults(sources.bucket) == Sources.ClearDefaults(SourcesWithout(old(sources.bucket), id))
      ensures Sources.OneDefault(old(sources.bucket)) ==> Sources.OneDefault(sources.bucket)
    {
      var ok := DeleteSources(sources, id);
      if !ok { return Some(DependentMissing); }
      servers, ok := DeleteRecords(servers, id);
      if !ok { return Some(DependentMissing); }
      dashboards, ok := DeleteRecords(dashboards, id);
      if !ok { return Some(DependentMissing); }
      ok := DeleteRoles(users, id);
      if !ok { return Some(DependentMissing); }
      mappings, ok := DeleteMappings(mappings, id);
      if !ok { return Some(DependentMissing); }
      r := None;
    }
  }

  lemma WithoutIsValid(orgs: Organizations, sequence: nat, id: string)
    requires ValidOrganizations(orgs, sequence) && id != DEFAULT_ID
    ensures ValidOrganizations(orgs - {id}, sequence)
    ensures id in orgs ==> id != ""
  {
    if id in orgs {
      var k: nat :| k <= sequence && id == FormatNat(k);
    }
  }

  // ---------- the dependent deletions ----------

  function OwnedBy(org: string): Sources.Source -> bool {
    (s: Sources.Source) => s.organization == org
  }

  method DeleteSources(store: Sources.SourcesStore, org: string) returns (ok: bool)
    requires store.Valid()
    modifies store`bucket
    ensures ok && store.Valid()
    ensures Sources.ClearDefaults(store.bucket) == Sources.ClearDefaults(SourcesWithout(old(store.bucket), org))
    ensures Sources.OneDefault(old(store.bucket)) ==> Sources.OneDefault(store.bucket)
  {
    ghost var b := store.bucket;
    var all := store.All();
    var owned := FilterSlice(all, OwnedBy(org));
    NoneGone(b, owned);
    for i := 0 to |owned|
      invariant store.Valid()
      invariant Left(b, store.bucket, KeysOf(owned[..i]))
    {
      OwnedNext(b, all, org, i, store.bucket);
      ok := DeleteSource(store, owned[i].id, b, KeysOf(owned[..i]));
      if !ok {
        return;
      }
    }
    assert owned[..|owned|] == owned;
    OwnedKeys(b, all, org);
    WithoutKeys(b, KeysOf(owned), org);
    ok := true;
  }

  /** Delete of the sources facade: the record is fetched again before it is deleted. */
  method DeleteSource(store: Sources.SourcesStore, id: Sources.Int, ghost b: Sources.Bucket,
                      ghost gone: set<Sources.Key>)
    returns (ok: bool)
    requires store.Valid() && Left(b, store.bucket, gone)
    modifies store`bucket
    ensures store.Valid()
    ensures ok <==> Sources.Itob(id) in old(store.bucket)
    ensures ok ==> Left(b, store.bucket, gone + {Sources.Itob(id)})
  {
    var d := store.Get(id);
    if d.Err? {
      return false;
    }
    ghost var before := store.bucket;
    var failed, other := store.Delete(id);
    OneMoreGone(b, before, gone, Sources.Itob(id), other);
    ok := true;
  }

  /** What is left of a bucket when some records are gone; the default flag may have moved. */
  ghost predicate Left(b: Sources.Bucket, now: Sources.Bucket, gone: set<Sources.Key>) {
    && Sources.ClearDefaults(now) == Sources.ClearDefaults(b) - gone
    && (Sources.OneDefault(b) ==> Sources.OneDefault(now))
  }

  lemma NoneGone(b: Sources.Bucket, owned: seq<Sources.Source>)
    ensures Left(b, b, KeysOf(owned[..0]))
  {
    assert Sources.ClearDefaults(b) - {} == Sources.ClearDefaults(b);
    assert KeysOf(owned[..0]) == {};
  }

  lemma OneMoreGone(b: Sources.Bucket, now: Sources.Bucket, gone: set<Sources.Key>, key: Sources.Key,
                    other: Sources.Key)
    requires Left(b, now, gone) && Sources.KeysMatch(now)
    requires key in now && other in now && (other == key ==> |now| == 1)
    ensures Left(b, Sources.Removed(now, key, other), gone + {key})
  {
    RemovedClear(now, key, other);
    assert Sources.ClearDefaults(b) - gone - {key} == Sources.ClearDefaults(b) - (gone + {key});
    if Sources.OneDefault(b) { Sources.DeleteMovesDefault(now, key, other); }
  }

  lemma RemovedClear(b: Sources.Bucket, key: Sources.Key, other: Sources.Key)
    requires key in b && other in b && Sources.KeysMatch(b)
    ensures Sources.ClearDefaults(Sources.Removed(b, key, other)) == Sources.ClearDefaults(b) - {key}
  {
  }

  lemma WithoutKeys(b: Sources.Bucket, keys: set<Sources.Key>, org: string)
    requires keys == set key | key in b && b[key].organization == org
    ensures Sources.ClearDefaults(b) - keys == Sources.ClearDefaults(SourcesWithout(b, org))
  {
  }

  ghost function KeysOf(srcs: seq<Sources.Source>): set<Sources.Key> {
    set i | 0 <= i < |srcs| :: Sources.KeyOf(srcs[i])
  }

  /** The i-th source to go is still there when the ones before it are gone. */
  lemma OwnedNext(b: Sources.Bucket, all: seq<Sources.Source>, org: string, i: nat, now: Sources.Bucket)
    requires Sources.Listing(b, b.Keys, all) && i < |Filter(OwnedBy(org), all)|
    requires Left(b, now, KeysOf(Filter(OwnedBy(org), all)[..i]))
    ensures var owned := Filter(OwnedBy(org), all);
            && Sources.KeyOf(owned[i]) in now
            && KeysOf(owned[..i + 1]) == KeysOf(owned[..i]) + {Sources.KeyOf(owned[i])}
  {
    var owned := Filter(OwnedBy(org), all);
    ListedDistinct(b, all);
    FilterDistinct(OwnedBy(org), Sources.KeyOf, all);
    FilterMembers(OwnedBy(org), all, owned[i]);
    KeysOfStep(owned, i);
    LeftHas(b, now, KeysOf(owned[..i]), Sources.KeyOf(owned[i]));
  }

  lemma ListedDistinct(b: Sources.Bucket, all: seq<Sources.Source>)
    requires Sources.Listing(b, b.Keys, all)
    ensures DistinctBy(Sources.KeyOf, all) && forall s :: s in all ==> Sources.KeyOf(s) in b
  {
  }

  lemma KeysOfStep(srcs: seq<Sources.Source>, i: nat)
    requires i < |srcs| && DistinctBy(Sources.KeyOf, srcs)
    ensures KeysOf(srcs[..i + 1]) == KeysOf(srcs[..i]) + {Sources.KeyOf(srcs[i])}
    ensures Sources.KeyOf(srcs[i]) !in KeysOf(srcs[..i])
  {
    forall j | 0 <= j < i ensures Sources.KeyOf(srcs[..i][j]) != Sources.KeyOf(srcs[i]) {
      assert Sources.KeyOf(srcs[j]) != Sources.KeyOf(srcs[i]);
    }
  }

  lemma LeftHas(b: Sources.Bucket, now: Sources.Bucket, gone: set<Sources.Key>, key: Sources.Key)
    requires Left(b, now, gone) && key in b && key !in gone
    ensures key in now
  {
    assert key in Sources.ClearDefaults(b) - gone;
    assert key in Sources.ClearDefaults(now);
  }

  lemma OwnedKeys(b: Sources.Bucket, all: seq<Sources.Source>, org: string)
    requires Sources.Listing(b, b.Keys, all)
    ensures KeysOf(Filter(OwnedBy(org), all)) == set key | key in b && b[key].organization == org
  {
    var owned := Filter(OwnedBy(org), all);
    forall i | 0 <= i < |owned| ensures owned[i] in all && owned[i].organization == org {
      FilterMembers(OwnedBy(org), all, owned[i]);
    }
    forall i | 0 <= i < |all| && all[i].organization == org ensures Sources.KeyOf(all[i]) in KeysOf(owned) {
      FilterMembers(OwnedBy(org), all, all[i]);
    }
  }

  // ---------- servers, dashboards, mappings, roles ----------

  function RecordOf(org: string): Record -> bool {
    (r: Record) => r.organization == org
  }

  function IdOf(r: Record): int {
    r.id
  }

  method AnyOf<T>(ids: set<T>) returns (id: T)
    requires ids != {}
    ensures id in ids
  {
    id :| id in ids;
  }

  method ListRecords(records: Records) returns (all: seq<Record>)
    requires RecordsValid(records)
    ensures Lists(IdOf, records, records.Keys, all)
  {
    all := [];
    var todo := records.Keys;
    while todo != {}
      invariant todo <= records.Keys
      invariant Lists(IdOf, records, records.Keys - todo, all)
    {
      var id := AnyOf(todo);
      ListsMore(IdOf, records, records.Keys - todo, all, id);
      all := all + [records[id]];
      todo := todo - {id};
      assert records.Keys - todo == records.Keys - (todo + {id}) + {id};
    }
    assert records.Keys - todo == records.Keys;
  }

  ghost function IdsOf(rs: seq<Record>): set<int> {
    set i | 0 <= i < |rs| :: rs[i].id
  }

  lemma RecordsNext(records: Records, all: seq<Record>, org: string, i: nat)
    requires Lists(IdOf, records, records.Keys, all) && i < |Filter(RecordOf(org), all)|
    ensures var owned := Filter(RecordOf(org), all);
            && owned[i].id in records - IdsOf(owned[..i])
            && IdsOf(owned[..i + 1]) == IdsOf(owned[..i]) + {owned[i].id}
  {
    var owned := Filter(RecordOf(org), all);
    FilterDistinct(RecordOf(org), IdOf, all);
    FilterMembers(RecordOf(org), all, owned[i]);
    forall j | 0 <= j < i ensures owned[..i][j].id != owned[i].id { assert IdOf(owned[j]) != IdOf(owned[i]); }
  }

  lemma RecordsGone(records: Records, all: seq<Record>, org: string)
    requires Lists(IdOf, records, records.Keys, all) && RecordsValid(records)
    ensures records - IdsOf(Filter(RecordOf(org), all)) == RecordsWithout(records, org)
  {
    var owned := Filter(RecordOf(org), all);
    forall i | 0 <= i < |owned| ensures owned[i] in all && owned[i].organization == org {
      FilterMembers(RecordOf(org), all, owned[i]);
    }
    forall id | id in records && records[id].organization == org ensures id in IdsOf(owned) {
      FilterMembers(RecordOf(org), all, records[id]);
      var i :| 0 <= i < |owned| && owned[i] == records[id];
      assert owned[i].id == id;
    }
  }

  /** All records of the organization, each fetched and deleted. */
  method DeleteRecords(records: Records, org: string) returns (left: Records, ok: bool)
    requires RecordsValid(records)
    ensures ok && left == RecordsWithout(records, org) && RecordsValid(left)
  {
    var all := ListRecords(records);
    var owned := FilterSlice(all, RecordOf(org));
    left := records;
    for i := 0 to |owned|
      invariant left == records - IdsOf(owned[..i])
    {
      RecordsNext(records, all, org, i);
      if owned[i].id !in left {
        return left, false;
      }
      left := left - {owned[i].id};
    }
    assert owned[..|owned|] == owned;
    RecordsGone(records, all, org);
    ok := true;
  }

  /** Every mapping of the organization, deleted as the list of all mappings is walked. */
  method DeleteMappings(mappings: Mappings, org: string) returns (left: Mappings, ok: bool)
    requires MappingsValid(mappings)
    ensures ok && left == MappingsWithout(mappings, org) && MappingsValid(left)
  {
    left := mappings;
    var todo := mappings.Keys;
    while todo != {}
      invariant todo <= mappings.Keys
      invariant left == map id | id in mappings && (id in todo || mappings[id].organization != org) :: mappings[id]
    {
      var id: string :| id in todo;
      var mapping := mappings[id];
      if mapping.organization == org {
        if mapping.id !in left {
          return left, false;
        }
        left := left - {mapping.id};
      }
      todo := todo - {id};
    }
    ok := true;
  }

  /** Every user of the organization loses the roles in it. */
  method DeleteRoles(store: Users.UsersStore, org: string) returns (ok: bool)
    requires Users.Consistent(store.State()) && org != ""
    modifies store
    ensures ok && Users.Consistent(store.State())
    ensures store.users == UsersWithout(old(store.users), org)
  {
    var facade := new Users.OrganizationUsers(store, org);
    var listed := facade.All(Some(org));
    ghost var us := Users.VisibleIsExact(store.State(), org, store.sequence + 1);
    ok := DeleteListed(facade, listed.value);
  }

  method DeleteListed(facade: Users.OrganizationUsers, us: seq<Users.User>) returns (ok: bool)
    requires Users.Consistent(facade.store.State()) && facade.organization != ""
    requires Users.Lists(facade.store.State(), facade.organization, facade.store.sequence + 1, us)
    modifies facade.store
    ensures ok && Users.Consistent(facade.store.State())
    ensures facade.store.users == UsersWithout(old(facade.store.users), facade.organization)
  {
    ghost var db, org := facade.store.State(), facade.organization;
    ghost var done: set<nat> := {};
    assert Stripped(db.users, org, done) == db.users;
    for i := 0 to |us|
      invariant facade.store.State() == Users.Db(Stripped(db.users, org, done), db.sequence)
      invariant forall j :: 0 <= j < i ==> us[j].id in done
    {
      ListedUser(db, org, us, i);
      ok := DeleteUserRoles(facade, us[i].id, db, done);
      if !ok {
        return;
      }
      done := done + {us[i].id};
    }
    AllStripped(db, org, done, us);
    ok := true;
  }

  lemma ListedUser(db: Users.Db, org: string, us: seq<Users.User>, i: nat)
    requires Users.Lists(db, org, db.sequence + 1, us) && i < |us|
    ensures us[i].id in db.users
  {
    assert Users.GetIn(db, org, Users.ById(us[i].id)).Ok?;
  }

  method DeleteUserRoles(facade: Users.OrganizationUsers, id: nat, ghost db: Users.Db, ghost done: set<nat>)
    returns (ok: bool)
    requires Users.Consistent(db) && facade.organization != "" && id in db.users
    requires facade.store.State() == Users.Db(Stripped(db.users, facade.organization, done), db.sequence)
    modifies facade.store
    ensures ok
    ensures facade.store.State() == Users.Db(Stripped(db.users, facade.organization, done + {id}), db.sequence)
  {
    StrippedMore(db.users, facade.organization, done, id);
    var failed := facade.Delete(Some(facade.organization), id);
    ok := failed.None?;
  }

  /** The users with the roles in the organization stripped from some of them. */
  function Stripped(users: map<nat, Users.User>, org: string, ids: set<nat>): map<nat, Users.User> {
    map id | id in users ::
      if id in ids then users[id].(roles := Users.RolesOutside(users[id].roles, org)) else users[id]
  }

  lemma StrippedMore(users: map<nat, Users.User>, org: string, ids: set<nat>, id: nat)
    requires id in users
    ensures var now := Stripped(users, org, ids);
            Stripped(users, org, ids + {id}) == now[id := now[id].(roles := Users.RolesOutside(now[id].roles, org))]
  {
    FilterTwice(Users.NotOf(org), Users.NotOf(org), users[id].roles);
  }

  lemma AllStripped(db: Users.Db, org: string, ids: set<nat>, us: seq<Users.User>)
    requires Users.Consistent(db) && Users.Lists(db, org, db.sequence + 1, us)
    requires forall i :: 0 <= i < |us| ==> us[i].id in ids
    ensures Stripped(db.users, org, ids) == UsersWithout(db.users, org)
  {
    forall id | id in db.users
      ensures Users.RolesIn(db.users[id].roles, org) != [] ==> id in ids
      ensures Users.RolesIn(db.users[id].roles, org) == [] ==>
        Users.RolesOutside(db.users[id].roles, org) == db.users[id].roles
    {
      NoneInside(db.users[id].roles, org);
      if Users.GetIn(db, org, Users.ById(id)).Ok? {
        assert Users.GetIn(db, org, Users.ById(id)).value in us;
      }
    }
  }

  lemma {:induction false} NoneInside(roles: seq<Users.Role>, org: string)
    ensures Users.RolesIn(roles, org) == [] ==> Users.RolesOutside(roles, org) == roles
  {
    if roles != [] {
      NoneInside(roles[..|roles| - 1], org);
      assert roles == roles[..|roles| - 1] + [roles[|roles| - 1]];
    }
  }
}
