/**
  * The mutable side of satsa/tenancy.py: a database whose tables the repository and the administration update in place.
  */
module TenantRepository {
  import opened Counting
  import opened TenantModel
  import TextOrder

  class Database {
    var identities: map<Id, Identity>
    var organizations: map<Id, Organization>
    var users: map<Id, User>
    var memberships: map<(Id, Id), Membership>
    var entities: map<Id, Entity>
    var assessments: map<Id, Assessment>
    var submissions: map<Id, Submission>
    var versions: map<Id, Version>
    var artifacts: map<Id, Artifact>
    const analysis: Analysis

    constructor (identities: map<Id, Identity>, analysis: Analysis)
      ensures People() == Directory(identities, map[], map[], map[])
      ensures Rows() == Resources(map[], map[], map[], map[], map[]) && this.analysis == analysis
    {
      this.identities := identities;
      organizations, users, memberships := map[], map[], map[];
      entities, assessments, submissions, versions, artifacts := map[], map[], map[], map[], map[];
      this.analysis := analysis;
    }

    function People(): Directory
      reads this
    {
      Directory(identities, organizations, users, memberships)
    }

    function Rows(): Resources
      reads this
    {
      Resources(entities, assessments, submissions, versions, artifacts)
    }

    function Snapshot(): State
      reads this
    {
      State(People(), analysis, Rows())
    }
  }

  class TenantAdministration {
    const db: Database

    constructor (db: Database)
      ensures this.db == db
    {
      this.db := db;
    }

    method CreateOrganization(newId: Id, rawName: string, now: real) returns (r: Result)
      modifies db`organizations
      ensures (db.People(), r) == Administer(old(db.People()), AdminOperation.CreateOrganization(newId, rawName), now)
    {
      var name := Strip(rawName);
      if name == "" {
        return Invalid;
      }
      if newId in db.organizations || exists o :: o in db.organizations && db.organizations[o].name == name {
        return Duplicate;
      }
      db.organizations := db.organizations[newId := Organization(name, "active", now)];
      return Created(newId);
    }

    method CreateUser(newId: Id, identity: Id, rawEmail: string, now: real) returns (r: Result)
      modifies db`users
      ensures (db.People(), r)
              == Administer(old(db.People()), AdminOperation.CreateUser(newId, identity, rawEmail), now)
    {
      if identity !in db.identities || db.identities[identity].kind != "human"
         || db.identities[identity].status != "active" {
        return Invalid;
      }
      var email := Lower(Strip(rawEmail));
      if email == "" || '@' !in email {
        return Invalid;
      }
      if newId in db.users
         || exists u :: u in db.users && (db.users[u].identity == identity || db.users[u].email == email) {
        return Duplicate;
      }
      db.users := db.users[newId := User(identity, email, "active", now)];
      return Created(newId);
    }

    method AddMembership(organization: Id, user: Id, role: string, now: real) returns (r: Result)
      modifies db`memberships
      ensures (db.People(), r)
              == Administer(old(db.People()), AdminOperation.AddMembership(organization, user, role), now)
    {
      if role !in SATSA_ROLES {
        return Invalid;
      }
      if (organization, user) in db.memberships {
        return Duplicate;
      }
      if organization !in db.organizations || user !in db.users {
        return StorageFailed;
      }
      db.memberships := db.memberships[(organization, user) := Membership(role, "active", now)];
      return Done;
    }

    method SetMembershipStatus(organization: Id, user: Id, status: string, now: real) returns (r: Result)
      modifies db`memberships
      ensures (db.People(), r) ==
              Administer(old(db.People()), AdminOperation.SetMembershipStatus(organization, user, status), now)
    {
      if status != "active" && status != "revoked" {
        return Invalid;
      }
      if (organization, user) in db.memberships {
        var m := db.memberships[(organization, user)];
        db.memberships := db.memberships[(organization, user) := m.(status := status)];
      }
      return Done;
    }
  }

  class TenantRepository {
    const db: Database
    const organization: Id
    const user: Id
    const aggregatePeers: bool

    /**
      * Where the organization or the user is empty the source denies the construction; here all that follows is denied.
      */
    constructor (db: Database, organization: Id, user: Id, aggregatePeers: bool)
      ensures this.db == db && Caller() == Context(organization, user, aggregatePeers)
    {
      this.db, this.organization, this.user, this.aggregatePeers := db, organization, user, aggregatePeers;
    }

    function Caller(): Context {
      Context(organization, user, aggregatePeers)
    }

    /** `_require`: does the caller hold the permission through an active membership? */
    method Require(permission: Permission) returns (ok: bool)
      ensures ok == Allowed(db.People(), Caller(), permission)
    {
      if organization == "" || user == "" || (organization, user) !in db.memberships {
        return false;
      }
      var m := db.memberships[(organization, user)];
      if m.status != "active" || organization !in db.organizations
         || db.organizations[organization].status != "active" {
        return false;
      }
      if user !in db.users || db.users[user].status != "active" {
        return false;
      }
      var identity := db.users[user].identity;
      if identity !in db.identities || db.identities[identity].status != "active" {
        return false;
      }
      return Grants(m.role, permission);
    }

    method CreateEntity(newId: Id, displayName: string, sector: string, environmentClass: string, now: real)
      returns (r: Result)
      modifies db`entities
      ensures (db.Snapshot(), r) ==
              Apply(old(db.Snapshot()), Caller(),
                    Operation.CreateEntity(newId, displayName, sector, environmentClass), now)
    {
      var ok := Require(AnalysisRun);
      if !ok {
        return Denied;
      }
      var name := Strip(displayName);
      if name == "" {
        return Invalid;
      }
      if newId in db.entities {
        return Duplicate;
      }
      var digest := EntityDocument(newId, name, sector, environmentClass);
      db.entities := db.entities[newId := Entity(organization, name, sector, environmentClass, digest, now)];
      return Created(newId);
    }

    method GetEntity(id: Id, now: real) returns (r: Result)
      ensures (db.Snapshot(), r) == Apply(db.Snapshot(), Caller(), Operation.GetEntity(id), now)
    {
      var ok := Require(FindingView);
      if !ok {
        return Denied;
      }
      if id in db.entities && db.entities[id].organization == organization {
        return EntityRow(Some(db.entities[id]));
      }
      return EntityRow(None);
    }

    /** The rows come ordered by display name; rows of one name in any order. */
    method ListEntities(now: real) returns (r: Result, rows: seq<Id>)
      ensures (db.Snapshot(), r) == Apply(db.Snapshot(), Caller(), Operation.ListEntities, now)
      ensures r.EntityRows? ==>
                Distinct(rows) && (forall id :: id in rows <==> id in r.entities) && ByName(r.entities, rows)
    {
      rows := [];
      var ok := Require(FindingView);
      if !ok {
        return Denied, rows;
      }
      var owned := map id | id in db.entities && db.entities[id].organization == organization :: db.entities[id];
      rows := OrderByName(owned);
      return EntityRows(owned), rows;
    }

    /** The ids come in ascending order. */
    method PeerEntityIds(id: Id, now: real) returns (r: Result, ids: seq<Id>)
      ensures (db.Snapshot(), r) == Apply(db.Snapshot(), Caller(), Operation.PeerEntityIds(id), now)
      ensures r.PeerIds? ==> TextOrder.Ascending(ids) && forall p :: p in ids <==> p in r.peers
    {
      ids := [];
      var ok := Require(FindingView);
      if !ok || aggregatePeers {
        return Denied, ids;
      }
      if id !in db.entities || db.entities[id].organization != organization {
        return Denied, ids;
      }
      var e := db.entities[id];
      var peers := set p | p in db.entities && db.entities[p].organization == organization && p != id
                           && db.entities[p].sector == e.sector
                           && db.entities[p].environmentClass == e.environmentClass;
      ids := SortIds(peers);
      return PeerIds(peers), ids;
    }

    method CreateAssessment(newId: Id, entity: Id, periodStart: real, periodEnd: real, now: real) returns (r: Result)
      modifies db`assessments
      ensures (db.Snapshot(), r) ==
              Apply(old(db.Snapshot()), Caller(),
                    Operation.CreateAssessment(newId, entity, periodStart, periodEnd), now)
    {
      var ok := Require(AnalysisRun);
      if !ok {
        return Denied;
      }
      if entity !in db.entities || db.entities[entity].organization != organization {
        return Denied;
      }
      if entity == "" || periodEnd <= periodStart {
        return Invalid;
      }
      if newId in db.assessments {
        return Duplicate;
      }
      var digest := AssessmentDocument(newId, entity, periodStart, periodEnd, "open");
      var row := Assessment(organization, entity, periodStart, periodEnd, "open", digest, now);
      db.assessments := db.assessments[newId := row];
      return Created(newId);
    }

    method GetAssessment(id: Id, now: real) returns (r: Result)
      ensures (db.Snapshot(), r) == Apply(db.Snapshot(), Caller(), Operation.GetAssessment(id), now)
    {
      var ok := Require(FindingView);
      if !ok {
        return Denied;
      }
      if id in db.assessments && db.assessments[id].organization == organization {
        return AssessmentRow(Some(db.assessments[id]));
      }
      return AssessmentRow(None);
    }

    method CloseAssessment(id: Id, now: real) returns (r: Result)
      modifies db`assessments
      ensures (db.Snapshot(), r) == Apply(old(db.Snapshot()), Caller(), Operation.CloseAssessment(id), now)
    {
      var ok := Require(AnalysisRun);
      if !ok || id !in db.assessments || db.assessments[id].organization != organization {
        return Denied;
      }
      var row := db.assessments[id];
      var digest := AssessmentDocument(id, row.entity, row.periodStart, row.periodEnd, "closed");
      db.assessments := db.assessments[id := row.(status := "closed", digest := digest)];
      return Done;
    }

    method CreateSubmission(newId: Id, assessment: Id, now: real) returns (r: Result)
      modifies db`submissions
      ensures (db.Snapshot(), r)
              == Apply(old(db.Snapshot()), Caller(), Operation.CreateSubmission(newId, assessment), now)
    {
      var ok := Require(AnalysisRun);
      if !ok || assessment !in db.assessments || db.assessments[assessment].organization != organization {
        return Denied;
      }
      if newId in db.submissions {
        return Duplicate;
      }
      var entity := db.assessments[assessment].entity;
      db.submissions := db.submissions[newId := Submission(organization, assessment, entity, "created", now)];
      return Created(newId);
    }

    method GetSubmission(id: Id, now: real) returns (r: Result)
      ensures (db.Snapshot(), r) == Apply(db.Snapshot(), Caller(), Operation.GetSubmission(id), now)
    {
      var ok := Require(FindingView);
      if !ok {
        return Denied;
      }
      if id in db.submissions && db.submissions[id].organization == organization {
        return SubmissionRow(Some(db.submissions[id]));
      }
      return SubmissionRow(None);
    }

    method CreateSubmissionVersion(newId: Id, submission: Id, number: int, now: real) returns (r: Result)
      modifies db`versions
      ensures (db.Snapshot(), r) ==
              Apply(old(db.Snapshot()), Caller(), Operation.CreateSubmissionVersion(newId, submission, number), now)
    {
      var ok := Require(AnalysisRun);
      if !ok || submission !in db.submissions || db.submissions[submission].organization != organization {
        return Denied;
      }
      if number < 1 {
        return Invalid;
      }
      if newId in db.versions || VersionTaken(db.Rows(), submission, number) {
        return Duplicate;
      }
      db.versions := db.versions[newId := Version(organization, submission, number, now)];
      return Created(newId);
    }

    method GetSubmissionVersion(id: Id, now: real) returns (r: Result)
      ensures (db.Snapshot(), r) == Apply(db.Snapshot(), Caller(), Operation.GetSubmissionVersion(id), now)
    {
      var ok := Require(FindingView);
      if !ok {
        return Denied;
      }
      if id in db.versions && db.versions[id].organization == organization {
        return VersionRow(Some(db.versions[id]));
      }
      return VersionRow(None);
    }

    method CreateArtifact(newId: Id, version: Id, storageKey: string, contentType: string, sizeBytes: int,
                          digest: string, now: real) returns (r: Result)
      modifies db`artifacts
      ensures (db.Snapshot(), r) ==
              Apply(old(db.Snapshot()), Caller(),
                    Operation.CreateArtifact(newId, version, storageKey, contentType, sizeBytes, digest), now)
    {
      var ok := Require(AnalysisRun);
      if !ok || version !in db.versions || db.versions[version].organization != organization {
        return Denied;
      }
      if storageKey == "" || contentType == "" || sizeBytes < 0 || !HexDigest(digest) {
        return Invalid;
      }
      if newId in db.artifacts || KeyTaken(db.Rows(), organization, storageKey) {
        return Duplicate;
      }
      var row := Artifact(organization, version, storageKey, contentType, sizeBytes, digest, now);
      db.artifacts := db.artifacts[newId := row];
      return Created(newId);
    }

    method GetArtifact(id: Id, now: real) returns (r: Result)
      ensures (db.Snapshot(), r) == Apply(db.Snapshot(), Caller(), Operation.GetArtifact(id), now)
    {
      var ok := Require(EvidenceView);
      if !ok {
        return Denied;
      }
      if id in db.artifacts && db.artifacts[id].organization == organization {
        return ArtifactRow(Some(db.artifacts[id]));
      }
      return ArtifactRow(None);
    }

    method GetRun(id: Id, now: real) returns (r: Result)
      ensures (db.Snapshot(), r) == Apply(db.Snapshot(), Caller(), Operation.GetRun(id), now)
    {
      var ok := Require(FindingView);
      if !ok {
        return Denied;
      }
      if id in db.analysis.runs && db.analysis.runs[id].organization == organization {
        return RunFound(Some(db.analysis.runs[id]));
      }
      return RunFound(None);
    }

    method GetFinding(id: Id, now: real) returns (r: Result)
      ensures (db.Snapshot(), r) == Apply(db.Snapshot(), Caller(), Operation.GetFinding(id), now)
    {
      var ok := Require(FindingView);
      if !ok {
        return Denied;
      }
      if OwnsFinding(db.analysis, organization, id) {
        return FindingFound(Some(db.analysis.findings[id]));
      }
      return FindingFound(None);
    }

    method GetSourceRecord(id: Id, now: real) returns (r: Result)
      ensures (db.Snapshot(), r) == Apply(db.Snapshot(), Caller(), Operation.GetSourceRecord(id), now)
    {
      var ok := Require(EvidenceView);
      if !ok {
        return Denied;
      }
      if id in db.analysis.sources {
        var submission := db.analysis.sources[id].submission;
        if submission in db.submissions && db.submissions[submission].organization == organization {
          return SourceFound(Some(db.analysis.sources[id]));
        }
      }
      return SourceFound(None);
    }

    method GetReview(id: Id, now: real) returns (r: Result)
      ensures (db.Snapshot(), r) == Apply(db.Snapshot(), Caller(), Operation.GetReview(id), now)
    {
      var ok := Require(ReviewRead);
      if !ok {
        return Denied;
      }
      if id in db.analysis.reviews && OwnsFinding(db.analysis, organization, db.analysis.reviews[id].finding) {
        return ReviewFound(Some(db.analysis.reviews[id]));
      }
      return ReviewFound(None);
    }

    method GetTrustReceipt(id: int, now: real) returns (r: Result)
      ensures (db.Snapshot(), r) == Apply(db.Snapshot(), Caller(), Operation.GetTrustReceipt(id), now)
    {
      var ok := Require(TrustVerify);
      if !ok {
        return Denied;
      }
      if OwnsReceipt(db.analysis, organization, id) {
        return ReceiptFound(Some(db.analysis.receipts[id]));
      }
      return ReceiptFound(None);
    }
  }

  // ---- ORDER BY ----

  /** `ORDER BY id` */
  method SortIds(ids: set<Id>) returns (r: seq<Id>)
    ensures TextOrder.Ascending(r) && forall id :: id in r <==> id in ids
  {
    r := [];
    var rest := ids;
    while rest != {}
      invariant TextOrder.Ascending(r) && rest <= ids
      invariant forall id :: id in ids <==> id in r || id in rest
      decreases rest
    {
      var id :| id in rest;
      TextOrder.InsertAscending(id, r);
      r := TextOrder.Insert(id, r);
      rest := rest - {id};
    }
  }

  ghost predicate ByName(rows: map<Id, Entity>, ids: seq<Id>)
    requires forall id :: id in ids ==> id in rows
  {
    forall i, j :: 0 <= i < j < |ids| ==> !TextOrder.Less(rows[ids[j]].displayName, rows[ids[i]].displayName)
  }

  function InsertByName(rows: map<Id, Entity>, id: Id, ids: seq<Id>): (r: seq<Id>)
    requires id in rows && forall k :: k in ids ==> k in rows
    ensures forall k :: k in r <==> k == id || k in ids
  {
    if ids == [] then [id]
    else if !TextOrder.Less(rows[ids[0]].displayName, rows[id].displayName) then [id] + ids
    else [ids[0]] + InsertByName(rows, id, ids[1..])
  }

  lemma {:induction false} InsertByNameSorted(rows: map<Id, Entity>, id: Id, ids: seq<Id>)
    requires id in rows && (forall k :: k in ids ==> k in rows) && id !in ids && Distinct(ids) && ByName(rows, ids)
    ensures Distinct(InsertByName(rows, id, ids)) && ByName(rows, InsertByName(rows, id, ids))
  {
    if ids != [] {
      var name := rows[id].displayName;
      if !TextOrder.Less(rows[ids[0]].displayName, name) {
        forall j | 0 <= j < |ids| ensures !TextOrder.Less(rows[ids[j]].displayName, name) {
          NotLessTransitive(rows[ids[j]].displayName, rows[ids[0]].displayName, name);
        }
      } else {
        InsertByNameSorted(rows, id, ids[1..]);
        var rest := InsertByName(rows, id, ids[1..]);
        TextOrder.LessTotal(rows[ids[0]].displayName, name);
        forall j | 0 <= j < |rest|
          ensures rest[j] != ids[0] && !TextOrder.Less(rows[rest[j]].displayName, rows[ids[0]].displayName)
        {
          assert rest[j] in rest;
          assert rest[j] == id || rest[j] in ids[1..];
        }
      }
    }
  }

  lemma NotLessTransitive(a: string, b: string, c: string)
    requires (!TextOrder.Less(a, b) || a == b) && !TextOrder.Less(b, c)
    ensures !TextOrder.Less(a, c)
  {
    TextOrder.LessTotal(a, b);
    TextOrder.LessTotal(b, c);
    if TextOrder.Less(a, c) {
      TextOrder.LessTotal(a, c);
      if TextOrder.Less(c, b) {
        TextOrder.LessTransitive(a, c, b);
      }
    }
  }

  /** `ORDER BY display_name` */
  method OrderByName(rows: map<Id, Entity>) returns (ids: seq<Id>)
    ensures Distinct(ids) && (forall id :: id in ids <==> id in rows) && ByName(rows, ids)
  {
    ids := [];
    var rest := rows.Keys;
    while rest != {}
      invariant rest <= rows.Keys && Distinct(ids)
      invariant forall id :: id in rows <==> id in ids || id in rest
      invariant forall id :: id in ids ==> id !in rest
      invariant ByName(rows, ids)
      decreases rest
    {
      var id :| id in rest;
      InsertByNameSorted(rows, id, ids);
      ids := InsertByName(rows, id, ids);
      rest := rest - {id};
    }
  }
}
