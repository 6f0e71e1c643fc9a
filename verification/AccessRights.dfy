/**
  * Which member may do what in satsa/tenancy.py, told from the rows of the directory and from the roles of
  * qsmlops/security/permissions/model.py, over single requests and over whole runs.
  */
module AccessRights {
  import opened Counting
  import opened TenantModel
  import opened TenantIsolation

  /** The operations that change a table. */
  predicate Writes(op: Operation) {
    op.CreateEntity? || op.CreateAssessment? || op.CloseAssessment? || op.CreateSubmission?
    || op.CreateSubmissionVersion? || op.CreateArtifact?
  }

  const READERS := {"satsa_viewer", "satsa_auditor"}
  const WRITERS := {"satsa_analyst", "satsa_supervisor", "satsa_admin"}

  /** The caller has a membership row of that role, whatever its status. */
  predicate HoldsRole(d: Directory, c: Context, role: string) {
    (c.organization, c.user) in d.memberships && d.memberships[(c.organization, c.user)].role == role
  }

  predicate Active(status: string) {
    status == "active"
  }

  /** An identity, a user, an organization and a membership that all exist and are active. */
  ghost predicate InForce(d: Directory, c: Context) {
    exists m: Membership, o: Organization, u: User, i: Identity ::
      ((c.organization, c.user), m) in d.memberships.Items && (c.organization, o) in d.organizations.Items
      && (c.user, u) in d.users.Items && (u.identity, i) in d.identities.Items
      && Active(m.status) && Active(o.status) && Active(u.status) && Active(i.status)
  }

  /** The caller is bound to both, is in force as a member, and has a role that covers the operation. */
  ghost predicate Entitled(d: Directory, c: Context, op: Operation) {
    && c.organization != "" && c.user != "" && InForce(d, c)
    && exists role :: HoldsRole(d, c, role) && (role in WRITERS || (role in READERS && !Writes(op)))
  }

  lemma {:induction false} WritesExactly(r: Resources, o: Id, op: Operation, now: real)
    ensures Writes(op) <==> Write(r, o, op, now).Some?
    ensures op.Needs() == AnalysisRun <==> Writes(op)
  {
  }

  lemma {:induction false} InForceExactly(d: Directory, c: Context)
    ensures InForce(d, c) <==> ActiveMember(d, c.organization, c.user)
  {
    if ActiveMember(d, c.organization, c.user) {
      var m, u := d.memberships[(c.organization, c.user)], d.users[c.user];
      var o, i := d.organizations[c.organization], d.identities[u.identity];
      assert ((c.organization, c.user), m) in d.memberships.Items && (c.organization, o) in d.organizations.Items;
      assert (c.user, u) in d.users.Items && (u.identity, i) in d.identities.Items;
      assert Active(m.status) && Active(o.status) && Active(u.status) && Active(i.status);
    }
  }

  lemma {:induction false} EntitledExactly(d: Directory, c: Context, op: Operation)
    ensures Entitled(d, c, op) <==> Allowed(d, c, op.Needs())
  {
    InForceExactly(d, c);
    if Allowed(d, c, op.Needs()) {
      assert HoldsRole(d, c, d.memberships[(c.organization, c.user)].role);
    }
  }

  /** Whoever is not entitled is denied and changes nothing; whoever is gets what the tables say. */
  lemma {:induction false} EntitledOrDenied(s: State, c: Context, op: Operation, now: real)
    ensures !Entitled(s.directory, c, op) ==> Apply(s, c, op, now) == (s, Denied)
    ensures Entitled(s.directory, c, op) && !Writes(op) ==>
              Apply(s, c, op, now) == (s, Read(s.analysis, s.resources, c, op))
    ensures Entitled(s.directory, c, op) && Writes(op) && !op.CloseAssessment? ==>
              (Apply(s, c, op, now).1 == Created(NewId(op)) <==> Creatable(s.resources, c.organization, op))
  {
    EntitledExactly(s.directory, c, op);
    WritesExactly(s.resources, c.organization, op, now);
    if Writes(op) && !op.CloseAssessment? {
      CreatableExact(s.resources, c.organization, op, now);
    }
  }

  /** Viewers and auditors write nothing, however active they are. */
  lemma {:induction false} ReadersNeverWrite(s: State, c: Context, role: string, op: Operation, now: real)
    requires HoldsRole(s.directory, c, role) && role in READERS && Writes(op)
    ensures Apply(s, c, op, now) == (s, Denied)
  {
    EntitledOrDenied(s, c, op, now);
  }

  /** Every active member of the five roles reads, and what it reads is the whole answer. */
  lemma {:induction false} MembersRead(s: State, c: Context, role: string, op: Operation, now: real)
    requires c.organization != "" && c.user != "" && InForce(s.directory, c)
    requires HoldsRole(s.directory, c, role) && role in READERS + WRITERS && !Writes(op)
    ensures Apply(s, c, op, now).0 == s && FullAnswer(s.analysis, s.resources, c, op, Apply(s, c, op, now).1)
  {
    EntitledOrDenied(s, c, op, now);
    FullAnswers(s.analysis, s.resources, c, op);
  }

  /** Analysts, supervisors and administrators create whatever the other guards allow. */
  lemma {:induction false} WritersCreate(s: State, c: Context, role: string, op: Operation, now: real)
    requires c.organization != "" && c.user != "" && InForce(s.directory, c)
    requires HoldsRole(s.directory, c, role) && role in WRITERS
    requires Creatable(s.resources, c.organization, op)
    ensures Apply(s, c, op, now).1 == Created(NewId(op))
  {
    EntitledOrDenied(s, c, op, now);
  }

  // ---- What a read answers ----

  /** The run row belongs to the organization. */
  predicate RunOf(a: Analysis, o: Id, run: Id) {
    run in a.runs && a.runs[run].organization == o
  }

  /** The chain finding, observation, run leads to the organization. */
  ghost predicate FindingOf(a: Analysis, o: Id, finding: Id) {
    exists f: Finding, x: Observation ::
      (finding, f) in a.findings.Items && (f.observation, x) in a.observations.Items && RunOf(a, o, x.run)
  }

  lemma {:induction false} FindingOfExactly(a: Analysis, o: Id, finding: Id)
    ensures FindingOf(a, o, finding) <==> OwnsFinding(a, o, finding)
  {
    if OwnsFinding(a, o, finding) {
      var f := a.findings[finding];
      assert (finding, f) in a.findings.Items && (f.observation, a.observations[f.observation]) in a.observations.Items;
    }
  }

  ghost predicate ReceiptOf(a: Analysis, o: Id, x: Receipt) {
    (x.subjectType == "run" && RunOf(a, o, x.subject)) || (x.subjectType == "finding" && FindingOf(a, o, x.subject))
  }

  function IfSome<T>(condition: bool, m: map<Id, T>, id: Id): Option<T>
    requires condition ==> id in m
  {
    if condition then Some(m[id]) else None
  }

  /** The other entities of the organization with the same sector and environment class. */
  ghost predicate SameCohort(r: Resources, o: Id, x: Id, y: Id) {
    && x != y && x in r.entities && y in r.entities
    && r.entities[x].organization == o && r.entities[y].organization == o
    && r.entities[x].sector == r.entities[y].sector
    && r.entities[x].environmentClass == r.entities[y].environmentClass
  }

  /** The answer holds the row asked for exactly when it exists and its chain leads to the caller's organization. */
  ghost predicate FullAnswer(a: Analysis, r: Resources, c: Context, op: Operation, answer: Result) {
    var o := c.organization;
    match op
    case GetEntity(id) =>
      answer == EntityRow(IfSome(id in r.entities && r.entities[id].organization == o, r.entities, id))
    case ListEntities =>
      && answer.EntityRows?
      && forall id, e :: (id, e) in answer.entities.Items <==> (id, e) in r.entities.Items && e.organization == o
    case PeerEntityIds(id) =>
      if c.aggregatePeers || id !in r.entities || r.entities[id].organization != o then answer == Denied
      else answer.PeerIds? && forall p :: p in answer.peers <==> SameCohort(r, o, id, p)
    case GetAssessment(id) =>
      answer == AssessmentRow(IfSome(id in r.assessments && r.assessments[id].organization == o, r.assessments, id))
    case GetSubmission(id) =>
      answer == SubmissionRow(IfSome(id in r.submissions && r.submissions[id].organization == o, r.submissions, id))
    case GetSubmissionVersion(id) =>
      answer == VersionRow(IfSome(id in r.versions && r.versions[id].organization == o, r.versions, id))
    case GetArtifact(id) =>
      answer == ArtifactRow(IfSome(id in r.artifacts && r.artifacts[id].organization == o, r.artifacts, id))
    case GetRun(id) => answer == RunFound(IfSome(RunOf(a, o, id), a.runs, id))
    case GetFinding(id) =>
      FindingOfExactly(a, o, id);
      answer == FindingFound(IfSome(FindingOf(a, o, id), a.findings, id))
    case GetSourceRecord(id) =>
      answer == SourceFound(IfSome(id in a.sources && a.sources[id].submission in r.submissions
                                   && r.submissions[a.sources[id].submission].organization == o, a.sources, id))
    case GetReview(id) =>
      answer == ReviewFound(IfSome(id in a.reviews && FindingOf(a, o, a.reviews[id].finding), a.reviews, id))
    case GetTrustReceipt(id) =>
      answer == ReceiptFound(if id in a.receipts && ReceiptOf(a, o, a.receipts[id]) then Some(a.receipts[id]) else None)
    case _ => true
  }

  lemma {:induction false} FullRows(a: Analysis, r: Resources, c: Context, op: Operation)
    requires op.GetEntity? || op.GetAssessment? || op.GetSubmission? || op.GetSubmissionVersion? || op.GetArtifact?
    ensures FullAnswer(a, r, c, op, Read(a, r, c, op))
  {
  }

  lemma {:induction false} FullLists(a: Analysis, r: Resources, c: Context, op: Operation)
    requires op.ListEntities? || op.PeerEntityIds?
    ensures FullAnswer(a, r, c, op, Read(a, r, c, op))
  {
  }

  lemma {:induction false} FullChains(a: Analysis, r: Resources, c: Context, op: Operation)
    requires op.GetRun? || op.GetFinding? || op.GetSourceRecord? || op.GetReview? || op.GetTrustReceipt?
    ensures FullAnswer(a, r, c, op, Read(a, r, c, op))
  {
    var o := c.organization;
    match op
    case GetRun(_) =>
    case GetFinding(id) => FindingOfExactly(a, o, id);
    case GetSourceRecord(_) =>
    case GetReview(id) => if id in a.reviews { FindingOfExactly(a, o, a.reviews[id].finding); }
    case GetTrustReceipt(id) => if id in a.receipts { FindingOfExactly(a, o, a.receipts[id].subject); }
  }

  lemma {:induction false} FullAnswers(a: Analysis, r: Resources, c: Context, op: Operation)
    requires !Writes(op)
    ensures FullAnswer(a, r, c, op, Read(a, r, c, op))
  {
    if op.GetEntity? || op.GetAssessment? || op.GetSubmission? || op.GetSubmissionVersion? || op.GetArtifact? {
      FullRows(a, r, c, op);
    } else if op.ListEntities? || op.PeerEntityIds? {
      FullLists(a, r, c, op);
    } else {
      FullChains(a, r, c, op);
    }
  }

  // ---- Roles over whole runs ----

  /** No request gives a member another role. */
  lemma {:induction false} StepKeepsRole(s: State, step: Step, c: Context, role: string)
    requires HoldsRole(s.directory, c, role)
    ensures HoldsRole(Take(s, step).0.directory, c, role)
  {
  }

  /** In any run, whatever administrators and other members do, a viewer or auditor writes nothing. */
  lemma {:induction false} ReadersNeverWriteInRuns(s: State, steps: seq<Step>, c: Context, role: string, i: nat)
    requires HoldsRole(s.directory, c, role) && role in READERS
    requires i < |steps| && steps[i].Tenant? && Writes(steps[i].operation)
    requires steps[i].context.organization == c.organization && steps[i].context.user == c.user
    ensures Results(s, steps)[i] == Denied
    decreases steps
  {
    if i == 0 {
      ReadersNeverWrite(s, steps[0].context, role, steps[0].operation, steps[0].now);
    } else {
      StepKeepsRole(s, steps[0], c, role);
      ReadersNeverWriteInRuns(Take(s, steps[0]).0, steps[1..], c, role, i - 1);
    }
  }

  // ---- The directory ----

  ghost predicate OrganizationsSound(organizations: map<Id, Organization>) {
    && (forall o :: o in organizations ==> organizations[o].name != "")
    && (forall o, p :: o in organizations && p in organizations && o != p ==>
          organizations[o].name != organizations[p].name)
  }

  ghost predicate UsersSound(users: map<Id, User>, identities: map<Id, Identity>) {
    && (forall u :: u in users ==>
          '@' in users[u].email && users[u].identity in identities && identities[users[u].identity].kind == "human")
    && (forall u, v :: u in users && v in users && u != v ==>
          users[u].email != users[v].email && users[u].identity != users[v].identity)
  }

  ghost predicate MembershipsSound(d: Directory) {
    forall o, u :: (o, u) in d.memberships ==>
      o in d.organizations && u in d.users && d.memberships[(o, u)].role in READERS + WRITERS
      && d.memberships[(o, u)].status in {"active", "revoked"}
  }

  /** Names, emails and identities are unique, every user is a person, and every membership has its two ends. */
  ghost predicate DirectorySound(d: Directory) {
    OrganizationsSound(d.organizations) && UsersSound(d.users, d.identities) && MembershipsSound(d)
  }

  lemma {:induction false} SoundOrganization(d: Directory, op: AdminOperation, now: real)
    requires DirectorySound(d) && op.CreateOrganization?
    ensures DirectorySound(Administer(d, op, now).0)
  {
    assert OrganizationsSound(Administer(d, op, now).0.organizations);
  }

  lemma {:induction false} SoundUser(d: Directory, op: AdminOperation, now: real)
    requires DirectorySound(d) && op.CreateUser?
    ensures DirectorySound(Administer(d, op, now).0)
  {
    assert UsersSound(Administer(d, op, now).0.users, d.identities);
  }

  lemma {:induction false} SoundMembership(d: Directory, op: AdminOperation, now: real)
    requires DirectorySound(d) && (op.AddMembership? || op.SetMembershipStatus?)
    ensures DirectorySound(Administer(d, op, now).0)
  {
    assert MembershipsSound(Administer(d, op, now).0);
  }

  lemma {:induction false} StepKeepsDirectory(s: State, step: Step)
    requires DirectorySound(s.directory)
    ensures DirectorySound(Take(s, step).0.directory)
  {
    if step.Admin? {
      match step.request
      case CreateOrganization(_, _) => SoundOrganization(s.directory, step.request, step.now);
      case CreateUser(_, _, _) => SoundUser(s.directory, step.request, step.now);
      case _ => SoundMembership(s.directory, step.request, step.now);
    }
  }

  /** So in every reachable state, however requests interleave. */
  lemma {:induction false} RunKeepsDirectory(s: State, steps: seq<Step>)
    requires DirectorySound(s.directory)
    ensures DirectorySound(After(s, steps).directory)
    decreases steps
  {
    if steps != [] {
      StepKeepsDirectory(s, steps[0]);
      RunKeepsDirectory(Take(s, steps[0]).0, steps[1..]);
    }
  }

  /** The requests of an administrator that bring a new member into force, in order. */
  function Onboarding(organization: Id, name: string, user: Id, identity: Id, email: string, role: string,
                      now: real): seq<Step> {
    [ Admin(AdminOperation.CreateOrganization(organization, name), now),
      Admin(AdminOperation.CreateUser(user, identity, email), now),
      Admin(AdminOperation.AddMembership(organization, user, role), now) ]
  }

  ghost predicate NewcomerFits(d: Directory, organization: Id, name: string, user: Id, identity: Id, email: string,
                               role: string) {
    && Strip(name) != "" && organization !in d.organizations
    && (forall o :: o in d.organizations ==> d.organizations[o].name != Strip(name))
    && identity in d.identities && d.identities[identity] == Identity("human", "active")
    && '@' in Lower(Strip(email)) && user !in d.users && role in READERS + WRITERS
    && (forall u :: u in d.users ==> d.users[u].identity != identity && d.users[u].email != Lower(Strip(email)))
    && (organization, user) !in d.memberships
  }

  lemma {:induction false} ThreeSteps(s: State, a: Step, b: Step, c: Step)
    ensures After(s, [a, b, c]) == Take(Take(Take(s, a).0, b).0, c).0
  {
    var t := Take(s, a).0;
    assert [a, b, c][1..] == [b, c] && [b, c][1..] == [c] && [c][1..] == [];
    assert After(t, [b, c]) == After(Take(t, b).0, [c]);
    assert After(Take(t, b).0, [c]) == After(Take(Take(t, b).0, c).0, []);
  }

  /** The rows that the three requests leave. */
  ghost predicate Provisioned(d: Directory, organization: Id, name: string, user: Id, identity: Id, email: string,
                              role: string, now: real)
  {
    && (organization, Organization(Strip(name), "active", now)) in d.organizations.Items
    && (user, User(identity, Lower(Strip(email)), "active", now)) in d.users.Items
    && ((organization, user), Membership(role, "active", now)) in d.memberships.Items
  }

  /** Whoever fits is provisioned with exactly the data given, and is in force with that role. */
  lemma {:induction false} OnboardingWorks(s: State, organization: Id, name: string, user: Id, identity: Id,
                                           email: string, role: string, now: real, c: Context)
    requires NewcomerFits(s.directory, organization, name, user, identity, email, role)
    requires c.organization == organization && c.user == user
    ensures var t := After(s, Onboarding(organization, name, user, identity, email, role, now));
            && Provisioned(t.directory, organization, name, user, identity, email, role, now)
            && InForce(t.directory, c) && HoldsRole(t.directory, c, role)
  {
    var steps := Onboarding(organization, name, user, identity, email, role, now);
    ThreeSteps(s, steps[0], steps[1], steps[2]);
    InForceExactly(After(s, steps).directory, c);
  }

  /** A status request sets the status of an existing membership, and nothing else anywhere; others it refuses. */
  lemma {:induction false} StatusExactly(s: State, organization: Id, user: Id, status: string, now: real)
    ensures var (t, r) := Take(s, Admin(SetMembershipStatus(organization, user, status), now));
            var key, m := (organization, user), s.directory.memberships;
            && (status !in {"active", "revoked"} ==> (t, r) == (s, Invalid))
            && (status in {"active", "revoked"} && key !in m ==> (t, r) == (s, Done))
            && (status in {"active", "revoked"} && key in m ==>
                  r == Done && t == s.(directory := s.directory.(memberships := m[key := m[key].(status := status)])))
  {
  }

  /** Revoking works at once, and reactivating undoes it. */
  lemma {:induction false} RevokeAndRestore(s: State, organization: Id, user: Id, now: real)
    requires (organization, user) in s.directory.memberships
    requires s.directory.memberships[(organization, user)].status == "active"
    ensures var t := Take(s, Admin(SetMembershipStatus(organization, user, "revoked"), now)).0;
            && Revoked(t.directory, organization, user)
            && Take(t, Admin(SetMembershipStatus(organization, user, "active"), now)).0 == s
  {
    var m := s.directory.memberships;
    var key := (organization, user);
    StatusExactly(s, organization, user, "revoked", now);
    assert m[key := m[key].(status := "revoked")][key := m[key]] == m;
  }

  // ---- Text ----

  predicate AllBlank(s: string) {
    forall i :: 0 <= i < |s| ==> Blank(s[i])
  }

  lemma {:induction false} StripLeftExactly(s: string) returns (a: string)
    ensures s == a + StripLeft(s) && AllBlank(a) && (StripLeft(s) != "" ==> !Blank(StripLeft(s)[0]))
  {
    if s != "" && Blank(s[0]) {
      var rest := StripLeftExactly(s[1..]);
      a := [s[0]] + rest;
      assert s == [s[0]] + s[1..];
    } else {
      a := "";
    }
  }

  lemma {:induction false} SplitEnd(s: string, front: string, last: char, kept: string, rest: string)
    requires s == front + [last] && front == kept + rest
    ensures s == kept + (rest + [last])
  {
  }

  lemma {:induction false} StripRightExactly(s: string) returns (b: string)
    ensures s == StripRight(s) + b && AllBlank(b)
    ensures StripRight(s) != "" ==> !Blank(StripRight(s)[|StripRight(s)| - 1])
    ensures StripRight(s) != "" ==> StripRight(s)[0] == s[0]
  {
    if s != "" && Blank(s[|s| - 1]) {
      var front, last := s[..|s| - 1], s[|s| - 1];
      var rest := StripRightExactly(front);
      b := rest + [last];
      SplitEnd(s, front, last, StripRight(front), rest);
    } else {
      b := "";
    }
  }

  /** Stripping takes blanks off both ends, as many as there are, and nothing else. */
  lemma {:induction false} StripExactly(s: string) returns (a: string, b: string)
    ensures s == a + Strip(s) + b && AllBlank(a) && AllBlank(b)
    ensures Strip(s) != "" ==> !Blank(Strip(s)[0]) && !Blank(Strip(s)[|Strip(s)| - 1])
  {
    a := StripLeftExactly(s);
    b := StripRightExactly(StripLeft(s));
    Regroup(a, Strip(s), b);
  }
}
