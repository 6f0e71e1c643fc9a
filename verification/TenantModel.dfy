/** The tables behind satsa/tenancy.py and what each operation of the tenant repository does to them. */
module TenantModel {
  import opened Counting

  type Id = string

  datatype Permission = AnalysisRun | FindingView | EvidenceView | ReviewRead | TrustVerify

  datatype Identity = Identity(kind: string, status: string)
  datatype Organization = Organization(name: string, status: string, createdAt: real)
  datatype User = User(identity: Id, email: string, status: string, createdAt: real)
  datatype Membership = Membership(role: string, status: string, createdAt: real)

  /** A content digest, taken as free of collisions: it is the document it was computed from. */
  datatype Document =
    | EntityDocument(id: Id, displayName: string, sector: string, environmentClass: string)
    | AssessmentDocument(id: Id, entity: Id, periodStart: real, periodEnd: real, status: string)

  /** An empty organization stands for the NULL of rows that no organization owns yet. */
  datatype Entity = Entity(organization: Id, displayName: string, sector: string, environmentClass: string,
                           digest: Document, createdAt: real)
  datatype Assessment = Assessment(organization: Id, entity: Id, periodStart: real, periodEnd: real, status: string,
                                   digest: Document, createdAt: real)
  datatype Submission = Submission(organization: Id, assessment: Id, entity: Id, ingestStatus: string, createdAt: real)
  datatype Version = Version(organization: Id, submission: Id, number: int, createdAt: real)
  datatype Artifact = Artifact(organization: Id, version: Id, storageKey: string, contentType: string,
                               sizeBytes: int, digest: string, createdAt: real)

  datatype RunRow = RunRow(organization: Id)
  datatype Observation = Observation(run: Id)
  datatype Finding = Finding(observation: Id)
  datatype SourceRecord = SourceRecord(submission: Id)
  datatype Review = Review(finding: Id)
  datatype Receipt = Receipt(subjectType: string, subject: Id)

  /** The tables of provisioning, written by administrators only. */
  datatype Directory = Directory(identities: map<Id, Identity>, organizations: map<Id, Organization>,
                                 users: map<Id, User>, memberships: map<(Id, Id), Membership>)

  /** The tables of the analysis pipeline, which the tenant repository only reads. */
  datatype Analysis = Analysis(runs: map<Id, RunRow>, observations: map<Id, Observation>, findings: map<Id, Finding>,
                               sources: map<Id, SourceRecord>, reviews: map<Id, Review>, receipts: map<int, Receipt>)

  /** The tables that the tenant repository writes. */
  datatype Resources = Resources(entities: map<Id, Entity>, assessments: map<Id, Assessment>,
                                 submissions: map<Id, Submission>, versions: map<Id, Version>,
                                 artifacts: map<Id, Artifact>)

  datatype State = State(directory: Directory, analysis: Analysis, resources: Resources)

  datatype Context = Context(organization: Id, user: Id, aggregatePeers: bool)

  datatype Result =
    | Denied | Invalid | Duplicate | StorageFailed | Done
    | Created(id: Id)
    | EntityRow(entity: Option<Entity>)
    | EntityRows(entities: map<Id, Entity>)
    | PeerIds(peers: set<Id>)
    | AssessmentRow(assessment: Option<Assessment>)
    | SubmissionRow(submission: Option<Submission>)
    | VersionRow(version: Option<Version>)
    | ArtifactRow(artifact: Option<Artifact>)
    | RunFound(run: Option<RunRow>)
    | FindingFound(finding: Option<Finding>)
    | SourceFound(source: Option<SourceRecord>)
    | ReviewFound(review: Option<Review>)
    | ReceiptFound(receipt: Option<Receipt>)

  // ---- Text ----

  /** The characters that `str.strip` removes. */
  predicate Blank(c: char) {
    var u := c as int;
    0x09 <= u <= 0x0D || 0x1C <= u <= 0x20 || u == 0x85 || u == 0xA0 || u == 0x1680 || 0x2000 <= u <= 0x200A
    || u == 0x2028 || u == 0x2029 || u == 0x202F || u == 0x205F || u == 0x3000
  }

  function StripLeft(s: string): string {
    if s != "" && Blank(s[0]) then StripLeft(s[1..]) else s
  }

  function StripRight(s: string): string {
    if s != "" && Blank(s[|s| - 1]) then StripRight(s[..|s| - 1]) else s
  }

  function Strip(s: string): string {
    StripRight(StripLeft(s))
  }

  /** `str.lower` on ASCII text. */
  function Lower(s: string): string {
    seq(|s|, i requires 0 <= i < |s| => if 'A' <= s[i] <= 'Z' then (s[i] as int + 32) as char else s[i])
  }

  // ---- Permissions ----

  const SATSA_ROLES := {"satsa_viewer", "satsa_analyst", "satsa_supervisor", "satsa_auditor", "satsa_admin"}

  predicate Grants(role: string, permission: Permission) {
    if role in {"satsa_admin", "satsa_analyst", "satsa_supervisor"} then true
    else role in {"satsa_viewer", "satsa_auditor"} && permission != AnalysisRun
  }

  /** The join behind `_require`: membership, organization, user and identity exist and are active. */
  predicate ActiveMember(d: Directory, organization: Id, user: Id) {
    && (organization, user) in d.memberships && d.memberships[(organization, user)].status == "active"
    && organization in d.organizations && d.organizations[organization].status == "active"
    && user in d.users && d.users[user].status == "active"
    && d.users[user].identity in d.identities && d.identities[d.users[user].identity].status == "active"
  }

  predicate Allowed(d: Directory, c: Context, permission: Permission) {
    && c.organization != "" && c.user != ""
    && ActiveMember(d, c.organization, c.user)
    && Grants(d.memberships[(c.organization, c.user)].role, permission)
  }

  // ---- Ownership ----

  predicate OwnsEntity(r: Resources, organization: Id, id: Id) {
    id in r.entities && r.entities[id].organization == organization
  }

  predicate OwnsAssessment(r: Resources, organization: Id, id: Id) {
    id in r.assessments && r.assessments[id].organization == organization
  }

  predicate OwnsSubmission(r: Resources, organization: Id, id: Id) {
    id in r.submissions && r.submissions[id].organization == organization
  }

  predicate OwnsVersion(r: Resources, organization: Id, id: Id) {
    id in r.versions && r.versions[id].organization == organization
  }

  predicate OwnsArtifact(r: Resources, organization: Id, id: Id) {
    id in r.artifacts && r.artifacts[id].organization == organization
  }

  predicate OwnsRun(a: Analysis, organization: Id, id: Id) {
    id in a.runs && a.runs[id].organization == organization
  }

  predicate OwnsFinding(a: Analysis, organization: Id, id: Id) {
    && id in a.findings && a.findings[id].observation in a.observations
    && OwnsRun(a, organization, a.observations[a.findings[id].observation].run)
  }

  // ---- The operations ----

  datatype Operation =
    | CreateEntity(newId: Id, displayName: string, sector: string, environmentClass: string)
    | GetEntity(id: Id)
    | ListEntities
    | PeerEntityIds(id: Id)
    | CreateAssessment(newId: Id, entity: Id, periodStart: real, periodEnd: real)
    | GetAssessment(id: Id)
    | CloseAssessment(id: Id)
    | CreateSubmission(newId: Id, assessment: Id)
    | GetSubmission(id: Id)
    | CreateSubmissionVersion(newId: Id, submission: Id, number: int)
    | GetSubmissionVersion(id: Id)
    | CreateArtifact(newId: Id, version: Id, storageKey: string, contentType: string, sizeBytes: int, digest: string)
    | GetArtifact(id: Id)
    | GetRun(id: Id)
    | GetFinding(id: Id)
    | GetSourceRecord(id: Id)
    | GetReview(id: Id)
    | GetTrustReceipt(receiptId: int)
  {
    /** The permission the operation asks for first. */
    function Needs(): Permission {
      match this
      case CreateEntity(_, _, _, _) => AnalysisRun
      case CreateAssessment(_, _, _, _) => AnalysisRun
      case CloseAssessment(_) => AnalysisRun
      case CreateSubmission(_, _) => AnalysisRun
      case CreateSubmissionVersion(_, _, _) => AnalysisRun
      case CreateArtifact(_, _, _, _, _, _) => AnalysisRun
      case GetArtifact(_) => EvidenceView
      case GetSourceRecord(_) => EvidenceView
      case GetReview(_) => ReviewRead
      case GetTrustReceipt(_) => TrustVerify
      case _ => FindingView
    }
  }

  function EntityDigest(id: Id, e: Entity): Document {
    EntityDocument(id, e.displayName, e.sector, e.environmentClass)
  }

  function AssessmentDigest(id: Id, a: Assessment): Document {
    AssessmentDocument(id, a.entity, a.periodStart, a.periodEnd, a.status)
  }

  function PutEntity(r: Resources, organization: Id, op: Operation, now: real): (Resources, Result)
    requires op.CreateEntity?
  {
    var name := Strip(op.displayName);
    if name == "" then (r, Invalid)
    else if op.newId in r.entities then (r, Duplicate)
    else
      var row := Entity(organization, name, op.sector, op.environmentClass,
                        EntityDocument(op.newId, name, op.sector, op.environmentClass), now);
      (r.(entities := r.entities[op.newId := row]), Created(op.newId))
  }

  function PutAssessment(r: Resources, organization: Id, op: Operation, now: real): (Resources, Result)
    requires op.CreateAssessment?
  {
    if !OwnsEntity(r, organization, op.entity) then (r, Denied)
    else if op.entity == "" || op.periodEnd <= op.periodStart then (r, Invalid)
    else if op.newId in r.assessments then (r, Duplicate)
    else
      var row := Assessment(organization, op.entity, op.periodStart, op.periodEnd, "open",
                            AssessmentDocument(op.newId, op.entity, op.periodStart, op.periodEnd, "open"), now);
      (r.(assessments := r.assessments[op.newId := row]), Created(op.newId))
  }

  function Close(r: Resources, organization: Id, id: Id): (Resources, Result) {
    if !OwnsAssessment(r, organization, id) then (r, Denied)
    else
      var closed := r.assessments[id].(status := "closed");
      (r.(assessments := r.assessments[id := closed.(digest := AssessmentDigest(id, closed))]), Done)
  }

  function PutSubmission(r: Resources, organization: Id, op: Operation, now: real): (Resources, Result)
    requires op.CreateSubmission?
  {
    if !OwnsAssessment(r, organization, op.assessment) then (r, Denied)
    else if op.newId in r.submissions then (r, Duplicate)
    else
      var row := Submission(organization, op.assessment, r.assessments[op.assessment].entity, "created", now);
      (r.(submissions := r.submissions[op.newId := row]), Created(op.newId))
  }

  predicate VersionTaken(r: Resources, submission: Id, number: int) {
    exists v :: v in r.versions && r.versions[v].submission == submission && r.versions[v].number == number
  }

  function PutVersion(r: Resources, organization: Id, op: Operation, now: real): (Resources, Result)
    requires op.CreateSubmissionVersion?
  {
    if !OwnsSubmission(r, organization, op.submission) then (r, Denied)
    else if op.number < 1 then (r, Invalid)
    else if op.newId in r.versions || VersionTaken(r, op.submission, op.number) then (r, Duplicate)
    else
      (r.(versions := r.versions[op.newId := Version(organization, op.submission, op.number, now)]), Created(op.newId))
  }

  predicate HexDigest(s: string) {
    |s| == 64 && forall i :: 0 <= i < |s| ==> '0' <= s[i] <= '9' || 'a' <= s[i] <= 'f'
  }

  predicate KeyTaken(r: Resources, organization: Id, storageKey: string) {
    exists a :: a in r.artifacts && r.artifacts[a].organization == organization
                && r.artifacts[a].storageKey == storageKey
  }

  function PutArtifact(r: Resources, organization: Id, op: Operation, now: real): (Resources, Result)
    requires op.CreateArtifact?
  {
    if !OwnsVersion(r, organization, op.version) then (r, Denied)
    else if op.storageKey == "" || op.contentType == "" || op.sizeBytes < 0 || !HexDigest(op.digest) then (r, Invalid)
    else if op.newId in r.artifacts || KeyTaken(r, organization, op.storageKey) then (r, Duplicate)
    else
      var row := Artifact(organization, op.version, op.storageKey, op.contentType, op.sizeBytes, op.digest, now);
      (r.(artifacts := r.artifacts[op.newId := row]), Created(op.newId))
  }

  function Peers(r: Resources, organization: Id, id: Id): Result {
    if !OwnsEntity(r, organization, id) then Denied
    else
      PeerIds(set p | p in r.entities && r.entities[p].organization == organization && p != id
                      && r.entities[p].sector == r.entities[id].sector
                      && r.entities[p].environmentClass == r.entities[id].environmentClass)
  }

  /** The two chains by which a receipt belongs to an organization: its run, or the run of its finding. */
  predicate OwnsReceipt(a: Analysis, organization: Id, id: int) {
    && id in a.receipts
    && ((a.receipts[id].subjectType == "run" && OwnsRun(a, organization, a.receipts[id].subject))
        || (a.receipts[id].subjectType == "finding" && OwnsFinding(a, organization, a.receipts[id].subject)))
  }

  /** What the reading operations answer. */
  function Read(a: Analysis, r: Resources, c: Context, op: Operation): Result {
    var o := c.organization;
    match op
    case GetEntity(id) => EntityRow(if OwnsEntity(r, o, id) then Some(r.entities[id]) else None)
    case ListEntities => EntityRows(map id | id in r.entities && r.entities[id].organization == o :: r.entities[id])
    case PeerEntityIds(id) => if c.aggregatePeers then Denied else Peers(r, o, id)
    case GetAssessment(id) => AssessmentRow(if OwnsAssessment(r, o, id) then Some(r.assessments[id]) else None)
    case GetSubmission(id) => SubmissionRow(if OwnsSubmission(r, o, id) then Some(r.submissions[id]) else None)
    case GetSubmissionVersion(id) => VersionRow(if OwnsVersion(r, o, id) then Some(r.versions[id]) else None)
    case GetArtifact(id) => ArtifactRow(if OwnsArtifact(r, o, id) then Some(r.artifacts[id]) else None)
    case GetRun(id) => RunFound(if OwnsRun(a, o, id) then Some(a.runs[id]) else None)
    case GetFinding(id) => FindingFound(if OwnsFinding(a, o, id) then Some(a.findings[id]) else None)
    case GetSourceRecord(id) =>
      SourceFound(if id in a.sources && OwnsSubmission(r, o, a.sources[id].submission)
                  then Some(a.sources[id]) else None)
    case GetReview(id) =>
      ReviewFound(if id in a.reviews && OwnsFinding(a, o, a.reviews[id].finding) then Some(a.reviews[id]) else None)
    case GetTrustReceipt(id) => ReceiptFound(if OwnsReceipt(a, o, id) then Some(a.receipts[id]) else None)
    case _ => Denied
  }

  /** What an operation does to the tables it may write, once the permission is granted. */
  function Write(r: Resources, organization: Id, op: Operation, now: real): Option<(Resources, Result)> {
    match op
    case CreateEntity(_, _, _, _) => Some(PutEntity(r, organization, op, now))
    case CreateAssessment(_, _, _, _) => Some(PutAssessment(r, organization, op, now))
    case CloseAssessment(id) => Some(Close(r, organization, id))
    case CreateSubmission(_, _) => Some(PutSubmission(r, organization, op, now))
    case CreateSubmissionVersion(_, _, _) => Some(PutVersion(r, organization, op, now))
    case CreateArtifact(_, _, _, _, _, _) => Some(PutArtifact(r, organization, op, now))
    case _ => None
  }

  /** One operation of one member: the permission check first, then the write or the read. */
  function Apply(s: State, c: Context, op: Operation, now: real): (State, Result) {
    if !Allowed(s.directory, c, op.Needs()) then (s, Denied)
    else
      match Write(s.resources, c.organization, op, now)
      case Some(p) => (s.(resources := p.0), p.1)
      case None => (s, Read(s.analysis, s.resources, c, op))
  }

  // ---- Administration ----

  datatype AdminOperation =
    | CreateOrganization(newId: Id, name: string)
    | CreateUser(newId: Id, identity: Id, email: string)
    | AddMembership(organization: Id, user: Id, role: string)
    | SetMembershipStatus(organization: Id, user: Id, status: string)

  function Administer(d: Directory, op: AdminOperation, now: real): (Directory, Result) {
    match op
    case CreateOrganization(id, rawName) =>
      var name := Strip(rawName);
      if name == "" then (d, Invalid)
      else if id in d.organizations || exists o :: o in d.organizations && d.organizations[o].name == name
      then (d, Duplicate)
      else (d.(organizations := d.organizations[id := Organization(name, "active", now)]), Created(id))
    case CreateUser(id, identity, rawEmail) =>
      var email := Lower(Strip(rawEmail));
      if identity !in d.identities || d.identities[identity].kind != "human"
         || d.identities[identity].status != "active"
      then (d, Invalid)
      else if email == "" || '@' !in email then (d, Invalid)
      else if id in d.users
              || exists u :: u in d.users && (d.users[u].identity == identity || d.users[u].email == email)
      then (d, Duplicate)
      else (d.(users := d.users[id := User(identity, email, "active", now)]), Created(id))
    case AddMembership(organization, user, role) =>
      if role !in SATSA_ROLES then (d, Invalid)
      else if (organization, user) in d.memberships then (d, Duplicate)
      else if organization !in d.organizations || user !in d.users then (d, StorageFailed)
      else (d.(memberships := d.memberships[(organization, user) := Membership(role, "active", now)]), Done)
    case SetMembershipStatus(organization, user, status) =>
      if status != "active" && status != "revoked" then (d, Invalid)
      else if (organization, user) !in d.memberships then (d, Done)
      else
        var m := d.memberships[(organization, user)];
        (d.(memberships := d.memberships[(organization, user) := m.(status := status)]), Done)
  }
}
