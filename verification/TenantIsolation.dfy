/** What every run of the tenant repository keeps: isolation, ownership, access control and digests. */
module TenantIsolation {
  import opened Counting
  import opened TenantModel

  datatype Step =
    | Tenant(context: Context, operation: Operation, now: real)
    | Admin(request: AdminOperation, now: real)

  function Take(s: State, step: Step): (State, Result) {
    match step
    case Tenant(c, op, now) => Apply(s, c, op, now)
    case Admin(op, now) =>
      var (d, r) := Administer(s.directory, op, now);
      (s.(directory := d), r)
  }

  function After(s: State, steps: seq<Step>): State
    decreases steps
  {
    if steps == [] then s else After(Take(s, steps[0]).0, steps[1..])
  }

  function Results(s: State, steps: seq<Step>): (r: seq<Result>)
    ensures |r| == |steps|
    decreases steps
  {
    if steps == [] then [] else [Take(s, steps[0]).1] + Results(Take(s, steps[0]).0, steps[1..])
  }

  // ---- Non-interference ----

  predicate By(step: Step, organization: Id) {
    step.Tenant? && step.context.organization == organization
  }

  /** The run without the steps of one organization. */
  function Without(steps: seq<Step>, organization: Id): seq<Step> {
    if steps == [] then []
    else (if By(steps[0], organization) then [] else [steps[0]]) + Without(steps[1..], organization)
  }

  /** The results of the steps that are not of that organization. */
  function ResultsWithout(steps: seq<Step>, results: seq<Result>, organization: Id): seq<Result>
    requires |steps| == |results|
  {
    if steps == [] then []
    else
      (if By(steps[0], organization) then [] else [results[0]])
      + ResultsWithout(steps[1..], results[1..], organization)
  }

  /** The rows that other organizations than `hidden` own are the same; `t` has no ids that `s` lacks. */
  ghost predicate SameRows<T>(s: map<Id, T>, t: map<Id, T>, owner: T -> Id, hidden: Id) {
    && t.Keys <= s.Keys
    && (forall id :: id in s && owner(s[id]) != hidden ==> id in t && t[id] == s[id])
    && (forall id :: id in t && owner(t[id]) != hidden ==> id in s && s[id] == t[id])
  }

  lemma {:induction false} SamePut<T>(s: map<Id, T>, t: map<Id, T>, owner: T -> Id, hidden: Id, id: Id, row: T)
    requires SameRows(s, t, owner, hidden)
    ensures SameRows(s[id := row], t[id := row], owner, hidden)
  {
  }

  lemma {:induction false} HiddenPut<T>(s: map<Id, T>, t: map<Id, T>, owner: T -> Id, hidden: Id, id: Id, row: T)
    requires SameRows(s, t, owner, hidden) && owner(row) == hidden && (id in s ==> owner(s[id]) == hidden)
    ensures SameRows(s[id := row], t, owner, hidden)
  {
  }

  function EntityOwner(): Entity -> Id { (e: Entity) => e.organization }
  function AssessmentOwner(): Assessment -> Id { (a: Assessment) => a.organization }
  function SubmissionOwner(): Submission -> Id { (s: Submission) => s.organization }
  function VersionOwner(): Version -> Id { (v: Version) => v.organization }
  function ArtifactOwner(): Artifact -> Id { (a: Artifact) => a.organization }

  ghost predicate SameExcept(r: Resources, q: Resources, hidden: Id) {
    && SameRows(r.entities, q.entities, EntityOwner(), hidden)
    && SameRows(r.assessments, q.assessments, AssessmentOwner(), hidden)
    && SameRows(r.submissions, q.submissions, SubmissionOwner(), hidden)
    && SameRows(r.versions, q.versions, VersionOwner(), hidden)
    && SameRows(r.artifacts, q.artifacts, ArtifactOwner(), hidden)
  }

  // ---- The ownership chain ----

  ghost predicate AssessmentsChained(entities: map<Id, Entity>, assessments: map<Id, Assessment>) {
    forall id :: id in assessments ==>
      assessments[id].entity in entities
      && entities[assessments[id].entity].organization == assessments[id].organization
  }

  ghost predicate SubmissionsChained(assessments: map<Id, Assessment>, submissions: map<Id, Submission>) {
    forall id :: id in submissions ==>
      var s := submissions[id];
      s.assessment in assessments && assessments[s.assessment].organization == s.organization
      && assessments[s.assessment].entity == s.entity
  }

  ghost predicate VersionsChained(submissions: map<Id, Submission>, versions: map<Id, Version>) {
    forall id :: id in versions ==>
      versions[id].submission in submissions
      && submissions[versions[id].submission].organization == versions[id].organization
  }

  ghost predicate ArtifactsChained(versions: map<Id, Version>, artifacts: map<Id, Artifact>) {
    forall id :: id in artifacts ==>
      artifacts[id].version in versions && versions[artifacts[id].version].organization == artifacts[id].organization
  }

  /**
   * Every row belongs to the organization of the row it hangs from, and a submission to the entity of its assessment.
   */
  ghost predicate Chained(r: Resources) {
    && AssessmentsChained(r.entities, r.assessments)
    && SubmissionsChained(r.assessments, r.submissions)
    && VersionsChained(r.submissions, r.versions)
    && ArtifactsChained(r.versions, r.artifacts)
  }

  /** Entities have a name and the digest of their current content. */
  ghost predicate EntitiesSound(entities: map<Id, Entity>) {
    forall id :: id in entities ==>
        entities[id].displayName != "" && entities[id].digest == EntityDigest(id, entities[id])
  }

  /** Assessments have a period and the digest of their current content. */
  ghost predicate AssessmentsSound(assessments: map<Id, Assessment>) {
    forall id :: id in assessments ==>
      assessments[id].periodStart < assessments[id].periodEnd
      && assessments[id].digest == AssessmentDigest(id, assessments[id])
  }

  /** Version numbers are positive, and no submission has two versions of one number. */
  ghost predicate VersionsSound(versions: map<Id, Version>) {
    && (forall id :: id in versions ==> versions[id].number >= 1)
    && (forall u, v :: u in versions && v in versions && u != v ==>
          !(versions[u].submission == versions[v].submission && versions[u].number == versions[v].number))
  }

  /** Artifact metadata is complete, and no organization has two artifacts under one storage key. */
  ghost predicate ArtifactsSound(artifacts: map<Id, Artifact>) {
    && (forall id :: id in artifacts ==> artifacts[id].sizeBytes >= 0 && HexDigest(artifacts[id].digest))
    && (forall a, b :: a in artifacts && b in artifacts && a != b ==>
          !(artifacts[a].organization == artifacts[b].organization
            && artifacts[a].storageKey == artifacts[b].storageKey))
  }

  /** What the columns of the rows promise by themselves. */
  ghost predicate RowsSound(r: Resources) {
    && EntitiesSound(r.entities) && AssessmentsSound(r.assessments)
    && VersionsSound(r.versions) && ArtifactsSound(r.artifacts)
  }

  ghost predicate Sound(r: Resources) {
    Chained(r) && RowsSound(r)
  }

  /** A new or closed assessment: its links and those of its submissions hold as before. */
  lemma {:induction false} SetAssessment(r: Resources, id: Id, row: Assessment)
    requires Chained(r) && row.entity in r.entities && r.entities[row.entity].organization == row.organization
    requires id in r.assessments ==>
               row.organization == r.assessments[id].organization && row.entity == r.assessments[id].entity
    ensures Chained(r.(assessments := r.assessments[id := row]))
  {
    assert AssessmentsChained(r.entities, r.assessments[id := row]);
    assert SubmissionsChained(r.assessments[id := row], r.submissions);
  }

  lemma {:induction false} AddSubmission(r: Resources, id: Id, row: Submission)
    requires Chained(r) && id !in r.submissions && row.assessment in r.assessments
    requires r.assessments[row.assessment].organization == row.organization
    requires r.assessments[row.assessment].entity == row.entity
    ensures Chained(r.(submissions := r.submissions[id := row]))
  {
    assert SubmissionsChained(r.assessments, r.submissions[id := row]);
    assert VersionsChained(r.submissions[id := row], r.versions);
  }

  lemma {:induction false} AddVersion(r: Resources, id: Id, row: Version)
    requires Chained(r) && id !in r.versions && row.submission in r.submissions
    requires r.submissions[row.submission].organization == row.organization
    ensures Chained(r.(versions := r.versions[id := row]))
  {
    assert VersionsChained(r.submissions, r.versions[id := row]);
    assert ArtifactsChained(r.versions[id := row], r.artifacts);
  }

  lemma {:induction false} ChainedEntity(r: Resources, o: Id, op: Operation, now: real)
    requires Chained(r) && op.CreateEntity?
    ensures Chained(PutEntity(r, o, op, now).0)
  {
    assert AssessmentsChained(PutEntity(r, o, op, now).0.entities, r.assessments);
  }

  lemma {:induction false} ChainedAssessment(r: Resources, o: Id, op: Operation, now: real)
    requires Chained(r) && op.CreateAssessment?
    ensures Chained(PutAssessment(r, o, op, now).0)
  {
    if PutAssessment(r, o, op, now).1.Created? {
      SetAssessment(r, op.newId, PutAssessment(r, o, op, now).0.assessments[op.newId]);
    }
  }

  lemma {:induction false} ChainedClose(r: Resources, o: Id, id: Id)
    requires Chained(r)
    ensures Chained(Close(r, o, id).0)
  {
    if OwnsAssessment(r, o, id) {
      SetAssessment(r, id, Close(r, o, id).0.assessments[id]);
    }
  }

  lemma {:induction false} ChainedSubmission(r: Resources, o: Id, op: Operation, now: real)
    requires Chained(r) && op.CreateSubmission?
    ensures Chained(PutSubmission(r, o, op, now).0)
  {
    if PutSubmission(r, o, op, now).1.Created? {
      AddSubmission(r, op.newId, PutSubmission(r, o, op, now).0.submissions[op.newId]);
    }
  }

  lemma {:induction false} ChainedVersion(r: Resources, o: Id, op: Operation, now: real)
    requires Chained(r) && op.CreateSubmissionVersion?
    ensures Chained(PutVersion(r, o, op, now).0)
  {
    if PutVersion(r, o, op, now).1.Created? {
      AddVersion(r, op.newId, Version(o, op.submission, op.number, now));
    }
  }

  lemma {:induction false} ChainedArtifact(r: Resources, o: Id, op: Operation, now: real)
    requires Chained(r) && op.CreateArtifact?
    ensures Chained(PutArtifact(r, o, op, now).0)
  {
    assert ArtifactsChained(r.versions, PutArtifact(r, o, op, now).0.artifacts);
  }

  lemma {:induction false} WriteKeepsChained(r: Resources, o: Id, op: Operation, now: real)
    requires Chained(r) && Write(r, o, op, now).Some?
    ensures Chained(Write(r, o, op, now).value.0)
  {
    match op
    case CreateEntity(_, _, _, _) => ChainedEntity(r, o, op, now);
    case CreateAssessment(_, _, _, _) => ChainedAssessment(r, o, op, now);
    case CloseAssessment(id) => ChainedClose(r, o, id);
    case CreateSubmission(_, _) => ChainedSubmission(r, o, op, now);
    case CreateSubmissionVersion(_, _, _) => ChainedVersion(r, o, op, now);
    case CreateArtifact(_, _, _, _, _, _) => ChainedArtifact(r, o, op, now);
  }

  /** Every step of every member and administrator keeps the ownership chain. */
  lemma {:induction false} StepKeepsChained(s: State, step: Step)
    requires Chained(s.resources)
    ensures Chained(Take(s, step).0.resources)
  {
    if step.Tenant? && Write(s.resources, step.context.organization, step.operation, step.now).Some? {
      WriteKeepsChained(s.resources, step.context.organization, step.operation, step.now);
    }
  }

  lemma {:induction false} VersionAdded(r: Resources, id: Id, row: Version)
    requires VersionsSound(r.versions) && id !in r.versions && row.number >= 1
    requires !VersionTaken(r, row.submission, row.number)
    ensures VersionsSound(r.versions[id := row])
  {
  }

  lemma {:induction false} ArtifactAdded(r: Resources, id: Id, row: Artifact)
    requires ArtifactsSound(r.artifacts) && id !in r.artifacts && row.sizeBytes >= 0 && HexDigest(row.digest)
    requires !KeyTaken(r, row.organization, row.storageKey)
    ensures ArtifactsSound(r.artifacts[id := row])
  {
  }

  lemma {:induction false} SoundEntity(r: Resources, o: Id, op: Operation, now: real)
    requires RowsSound(r) && op.CreateEntity?
    ensures RowsSound(PutEntity(r, o, op, now).0)
  {
    assert EntitiesSound(PutEntity(r, o, op, now).0.entities);
  }

  lemma {:induction false} SoundAssessment(r: Resources, o: Id, op: Operation, now: real)
    requires RowsSound(r) && op.CreateAssessment?
    ensures RowsSound(PutAssessment(r, o, op, now).0)
  {
    assert AssessmentsSound(PutAssessment(r, o, op, now).0.assessments);
  }

  lemma {:induction false} SoundClose(r: Resources, o: Id, id: Id)
    requires RowsSound(r)
    ensures RowsSound(Close(r, o, id).0)
  {
    assert AssessmentsSound(Close(r, o, id).0.assessments);
  }

  lemma {:induction false} SoundVersion(r: Resources, o: Id, op: Operation, now: real)
    requires RowsSound(r) && op.CreateSubmissionVersion?
    ensures RowsSound(PutVersion(r, o, op, now).0)
  {
    if PutVersion(r, o, op, now).1.Created? {
      VersionAdded(r, op.newId, Version(o, op.submission, op.number, now));
    }
  }

  lemma {:induction false} SoundArtifact(r: Resources, o: Id, op: Operation, now: real)
    requires RowsSound(r) && op.CreateArtifact?
    ensures RowsSound(PutArtifact(r, o, op, now).0)
  {
    if PutArtifact(r, o, op, now).1.Created? {
      ArtifactAdded(r, op.newId, Artifact(o, op.version, op.storageKey, op.contentType, op.sizeBytes, op.digest, now));
    }
  }

  lemma {:induction false} WriteKeepsRowsSound(r: Resources, o: Id, op: Operation, now: real)
    requires RowsSound(r) && Write(r, o, op, now).Some?
    ensures RowsSound(Write(r, o, op, now).value.0)
  {
    match op
    case CreateEntity(_, _, _, _) => SoundEntity(r, o, op, now);
    case CreateAssessment(_, _, _, _) => SoundAssessment(r, o, op, now);
    case CloseAssessment(id) => SoundClose(r, o, id);
    case CreateSubmission(_, _) =>
    case CreateSubmissionVersion(_, _, _) => SoundVersion(r, o, op, now);
    case CreateArtifact(_, _, _, _, _, _) => SoundArtifact(r, o, op, now);
  }

  function NewId(op: Operation): Id {
    match op
    case CreateEntity(id, _, _, _) => id
    case CreateAssessment(id, _, _, _) => id
    case CreateSubmission(id, _) => id
    case CreateSubmissionVersion(id, _, _) => id
    case CreateArtifact(id, _, _, _, _, _) => id
    case _ => ""
  }

  /** A write that does not succeed changes nothing. */
  lemma {:induction false} FailedWriteChangesNothing(r: Resources, o: Id, op: Operation, now: real)
    requires Write(r, o, op, now).Some? && Write(r, o, op, now).value.1 !in {Done, Created(NewId(op))}
    ensures Write(r, o, op, now).value.0 == r && Write(r, o, op, now).value.1 in {Denied, Invalid, Duplicate}
  {
  }

  /** Every step of every member and administrator keeps the ownership chain, the digests and the constraints. */
  lemma {:induction false} StepKeepsSound(s: State, step: Step)
    requires Sound(s.resources)
    ensures Sound(Take(s, step).0.resources)
  {
    StepKeepsChained(s, step);
    if step.Tenant? && Write(s.resources, step.context.organization, step.operation, step.now).Some? {
      WriteKeepsRowsSound(s.resources, step.context.organization, step.operation, step.now);
    }
  }

  /** So every reachable state is sound, however the operations of all organizations interleave. */
  lemma {:induction false} RunKeepsSound(s: State, steps: seq<Step>)
    requires Sound(s.resources)
    ensures Sound(After(s, steps).resources)
    decreases steps
  {
    if steps != [] {
      StepKeepsSound(s, steps[0]);
      RunKeepsSound(Take(s, steps[0]).0, steps[1..]);
    }
  }

  // ---- Hiding one organization ----

  /** The new id of a creation is already taken by a row of the hidden organization. */
  predicate Collides(r: Resources, op: Operation, hidden: Id) {
    match op
    case CreateEntity(id, _, _, _) => OwnsEntity(r, hidden, id)
    case CreateAssessment(id, _, _, _) => OwnsAssessment(r, hidden, id)
    case CreateSubmission(id, _) => OwnsSubmission(r, hidden, id)
    case CreateSubmissionVersion(id, _, _) => OwnsVersion(r, hidden, id)
    case CreateArtifact(id, _, _, _, _, _) => OwnsArtifact(r, hidden, id)
    case _ => false
  }

  /** A write of the hidden organization shows in none of the other rows. */
  lemma {:induction false} HiddenWrite(r: Resources, q: Resources, hidden: Id, op: Operation, now: real)
    requires SameExcept(r, q, hidden) && Write(r, hidden, op, now).Some?
    ensures SameExcept(Write(r, hidden, op, now).value.0, q, hidden)
  {
    if Write(r, hidden, op, now).value.1 in {Done, Created(NewId(op))} {
      var w := Write(r, hidden, op, now).value.0;
      match op
      case CreateEntity(id, _, _, _) =>
        HiddenPut(r.entities, q.entities, EntityOwner(), hidden, id, w.entities[id]);
      case CreateAssessment(id, _, _, _) =>
        HiddenPut(r.assessments, q.assessments, AssessmentOwner(), hidden, id, w.assessments[id]);
      case CloseAssessment(id) =>
        HiddenPut(r.assessments, q.assessments, AssessmentOwner(), hidden, id, w.assessments[id]);
      case CreateSubmission(id, _) =>
        HiddenPut(r.submissions, q.submissions, SubmissionOwner(), hidden, id, w.submissions[id]);
      case CreateSubmissionVersion(id, _, _) =>
        HiddenPut(r.versions, q.versions, VersionOwner(), hidden, id, w.versions[id]);
      case CreateArtifact(id, _, _, _, _, _) =>
        HiddenPut(r.artifacts, q.artifacts, ArtifactOwner(), hidden, id, w.artifacts[id]);
    } else {
      FailedWriteChangesNothing(r, hidden, op, now);
    }
  }

  /** Another organization owns the same rows on both sides. */
  lemma {:induction false} SameOwned<T>(s: map<Id, T>, t: map<Id, T>, owner: T -> Id, hidden: Id, o: Id, id: Id)
    requires SameRows(s, t, owner, hidden) && o != hidden
    ensures (id in s && owner(s[id]) == o) == (id in t && owner(t[id]) == o)
    ensures id in s && owner(s[id]) == o ==> s[id] == t[id]
  {
  }

  /** An id that no hidden row uses is taken on both sides or on neither. */
  lemma {:induction false} SameTaken<T>(s: map<Id, T>, t: map<Id, T>, owner: T -> Id, hidden: Id, id: Id)
    requires SameRows(s, t, owner, hidden) && !(id in s && owner(s[id]) == hidden)
    ensures id in s <==> id in t
  {
  }

  /** The ownership chain makes version numbers of a visible submission visible. */
  lemma {:induction false} SameVersions(r: Resources, q: Resources, hidden: Id, o: Id, submission: Id, number: int)
    requires SameRows(r.submissions, q.submissions, SubmissionOwner(), hidden)
    requires SameRows(r.versions, q.versions, VersionOwner(), hidden)
    requires VersionsChained(r.submissions, r.versions) && VersionsChained(q.submissions, q.versions)
    requires o != hidden && OwnsSubmission(r, o, submission)
    ensures VersionTaken(r, submission, number) == VersionTaken(q, submission, number)
  {
    SameOwned(r.submissions, q.submissions, SubmissionOwner(), hidden, o, submission);
    if VersionTaken(r, submission, number) {
      var v :| v in r.versions && r.versions[v].submission == submission && r.versions[v].number == number;
      SameOwned(r.versions, q.versions, VersionOwner(), hidden, o, v);
    }
    if VersionTaken(q, submission, number) {
      var v :| v in q.versions && q.versions[v].submission == submission && q.versions[v].number == number;
      SameOwned(r.versions, q.versions, VersionOwner(), hidden, o, v);
    }
  }

  lemma {:induction false} SameKeys(r: Resources, q: Resources, hidden: Id, o: Id, key: string)
    requires SameExcept(r, q, hidden) && o != hidden
    ensures KeyTaken(r, o, key) == KeyTaken(q, o, key)
  {
    if KeyTaken(r, o, key) {
      var a :| a in r.artifacts && r.artifacts[a].organization == o && r.artifacts[a].storageKey == key;
      SameOwned(r.artifacts, q.artifacts, ArtifactOwner(), hidden, o, a);
    }
    if KeyTaken(q, o, key) {
      var a :| a in q.artifacts && q.artifacts[a].organization == o && q.artifacts[a].storageKey == key;
      SameOwned(r.artifacts, q.artifacts, ArtifactOwner(), hidden, o, a);
    }
  }

  /** Two outcomes with one result and the same visible rows. */
  ghost predicate Alike(x: (Resources, Result), y: (Resources, Result), hidden: Id) {
    x.1 == y.1 && SameExcept(x.0, y.0, hidden)
  }

  lemma {:induction false} AlikeEntity(r: Resources, q: Resources, hidden: Id, o: Id, op: Operation, now: real)
    requires SameExcept(r, q, hidden) && o != hidden && op.CreateEntity? && !Collides(r, op, hidden)
    ensures Alike(PutEntity(r, o, op, now), PutEntity(q, o, op, now), hidden)
  {
    SameTaken(r.entities, q.entities, EntityOwner(), hidden, op.newId);
    if PutEntity(r, o, op, now).1.Created? {
      SamePut(r.entities, q.entities, EntityOwner(), hidden, op.newId, PutEntity(r, o, op, now).0.entities[op.newId]);
    }
  }

  lemma {:induction false} SameAssessmentResult(r: Resources, q: Resources, hidden: Id, o: Id, op: Operation, now: real)
    requires SameRows(r.entities, q.entities, EntityOwner(), hidden)
    requires SameRows(r.assessments, q.assessments, AssessmentOwner(), hidden)
    requires o != hidden && op.CreateAssessment? && !Collides(r, op, hidden)
    ensures PutAssessment(r, o, op, now).1 == PutAssessment(q, o, op, now).1
  {
    SameOwned(r.entities, q.entities, EntityOwner(), hidden, o, op.entity);
    SameTaken(r.assessments, q.assessments, AssessmentOwner(), hidden, op.newId);
  }

  lemma {:induction false} AlikeAssessment(r: Resources, q: Resources, hidden: Id, o: Id, op: Operation, now: real)
    requires SameExcept(r, q, hidden) && o != hidden && op.CreateAssessment? && !Collides(r, op, hidden)
    ensures Alike(PutAssessment(r, o, op, now), PutAssessment(q, o, op, now), hidden)
  {
    SameAssessmentResult(r, q, hidden, o, op, now);
    if PutAssessment(r, o, op, now).1.Created? {
      SamePut(r.assessments, q.assessments, AssessmentOwner(), hidden, op.newId,
              Assessment(o, op.entity, op.periodStart, op.periodEnd, "open",
                         AssessmentDocument(op.newId, op.entity, op.periodStart, op.periodEnd, "open"), now));
    }
  }

  lemma {:induction false} AlikeClose(r: Resources, q: Resources, hidden: Id, o: Id, id: Id)
    requires SameExcept(r, q, hidden) && o != hidden
    ensures Alike(Close(r, o, id), Close(q, o, id), hidden)
  {
    SameOwned(r.assessments, q.assessments, AssessmentOwner(), hidden, o, id);
    if OwnsAssessment(r, o, id) {
      SamePut(r.assessments, q.assessments, AssessmentOwner(), hidden, id, Close(r, o, id).0.assessments[id]);
    }
  }

  lemma {:induction false} AlikeSubmission(r: Resources, q: Resources, hidden: Id, o: Id, op: Operation, now: real)
    requires SameExcept(r, q, hidden) && o != hidden && op.CreateSubmission? && !Collides(r, op, hidden)
    ensures Alike(PutSubmission(r, o, op, now), PutSubmission(q, o, op, now), hidden)
  {
    SameOwned(r.assessments, q.assessments, AssessmentOwner(), hidden, o, op.assessment);
    SameTaken(r.submissions, q.submissions, SubmissionOwner(), hidden, op.newId);
    if PutSubmission(r, o, op, now).1.Created? {
      SamePut(r.submissions, q.submissions, SubmissionOwner(), hidden, op.newId,
              PutSubmission(r, o, op, now).0.submissions[op.newId]);
    }
  }

  lemma {:induction false} SameVersionResult(r: Resources, q: Resources, hidden: Id, o: Id, op: Operation, now: real)
    requires SameRows(r.submissions, q.submissions, SubmissionOwner(), hidden)
    requires SameRows(r.versions, q.versions, VersionOwner(), hidden)
    requires VersionsChained(r.submissions, r.versions) && VersionsChained(q.submissions, q.versions)
    requires o != hidden && op.CreateSubmissionVersion? && !Collides(r, op, hidden)
    ensures PutVersion(r, o, op, now).1 == PutVersion(q, o, op, now).1
  {
    SameOwned(r.submissions, q.submissions, SubmissionOwner(), hidden, o, op.submission);
    SameTaken(r.versions, q.versions, VersionOwner(), hidden, op.newId);
    if OwnsSubmission(r, o, op.submission) {
      SameVersions(r, q, hidden, o, op.submission, op.number);
    }
  }

  lemma {:induction false} AlikeVersion(r: Resources, q: Resources, hidden: Id, o: Id, op: Operation, now: real)
    requires SameExcept(r, q, hidden) && o != hidden && op.CreateSubmissionVersion? && !Collides(r, op, hidden)
    requires VersionsChained(r.submissions, r.versions) && VersionsChained(q.submissions, q.versions)
    ensures Alike(PutVersion(r, o, op, now), PutVersion(q, o, op, now), hidden)
  {
    SameVersionResult(r, q, hidden, o, op, now);
    if PutVersion(r, o, op, now).1.Created? {
      SamePut(r.versions, q.versions, VersionOwner(), hidden, op.newId, Version(o, op.submission, op.number, now));
    }
  }

  lemma {:induction false} SameArtifactResult(r: Resources, q: Resources, hidden: Id, o: Id, op: Operation, now: real)
    requires SameExcept(r, q, hidden) && o != hidden && op.CreateArtifact? && !Collides(r, op, hidden)
    ensures PutArtifact(r, o, op, now).1 == PutArtifact(q, o, op, now).1
  {
    SameOwned(r.versions, q.versions, VersionOwner(), hidden, o, op.version);
    SameTaken(r.artifacts, q.artifacts, ArtifactOwner(), hidden, op.newId);
    SameKeys(r, q, hidden, o, op.storageKey);
  }

  lemma {:induction false} AlikeArtifact(r: Resources, q: Resources, hidden: Id, o: Id, op: Operation, now: real)
    requires SameExcept(r, q, hidden) && o != hidden && op.CreateArtifact? && !Collides(r, op, hidden)
    ensures Alike(PutArtifact(r, o, op, now), PutArtifact(q, o, op, now), hidden)
  {
    SameArtifactResult(r, q, hidden, o, op, now);
    if PutArtifact(r, o, op, now).1.Created? {
      SamePut(r.artifacts, q.artifacts, ArtifactOwner(), hidden, op.newId,
              Artifact(o, op.version, op.storageKey, op.contentType, op.sizeBytes, op.digest, now));
    }
  }

  lemma {:induction false} VisibleWrite(r: Resources, q: Resources, hidden: Id, o: Id, op: Operation, now: real)
    requires SameExcept(r, q, hidden) && o != hidden && Chained(r) && Chained(q) && !Collides(r, op, hidden)
    requires Write(r, o, op, now).Some?
    ensures Write(q, o, op, now).Some? && Alike(Write(r, o, op, now).value, Write(q, o, op, now).value, hidden)
  {
    match op
    case CreateEntity(_, _, _, _) => AlikeEntity(r, q, hidden, o, op, now);
    case CreateAssessment(_, _, _, _) => AlikeAssessment(r, q, hidden, o, op, now);
    case CloseAssessment(id) => AlikeClose(r, q, hidden, o, id);
    case CreateSubmission(_, _) => AlikeSubmission(r, q, hidden, o, op, now);
    case CreateSubmissionVersion(_, _, _) => AlikeVersion(r, q, hidden, o, op, now);
    case CreateArtifact(_, _, _, _, _, _) => AlikeArtifact(r, q, hidden, o, op, now);
  }

  lemma {:induction false} SameEntityLists(r: Resources, q: Resources, hidden: Id, c: Context)
    requires SameExcept(r, q, hidden) && c.organization != hidden
    ensures forall a: Analysis :: Read(a, r, c, ListEntities) == Read(a, q, c, ListEntities)
  {
    forall id
      ensures OwnsEntity(r, c.organization, id) == OwnsEntity(q, c.organization, id)
      ensures OwnsEntity(r, c.organization, id) ==> r.entities[id] == q.entities[id]
    {
      SameOwned(r.entities, q.entities, EntityOwner(), hidden, c.organization, id);
    }
  }

  lemma {:induction false} SamePeers(r: Resources, q: Resources, hidden: Id, o: Id, id: Id)
    requires SameExcept(r, q, hidden) && o != hidden
    ensures Peers(r, o, id) == Peers(q, o, id)
  {
    SameOwned(r.entities, q.entities, EntityOwner(), hidden, o, id);
    if OwnsEntity(r, o, id) {
      forall p ensures p in Peers(r, o, id).peers <==> p in Peers(q, o, id).peers {
        SameOwned(r.entities, q.entities, EntityOwner(), hidden, o, p);
      }
    }
  }

  lemma {:induction false} SameChainRows(a: Analysis, r: Resources, q: Resources, hidden: Id, c: Context, op: Operation)
    requires SameExcept(r, q, hidden) && c.organization != hidden
    requires op.GetEntity? || op.GetAssessment? || op.GetSubmission?
    ensures Read(a, r, c, op) == Read(a, q, c, op)
  {
    var o := c.organization;
    match op
    case GetEntity(id) => SameOwned(r.entities, q.entities, EntityOwner(), hidden, o, id);
    case GetAssessment(id) => SameOwned(r.assessments, q.assessments, AssessmentOwner(), hidden, o, id);
    case GetSubmission(id) => SameOwned(r.submissions, q.submissions, SubmissionOwner(), hidden, o, id);
  }

  lemma {:induction false} SameFileRows(a: Analysis, r: Resources, q: Resources, hidden: Id, c: Context, op: Operation)
    requires SameExcept(r, q, hidden) && c.organization != hidden
    requires op.GetSubmissionVersion? || op.GetArtifact? || op.GetSourceRecord?
    ensures Read(a, r, c, op) == Read(a, q, c, op)
  {
    var o := c.organization;
    match op
    case GetSubmissionVersion(id) => SameOwned(r.versions, q.versions, VersionOwner(), hidden, o, id);
    case GetArtifact(id) => SameOwned(r.artifacts, q.artifacts, ArtifactOwner(), hidden, o, id);
    case GetSourceRecord(id) =>
      if id in a.sources {
        SameOwned(r.submissions, q.submissions, SubmissionOwner(), hidden, o, a.sources[id].submission);
      }
  }

  lemma {:induction false} VisibleRead(a: Analysis, r: Resources, q: Resources, hidden: Id, c: Context, op: Operation)
    requires SameExcept(r, q, hidden) && c.organization != hidden
    ensures Read(a, r, c, op) == Read(a, q, c, op)
  {
    if op.GetEntity? || op.GetAssessment? || op.GetSubmission? {
      SameChainRows(a, r, q, hidden, c, op);
    } else if op.GetSubmissionVersion? || op.GetArtifact? || op.GetSourceRecord? {
      SameFileRows(a, r, q, hidden, c, op);
    } else if op.ListEntities? {
      SameEntityLists(r, q, hidden, c);
    } else if op.PeerEntityIds? {
      SamePeers(r, q, hidden, c.organization, op.id);
    }
  }

  ghost predicate Same(s: State, t: State, hidden: Id) {
    s.directory == t.directory && s.analysis == t.analysis && SameExcept(s.resources, t.resources, hidden)
  }

  lemma {:induction false} HiddenStep(s: State, t: State, hidden: Id, step: Step)
    requires Same(s, t, hidden) && By(step, hidden)
    ensures Same(Take(s, step).0, t, hidden)
  {
    if Write(s.resources, hidden, step.operation, step.now).Some? {
      HiddenWrite(s.resources, t.resources, hidden, step.operation, step.now);
    }
  }

  predicate StepCollides(s: State, step: Step, hidden: Id) {
    step.Tenant? && step.context.organization != hidden && Collides(s.resources, step.operation, hidden)
  }

  lemma {:induction false} SameResources(s: State, t: State, hidden: Id, x: Resources, y: Resources)
    requires Same(s, t, hidden) && SameExcept(x, y, hidden)
    ensures Same(s.(resources := x), t.(resources := y), hidden)
  {
  }

  lemma {:induction false} ApplyWrites(s: State, c: Context, op: Operation, now: real)
    requires Write(s.resources, c.organization, op, now).Some?
    ensures var w := Write(s.resources, c.organization, op, now).value;
            Apply(s, c, op, now)
            == if Allowed(s.directory, c, op.Needs()) then (s.(resources := w.0), w.1) else (s, Denied)
  {
  }

  lemma {:induction false} VisibleWriter(s: State, t: State, hidden: Id, c: Context, op: Operation, now: real)
    requires Same(s, t, hidden) && Chained(s.resources) && Chained(t.resources)
    requires c.organization != hidden && !Collides(s.resources, op, hidden)
    requires Write(s.resources, c.organization, op, now).Some?
    ensures Apply(s, c, op, now).1 == Apply(t, c, op, now).1
    ensures Same(Apply(s, c, op, now).0, Apply(t, c, op, now).0, hidden)
  {
    var o := c.organization;
    VisibleWrite(s.resources, t.resources, hidden, o, op, now);
    ApplyWrites(s, c, op, now);
    ApplyWrites(t, c, op, now);
    SameResources(s, t, hidden, Write(s.resources, o, op, now).value.0, Write(t.resources, o, op, now).value.0);
  }

  lemma {:induction false} VisibleReader(s: State, t: State, hidden: Id, c: Context, op: Operation, now: real)
    requires Same(s, t, hidden) && c.organization != hidden && Write(s.resources, c.organization, op, now).None?
    ensures Apply(s, c, op, now) == (s, Apply(t, c, op, now).1) && Apply(t, c, op, now).0 == t
  {
    VisibleRead(s.analysis, s.resources, t.resources, hidden, c, op);
  }

  lemma {:induction false} VisibleTenant(s: State, t: State, hidden: Id, c: Context, op: Operation, now: real)
    requires Same(s, t, hidden) && Chained(s.resources) && Chained(t.resources)
    requires c.organization != hidden && !Collides(s.resources, op, hidden)
    ensures Apply(s, c, op, now).1 == Apply(t, c, op, now).1
    ensures Same(Apply(s, c, op, now).0, Apply(t, c, op, now).0, hidden)
  {
    if Write(s.resources, c.organization, op, now).Some? {
      VisibleWriter(s, t, hidden, c, op, now);
    } else {
      VisibleReader(s, t, hidden, c, op, now);
    }
  }

  lemma {:induction false} VisibleStep(s: State, t: State, hidden: Id, step: Step)
    requires Same(s, t, hidden) && Chained(s.resources) && Chained(t.resources)
    requires !By(step, hidden) && !StepCollides(s, step, hidden)
    ensures Take(s, step).1 == Take(t, step).1 && Same(Take(s, step).0, Take(t, step).0, hidden)
  {
    if step.Tenant? {
      VisibleTenant(s, t, hidden, step.context, step.operation, step.now);
    }
  }

  // ---- Which collisions show ----

  /**
   * Every guard of a creation passes: what it hangs from is owned, its fields are valid, and nothing it needs is taken.
   */
  predicate Creatable(r: Resources, o: Id, op: Operation) {
    match op
    case CreateEntity(id, name, _, _) => Strip(name) != "" && id !in r.entities
    case CreateAssessment(id, entity, start, end) =>
      OwnsEntity(r, o, entity) && entity != "" && start < end && id !in r.assessments
    case CreateSubmission(id, assessment) => OwnsAssessment(r, o, assessment) && id !in r.submissions
    case CreateSubmissionVersion(id, submission, number) =>
      OwnsSubmission(r, o, submission) && number >= 1 && id !in r.versions && !VersionTaken(r, submission, number)
    case CreateArtifact(id, version, key, contentType, size, digest) =>
      OwnsVersion(r, o, version) && key != "" && contentType != "" && size >= 0 && HexDigest(digest)
      && id !in r.artifacts && !KeyTaken(r, o, key)
    case _ => false
  }

  lemma {:induction false} CreatableExact(r: Resources, o: Id, op: Operation, now: real)
    requires Write(r, o, op, now).Some?
    ensures Write(r, o, op, now).value.1.Created? <==> Creatable(r, o, op)
    ensures Creatable(r, o, op) ==> Write(r, o, op, now).value.1 == Created(NewId(op))
  {
  }

  /** `x` is the outcome where the id is taken by a hidden row, `y` the one without that row. */
  ghost predicate Collided(x: (Resources, Result), y: (Resources, Result), r: Resources) {
    x.0 == r && x.1 == if y.1.Created? then Duplicate else y.1
  }

  lemma {:induction false} CollidedEntity(r: Resources, q: Resources, hidden: Id, o: Id, op: Operation, now: real)
    requires SameExcept(r, q, hidden) && o != hidden && op.CreateEntity? && Collides(r, op, hidden)
    ensures Collided(PutEntity(r, o, op, now), PutEntity(q, o, op, now), r)
  {
  }

  lemma {:induction false} CollidedAssessment(r: Resources, q: Resources, hidden: Id, o: Id, op: Operation, now: real)
    requires SameExcept(r, q, hidden) && o != hidden && op.CreateAssessment? && Collides(r, op, hidden)
    ensures Collided(PutAssessment(r, o, op, now), PutAssessment(q, o, op, now), r)
  {
    SameOwned(r.entities, q.entities, EntityOwner(), hidden, o, op.entity);
  }

  lemma {:induction false} CollidedSubmission(r: Resources, q: Resources, hidden: Id, o: Id, op: Operation, now: real)
    requires SameExcept(r, q, hidden) && o != hidden && op.CreateSubmission? && Collides(r, op, hidden)
    ensures Collided(PutSubmission(r, o, op, now), PutSubmission(q, o, op, now), r)
  {
    SameOwned(r.assessments, q.assessments, AssessmentOwner(), hidden, o, op.assessment);
  }

  lemma {:induction false} CollidedVersion(r: Resources, q: Resources, hidden: Id, o: Id, op: Operation, now: real)
    requires SameExcept(r, q, hidden) && o != hidden && op.CreateSubmissionVersion? && Collides(r, op, hidden)
    ensures Collided(PutVersion(r, o, op, now), PutVersion(q, o, op, now), r)
  {
    SameOwned(r.submissions, q.submissions, SubmissionOwner(), hidden, o, op.submission);
  }

  lemma {:induction false} CollidedArtifact(r: Resources, q: Resources, hidden: Id, o: Id, op: Operation, now: real)
    requires SameExcept(r, q, hidden) && o != hidden && op.CreateArtifact? && Collides(r, op, hidden)
    ensures Collided(PutArtifact(r, o, op, now), PutArtifact(q, o, op, now), r)
  {
    SameOwned(r.versions, q.versions, VersionOwner(), hidden, o, op.version);
  }

  lemma {:induction false} CollidedWrite(r: Resources, q: Resources, hidden: Id, o: Id, op: Operation, now: real)
    requires SameExcept(r, q, hidden) && o != hidden && Collides(r, op, hidden)
    ensures Write(r, o, op, now).Some? && Write(q, o, op, now).Some?
    ensures Collided(Write(r, o, op, now).value, Write(q, o, op, now).value, r)
  {
    match op
    case CreateEntity(_, _, _, _) => CollidedEntity(r, q, hidden, o, op, now);
    case CreateAssessment(_, _, _, _) => CollidedAssessment(r, q, hidden, o, op, now);
    case CreateSubmission(_, _) => CollidedSubmission(r, q, hidden, o, op, now);
    case CreateSubmissionVersion(_, _, _) => CollidedVersion(r, q, hidden, o, op, now);
    case CreateArtifact(_, _, _, _, _, _) => CollidedArtifact(r, q, hidden, o, op, now);
  }

  /**
   * The step interferes: it draws an id that a row of the hidden organization holds, its caller has the permission, and
   * without the hidden steps every other guard would pass.
   */
  predicate Interferes(s: State, t: State, step: Step, hidden: Id) {
    && StepCollides(s, step, hidden)
    && Allowed(s.directory, step.context, step.operation.Needs())
    && Creatable(t.resources, step.context.organization, step.operation)
  }

  lemma {:induction false} CollidingWrite(r: Resources, q: Resources, hidden: Id, o: Id, op: Operation, now: real)
    requires SameExcept(r, q, hidden) && o != hidden && Collides(r, op, hidden)
    ensures Write(r, o, op, now).Some? && Write(q, o, op, now).Some?
    ensures Creatable(q, o, op) ==>
              Write(r, o, op, now).value.1 == Duplicate && Write(q, o, op, now).value.1 == Created(NewId(op))
    ensures !Creatable(q, o, op) ==> Alike(Write(r, o, op, now).value, Write(q, o, op, now).value, hidden)
  {
    CollidedWrite(r, q, hidden, o, op, now);
    CreatableExact(q, o, op, now);
    if !Creatable(q, o, op) {
      FailedWriteChangesNothing(q, o, op, now);
    }
  }

  lemma {:induction false} CollidingStep(s: State, t: State, hidden: Id, step: Step)
    requires Same(s, t, hidden) && StepCollides(s, step, hidden)
    ensures Interferes(s, t, step, hidden) ==>
              Take(s, step).1 == Duplicate && Take(t, step).1 == Created(NewId(step.operation))
    ensures !Interferes(s, t, step, hidden) ==>
              Take(s, step).1 == Take(t, step).1 && Same(Take(s, step).0, Take(t, step).0, hidden)
  {
    CollidingWrite(s.resources, t.resources, hidden, step.context.organization, step.operation, step.now);
  }

  /** A step of another organization, or of an administrator, answers differently exactly when it interferes. */
  lemma {:induction false} StepShowsIffInterferes(s: State, t: State, hidden: Id, step: Step)
    requires Same(s, t, hidden) && Chained(s.resources) && Chained(t.resources) && !By(step, hidden)
    ensures Take(s, step).1 != Take(t, step).1 <==> Interferes(s, t, step, hidden)
    ensures !Interferes(s, t, step, hidden) ==> Same(Take(s, step).0, Take(t, step).0, hidden)
  {
    if StepCollides(s, step, hidden) {
      CollidingStep(s, t, hidden, step);
    } else {
      VisibleStep(s, t, hidden, step);
    }
  }

  /** No step of the run from `s` interferes; `t` is where the run without the hidden steps has come to. */
  predicate Undisturbed(s: State, t: State, steps: seq<Step>, hidden: Id)
    decreases steps
  {
    steps != [] ==>
      if By(steps[0], hidden) then Undisturbed(Take(s, steps[0]).0, t, steps[1..], hidden)
      else
        !Interferes(s, t, steps[0], hidden)
        && Undisturbed(Take(s, steps[0]).0, Take(t, steps[0]).0, steps[1..], hidden)
  }

  /** The visible results of the run, and those of the run without the hidden steps. */
  predicate SameResults(s: State, t: State, steps: seq<Step>, hidden: Id) {
    ResultsWithout(steps, Results(s, steps), hidden) == Results(t, Without(steps, hidden))
  }

  lemma {:induction false} HiddenFirst(s: State, t: State, steps: seq<Step>, hidden: Id)
    requires steps != [] && By(steps[0], hidden)
    ensures SameResults(s, t, steps, hidden) <==> SameResults(Take(s, steps[0]).0, t, steps[1..], hidden)
    ensures Without(steps, hidden) == Without(steps[1..], hidden)
  {
    var rest := Results(Take(s, steps[0]).0, steps[1..]);
    assert Results(s, steps)[1..] == rest;
    assert [] + ResultsWithout(steps[1..], rest, hidden) == ResultsWithout(steps[1..], rest, hidden);
    assert [] + Without(steps[1..], hidden) == Without(steps[1..], hidden);
  }

  lemma {:induction false} Cons<T>(a: T, b: T, x: seq<T>, y: seq<T>)
    ensures [a] + x == [b] + y <==> a == b && x == y
  {
    assert ([a] + x)[0] == a && ([b] + y)[0] == b && ([a] + x)[1..] == x && ([b] + y)[1..] == y;
  }

  lemma {:induction false} VisibleFirst(s: State, t: State, steps: seq<Step>, hidden: Id)
    requires steps != [] && !By(steps[0], hidden)
    ensures SameResults(s, t, steps, hidden) <==>
              Take(s, steps[0]).1 == Take(t, steps[0]).1
              && SameResults(Take(s, steps[0]).0, Take(t, steps[0]).0, steps[1..], hidden)
    ensures After(t, Without(steps, hidden)) == After(Take(t, steps[0]).0, Without(steps[1..], hidden))
  {
    var rest := steps[1..];
    assert Results(s, steps)[1..] == Results(Take(s, steps[0]).0, rest);
    assert Without(steps, hidden)[1..] == Without(rest, hidden);
    Cons(Take(s, steps[0]).1, Take(t, steps[0]).1, ResultsWithout(rest, Results(Take(s, steps[0]).0, rest), hidden),
         Results(Take(t, steps[0]).0, Without(rest, hidden)));
  }

  lemma {:induction false} RunsAgree(s: State, t: State, steps: seq<Step>, hidden: Id)
    requires Same(s, t, hidden) && Chained(s.resources) && Chained(t.resources)
    ensures SameResults(s, t, steps, hidden) <==> Undisturbed(s, t, steps, hidden)
    ensures Undisturbed(s, t, steps, hidden) ==> Same(After(s, steps), After(t, Without(steps, hidden)), hidden)
    decreases steps
  {
    if steps != [] {
      StepKeepsChained(s, steps[0]);
      if By(steps[0], hidden) {
        HiddenFirst(s, t, steps, hidden);
        HiddenStep(s, t, hidden, steps[0]);
        RunsAgree(Take(s, steps[0]).0, t, steps[1..], hidden);
      } else {
        VisibleFirst(s, t, steps, hidden);
        StepShowsIffInterferes(s, t, hidden, steps[0]);
        StepKeepsChained(t, steps[0]);
        if !Interferes(s, t, steps[0], hidden) {
          RunsAgree(Take(s, steps[0]).0, Take(t, steps[0]).0, steps[1..], hidden);
        }
      }
    }
  }

  /**
   * Non-interference, exactly: deleting every operation of one organization from an interleaved run changes no result
   * of any other organization or administrator if and only if no step interferes; then it also leaves every row that
   * another organization owns as it is.
   */
  lemma {:induction false} NonInterference(s: State, steps: seq<Step>, hidden: Id)
    requires Chained(s.resources)
    ensures ResultsWithout(steps, Results(s, steps), hidden) == Results(s, Without(steps, hidden)) <==>
              Undisturbed(s, s, steps, hidden)
    ensures Undisturbed(s, s, steps, hidden) ==> Same(After(s, steps), After(s, Without(steps, hidden)), hidden)
  {
    RunsAgree(s, s, steps, hidden);
  }

  /** No other organization draws an id that the hidden one already uses: the ids are random 128-bit values. */
  predicate NoCollisions(s: State, steps: seq<Step>, hidden: Id)
    decreases steps
  {
    steps != [] ==> !StepCollides(s, steps[0], hidden) && NoCollisions(Take(s, steps[0]).0, steps[1..], hidden)
  }

  /** Where no ids collide nothing interferes, whatever the organizations do. */
  lemma {:induction false} FreshIdsSuffice(s: State, t: State, steps: seq<Step>, hidden: Id)
    requires NoCollisions(s, steps, hidden)
    ensures Undisturbed(s, t, steps, hidden)
    decreases steps
  {
    if steps != [] {
      var s' := Take(s, steps[0]).0;
      FreshIdsSuffice(s', if By(steps[0], hidden) then t else Take(t, steps[0]).0, steps[1..], hidden);
    }
  }

  /** Two creations draw the same id for the same table. */
  predicate SameDraw(x: Operation, y: Operation) {
    && NewId(x) == NewId(y)
    && ((x.CreateEntity? && y.CreateEntity?) || (x.CreateAssessment? && y.CreateAssessment?)
        || (x.CreateSubmission? && y.CreateSubmission?) || (x.CreateArtifact? && y.CreateArtifact?)
        || (x.CreateSubmissionVersion? && y.CreateSubmissionVersion?))
  }

  predicate DrawsAfter(first: Step, second: Step, hidden: Id) {
    By(first, hidden) && second.Tenant? && !By(second, hidden) && SameDraw(first.operation, second.operation)
  }

  /**
   * Read off the requests before anything runs: no id that another organization draws is one of the ids that the hidden
   * one has rows under at the start, or has drawn earlier for the same table.
   */
  ghost predicate FreshDraws(s: State, steps: seq<Step>, hidden: Id) {
    && (forall j :: 0 <= j < |steps| ==> !StepCollides(s, steps[j], hidden))
    && (forall i, j :: 0 <= i < j < |steps| ==> !DrawsAfter(steps[i], steps[j], hidden))
  }

  lemma {:induction false} WriteTakes(r: Resources, o: Id, write: Operation, now: real, op: Operation, hidden: Id)
    requires Write(r, o, write, now).Some? && Collides(Write(r, o, write, now).value.0, op, hidden)
    ensures Collides(r, op, hidden) || (o == hidden && SameDraw(write, op))
  {
  }

  /** A step gives the hidden organization a row under a new id only by drawing that id for it. */
  lemma {:induction false} StepTakes(s: State, step: Step, later: Step, hidden: Id)
    requires StepCollides(Take(s, step).0, later, hidden)
    ensures StepCollides(s, later, hidden) || DrawsAfter(step, later, hidden)
  {
    if step.Tenant? && Write(s.resources, step.context.organization, step.operation, step.now).Some?
       && Allowed(s.directory, step.context, step.operation.Needs()) {
      ApplyWrites(s, step.context, step.operation, step.now);
      WriteTakes(s.resources, step.context.organization, step.operation, step.now, later.operation, hidden);
    }
  }

  lemma {:induction false} FreshDrawsStep(s: State, steps: seq<Step>, hidden: Id)
    requires steps != [] && FreshDraws(s, steps, hidden)
    ensures FreshDraws(Take(s, steps[0]).0, steps[1..], hidden)
  {
    var rest := steps[1..];
    forall j | 0 <= j < |rest| ensures !StepCollides(Take(s, steps[0]).0, rest[j], hidden) {
      assert rest[j] == steps[j + 1];
      if StepCollides(Take(s, steps[0]).0, rest[j], hidden) {
        StepTakes(s, steps[0], rest[j], hidden);
      }
    }
    forall i, j | 0 <= i < j < |rest| ensures !DrawsAfter(rest[i], rest[j], hidden) {
      assert rest[i] == steps[i + 1] && rest[j] == steps[j + 1];
    }
  }

  lemma {:induction false} FreshDrawsNeverCollide(s: State, steps: seq<Step>, hidden: Id)
    requires FreshDraws(s, steps, hidden)
    ensures NoCollisions(s, steps, hidden)
    decreases steps
  {
    if steps != [] {
      FreshDrawsStep(s, steps, hidden);
      FreshDrawsNeverCollide(Take(s, steps[0]).0, steps[1..], hidden);
    }
  }

  /** So with fresh ids the deleted organization leaves no trace in any result or row of the others. */
  lemma {:induction false} FreshDrawsIsolate(s: State, steps: seq<Step>, hidden: Id)
    requires Chained(s.resources) && FreshDraws(s, steps, hidden)
    ensures ResultsWithout(steps, Results(s, steps), hidden) == Results(s, Without(steps, hidden))
    ensures Same(After(s, steps), After(s, Without(steps, hidden)), hidden)
  {
    FreshDrawsNeverCollide(s, steps, hidden);
    FreshIdsSuffice(s, s, steps, hidden);
    NonInterference(s, steps, hidden);
  }

  // ---- What one operation may change, and for whom ----

  /** An operation of one organization leaves the rows of all others, the directory and the analysis tables alone. */
  lemma {:induction false} WritesStayHome(s: State, c: Context, op: Operation, now: real)
    ensures Same(Apply(s, c, op, now).0, s, c.organization)
  {
    assert Same(s, s, c.organization);
    HiddenStep(s, s, c.organization, Tenant(c, op, now));
  }

  /** Denied, invalid and duplicate requests change nothing at all. */
  lemma {:induction false} FailureChangesNothing(s: State, step: Step)
    requires Take(s, step).1 in {Denied, Invalid, Duplicate, StorageFailed}
    ensures Take(s, step).0 == s
  {
    if step.Tenant? && Allowed(s.directory, step.context, step.operation.Needs())
       && Write(s.resources, step.context.organization, step.operation, step.now).Some? {
      FailedWriteChangesNothing(s.resources, step.context.organization, step.operation, step.now);
    }
  }

  /** Whatever the answer discloses belongs to the caller's organization, by its own column or through its joins. */
  ghost predicate OwnAnswer(a: Analysis, r: Resources, c: Context, op: Operation, answer: Result) {
    var o := c.organization;
    match answer
    case EntityRow(Some(e)) => e.organization == o
    case EntityRows(rows) => forall id :: id in rows ==> rows[id].organization == o
    case PeerIds(peers) =>
      op.PeerEntityIds? && OwnsEntity(r, o, op.id) && forall p :: p in peers ==> p != op.id && OwnsEntity(r, o, p)
    case AssessmentRow(Some(x)) => x.organization == o
    case SubmissionRow(Some(x)) => x.organization == o
    case VersionRow(Some(x)) => x.organization == o
    case ArtifactRow(Some(x)) => x.organization == o
    case RunFound(Some(x)) => x.organization == o
    case FindingFound(Some(f)) => f.observation in a.observations && OwnsRun(a, o, a.observations[f.observation].run)
    case SourceFound(Some(x)) => OwnsSubmission(r, o, x.submission)
    case ReviewFound(Some(x)) => OwnsFinding(a, o, x.finding)
    case ReceiptFound(Some(x)) =>
      op.GetTrustReceipt? && OwnsReceipt(a, o, op.receiptId) && a.receipts[op.receiptId] == x
      && ((x.subjectType == "run" && OwnsRun(a, o, x.subject))
          || (x.subjectType == "finding" && OwnsFinding(a, o, x.subject)))
    case _ => true
  }

  lemma {:induction false} ReadsOwnRows(a: Analysis, r: Resources, c: Context, op: Operation)
    ensures OwnAnswer(a, r, c, op, Read(a, r, c, op))
  {
    match op {
      case GetTrustReceipt(id) =>
      case PeerEntityIds(id) =>
      case ListEntities =>
      case _ =>
    }
  }

  lemma {:induction false} WritesAnswerPlainly(r: Resources, o: Id, op: Operation, now: real)
    requires Write(r, o, op, now).Some?
    ensures Write(r, o, op, now).value.1 in {Done, Created(NewId(op)), Denied, Invalid, Duplicate}
  {
  }

  /** Only an active member with the permission gets anything but a denial, and only what the own organization owns. */
  lemma {:induction false} DisclosesOwnRowsOnly(s: State, c: Context, op: Operation, now: real)
    ensures OwnAnswer(s.analysis, s.resources, c, op, Apply(s, c, op, now).1)
    ensures Apply(s, c, op, now).1 != Denied ==> Allowed(s.directory, c, op.Needs())
  {
    if Write(s.resources, c.organization, op, now).Some? {
      WritesAnswerPlainly(s.resources, c.organization, op, now);
    } else {
      ReadsOwnRows(s.analysis, s.resources, c, op);
    }
  }

  ghost predicate Reactivates(step: Step, organization: Id, user: Id) {
    step.Admin? && step.request == SetMembershipStatus(organization, user, "active")
  }

  ghost predicate Revoked(d: Directory, organization: Id, user: Id) {
    (organization, user) in d.memberships && d.memberships[(organization, user)].status == "revoked"
  }

  /** A revoked member is denied everything until an administrator reactivates the membership. */
  lemma {:induction false} RevocationHolds(s: State, steps: seq<Step>, organization: Id, user: Id, i: nat)
    requires Revoked(s.directory, organization, user)
    requires forall k :: 0 <= k < |steps| ==> !Reactivates(steps[k], organization, user)
    requires i < |steps| && steps[i].Tenant?
    requires steps[i].context.organization == organization && steps[i].context.user == user
    ensures Results(s, steps)[i] == Denied
    decreases steps
  {
    if i > 0 {
      RevokedStays(s, steps[0], organization, user);
      RevocationHolds(Take(s, steps[0]).0, steps[1..], organization, user, i - 1);
    }
  }

  lemma {:induction false} RevokedStays(s: State, step: Step, organization: Id, user: Id)
    requires Revoked(s.directory, organization, user) && !Reactivates(step, organization, user)
    ensures Revoked(Take(s, step).0.directory, organization, user)
  {
    if step.Admin? {
      match step.request
      case SetMembershipStatus(o, u, status) => assert (o, u) == (organization, user) ==> status != "active";
      case _ =>
    }
  }

  // ---- Round trips ----

  /** Reading back what was created gives the row as requested, owned by the creator, under an owned parent. */
  ghost predicate ReadsBack(a: Analysis, r: Resources, c: Context, op: Operation, now: real) {
    var o := c.organization;
    match op
    case CreateEntity(id, name, sector, env) =>
      Read(a, r, c, GetEntity(id))
      == EntityRow(Some(Entity(o, Strip(name), sector, env, EntityDocument(id, Strip(name), sector, env), now)))
    case CreateAssessment(id, entity, start, end) =>
      start < end && OwnsEntity(r, o, entity)
      && Read(a, r, c, GetAssessment(id))
         == AssessmentRow(Some(Assessment(o, entity, start, end, "open",
                                          AssessmentDocument(id, entity, start, end, "open"), now)))
    case CreateSubmission(id, assessment) =>
      OwnsAssessment(r, o, assessment)
      && Read(a, r, c, GetSubmission(id))
         == SubmissionRow(Some(Submission(o, assessment, r.assessments[assessment].entity, "created", now)))
    case CreateSubmissionVersion(id, submission, number) =>
      number >= 1 && OwnsSubmission(r, o, submission)
      && Read(a, r, c, GetSubmissionVersion(id)) == VersionRow(Some(Version(o, submission, number, now)))
    case CreateArtifact(id, version, key, contentType, size, digest) =>
      OwnsVersion(r, o, version)
      && Read(a, r, c, GetArtifact(id)) == ArtifactRow(Some(Artifact(o, version, key, contentType, size, digest, now)))
    case _ => false
  }

  lemma {:induction false} CreatedReadsBack(s: State, c: Context, op: Operation, now: real, reader: Context)
    requires Apply(s, c, op, now).1 == Created(NewId(op)) && reader.organization == c.organization
    ensures ReadsBack(s.analysis, Apply(s, c, op, now).0.resources, reader, op, now)
  {
    assert Write(s.resources, c.organization, op, now).Some?;
    WrittenReadsBack(s.analysis, s.resources, reader, op, now);
  }

  lemma {:induction false} ParentReadsBack(a: Analysis, r: Resources, c: Context, op: Operation, now: real)
    requires op.CreateEntity? || op.CreateAssessment?
    requires Write(r, c.organization, op, now).value.1 == Created(NewId(op))
    ensures ReadsBack(a, Write(r, c.organization, op, now).value.0, c, op, now)
  {
  }

  lemma {:induction false} SubmissionReadsBack(a: Analysis, r: Resources, c: Context, op: Operation, now: real)
    requires op.CreateSubmission? && PutSubmission(r, c.organization, op, now).1.Created?
    ensures ReadsBack(a, PutSubmission(r, c.organization, op, now).0, c, op, now)
  {
  }

  lemma {:induction false} FileReadsBack(a: Analysis, r: Resources, c: Context, op: Operation, now: real)
    requires op.CreateSubmissionVersion? || op.CreateArtifact?
    requires Write(r, c.organization, op, now).value.1 == Created(NewId(op))
    ensures ReadsBack(a, Write(r, c.organization, op, now).value.0, c, op, now)
  {
  }

  lemma {:induction false} WrittenReadsBack(a: Analysis, r: Resources, c: Context, op: Operation, now: real)
    requires Write(r, c.organization, op, now).Some? && Write(r, c.organization, op, now).value.1 == Created(NewId(op))
    ensures ReadsBack(a, Write(r, c.organization, op, now).value.0, c, op, now)
  {
    if op.CreateEntity? || op.CreateAssessment? {
      ParentReadsBack(a, r, c, op, now);
    } else if op.CreateSubmission? {
      SubmissionReadsBack(a, r, c, op, now);
    } else {
      FileReadsBack(a, r, c, op, now);
    }
  }

  /** Closing an assessment changes its status and digest only; closing it again changes nothing. */
  lemma {:induction false} ClosingIsFinal(r: Resources, o: Id, id: Id)
    requires OwnsAssessment(r, o, id)
    ensures var q := Close(r, o, id).0;
            q.assessments[id] == r.assessments[id].(status := "closed",
                                                    digest := AssessmentDigest(id, q.assessments[id]))
            && q.assessments.Keys == r.assessments.Keys
            && (forall k :: k in r.assessments && k != id ==> q.assessments[k] == r.assessments[k])
            && q == r.(assessments := q.assessments)
            && Close(q, o, id) == (q, Done)
  {
    var q := Close(r, o, id).0;
    assert q.assessments[id := q.assessments[id]] == q.assessments;
  }

  /** Being peers is mutual. */
  lemma {:induction false} PeersAreMutual(r: Resources, o: Id, x: Id, y: Id)
    requires Peers(r, o, x).PeerIds? && y in Peers(r, o, x).peers
    ensures Peers(r, o, y).PeerIds? && x in Peers(r, o, y).peers && x != y
  {
  }

  // ---- Rows persist ----

  ghost predicate Kept<T>(s: map<Id, T>, t: map<Id, T>) {
    forall id :: id in s ==> id in t && t[id] == s[id]
  }

  ghost predicate KeptOrClosed(s: map<Id, Assessment>, t: map<Id, Assessment>) {
    forall id :: id in s ==>
      id in t && (t[id] == s[id] || t[id] == s[id].(status := "closed", digest := t[id].digest))
  }

  /** Rows are never removed, never change owner, and only assessments change, by being closed. */
  ghost predicate Extends(r: Resources, q: Resources) {
    && Kept(r.entities, q.entities) && KeptOrClosed(r.assessments, q.assessments)
    && Kept(r.submissions, q.submissions) && Kept(r.versions, q.versions) && Kept(r.artifacts, q.artifacts)
  }

  lemma {:induction false} WriteExtends(r: Resources, o: Id, op: Operation, now: real)
    requires Write(r, o, op, now).Some? && Write(r, o, op, now).value.1 in {Done, Created(NewId(op))}
    ensures Extends(r, Write(r, o, op, now).value.0)
  {
    var q := Write(r, o, op, now).value.0;
    match op
    case CreateEntity(_, _, _, _) => assert Kept(r.entities, q.entities);
    case CreateAssessment(_, _, _, _) => assert KeptOrClosed(r.assessments, q.assessments);
    case CloseAssessment(_) => assert KeptOrClosed(r.assessments, q.assessments);
    case CreateSubmission(_, _) => assert Kept(r.submissions, q.submissions);
    case CreateSubmissionVersion(_, _, _) => assert Kept(r.versions, q.versions);
    case CreateArtifact(_, _, _, _, _, _) => assert Kept(r.artifacts, q.artifacts);
  }

  lemma {:induction false} StepExtends(s: State, step: Step)
    ensures Extends(s.resources, Take(s, step).0.resources)
  {
    if Take(s, step).1 in {Denied, Invalid, Duplicate, StorageFailed} {
      FailureChangesNothing(s, step);
    } else if step.Tenant? && Write(s.resources, step.context.organization, step.operation, step.now).Some? {
      var o, op := step.context.organization, step.operation;
      if Write(s.resources, o, op, step.now).value.1 !in {Done, Created(NewId(op))} {
        FailedWriteChangesNothing(s.resources, o, op, step.now);
      } else {
        WriteExtends(s.resources, o, op, step.now);
      }
    }
  }

  lemma {:induction false} ExtendsTransitive(p: Resources, q: Resources, r: Resources)
    requires Extends(p, q) && Extends(q, r)
    ensures Extends(p, r)
  {
  }

  lemma {:induction false} RowsPersist(s: State, steps: seq<Step>)
    ensures Extends(s.resources, After(s, steps).resources)
    decreases steps
  {
    if steps != [] {
      var s' := Take(s, steps[0]).0;
      StepExtends(s, steps[0]);
      RowsPersist(s', steps[1..]);
      ExtendsTransitive(s.resources, s'.resources, After(s, steps).resources);
    }
  }
}
