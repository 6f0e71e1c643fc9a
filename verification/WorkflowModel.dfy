/** The records of public_benchmarks/workflow_augmentation/generator.py and, scenario by scenario, what is generated. */
module WorkflowModel {
  import opened Counting
  import opened Numbering

  // ---- Records ----

  datatype Context = Context(scenario: string, dataset: string, policyVersion: string)

  /** An input alert; `rest` stands for the columns no scenario touches. */
  datatype Alert = Alert(id: string, severity: string, createdAt: real, acknowledgedAt: Option<real>,
                         closedAt: Option<real>, caseIds: seq<string>, rest: map<string, string>)

  datatype Asset = Asset(id: string, criticality: string, tag: Context)

  datatype Case = Case(id: string, openedAt: real, status: string, closedAt: real, owner: string, alertIds: seq<string>,
                       closureReason: string, tag: Context)

  datatype Step = Step(caseId: string, action: string, performedAt: real, sequence: nat, analyst: string, note: string,
                       evidenceIds: seq<string>, tag: Context)

  datatype Escalation = Escalation(alertId: string, caseId: string, occurredAt: real, destinationRole: string,
                                   trigger: string, outcome: string, tag: Context)

  datatype Disposition = Disposition(alertId: string, caseId: string, occurredAt: real, outcome: string, reason: string,
                                     approverRole: string, tag: Context)

  const ANALYST := "benchmark-analyst"

  /** No scenario leaves a case open. */
  function NewCase(id: string, openedAt: real, closedAt: real, alertIds: seq<string>, tag: Context): Case {
    Case(id, openedAt, "closed", closedAt, ANALYST, alertIds, "benchmark-generated", tag)
  }

  function NewStep(caseId: string, action: string, performedAt: real, sequence: nat, analyst: string, note: string,
                   tag: Context): Step
  {
    Step(caseId, action, performedAt, sequence, analyst, note, [], tag)
  }

  function NewEscalation(alertId: string, caseId: string, occurredAt: real, tag: Context): Escalation {
    Escalation(alertId, caseId, occurredAt, "soc-l2", "severity", "acknowledged", tag)
  }

  function NewDisposition(alertId: string, caseId: string, occurredAt: real, outcome: string,
                          tag: Context): Disposition {
    Disposition(alertId, caseId, occurredAt, outcome, "benchmark-generated", "soc-lead", tag)
  }

  /** The contents of a bundle. */
  datatype Records = Records(alertsUsed: seq<Alert>, extraAssets: seq<Asset>, cases: seq<Case>, steps: seq<Step>,
                             escalations: seq<Escalation>, dispositions: seq<Disposition>, omitted: set<string>)

  const Empty := Records([], [], [], [], [], [], {})

  // ---- Parameters ----

  /** A scenario's parameters; None when the policy leaves one out. */
  datatype Params = Params(closeMin: Option<real>, closeMax: Option<real>, peerMin: Option<real>, peerMax: Option<real>,
                           steps: Option<seq<string>>, escalate: Option<seq<string>>, omitEscalations: bool,
                           silentCount: Option<int>, silentCriticality: Option<string>, maxAlerts: Option<int>,
                           minSteps: Option<int>, templateAction: Option<string>, templateNote: Option<string>,
                           templateAnalyst: Option<string>, recurrence: Option<int>, outcome: Option<string>)

  function Or<T>(o: Option<T>, default: T): T {
    if o.Some? then o.value else default
  }

  /** A missing parameter or scenario, and the last element of an empty list. */
  datatype Error = KeyError | IndexError

  datatype Result<T> = Ok(value: T) | Raised(error: Error)

  /** The largest default closure threshold of the fast-closure detector, and a margin. */
  const SafeSlowClosure := 3600.0 + 400.0

  function Pace(low: real, high: real, cap: real): real {
    var capped := if cap < high then cap else high;
    if low < capped then capped else low
  }

  // ---- The scenarios that handle one alert at a time ----

  datatype Kind =
    | HealthyControl | FastClosure | NoEscalation | AckNoInvestigation | MissingInvestigation | MissingEscalationFile
    | LowActivity | PeerOutlier | PeerEntity | MultiSignal

  predicate Selects(kind: Kind, a: Alert) {
    match kind
    case FastClosure => a.severity == "critical"
    case NoEscalation => a.severity == "critical"
    case MissingEscalationFile => a.severity == "critical"
    case MultiSignal => a.severity == "critical"
    case AckNoInvestigation => a.severity in ["critical", "high", "medium"]
    case PeerOutlier => a.severity in ["critical", "high"]
    case PeerEntity => a.severity in ["critical", "high"]
    case _ => true
  }

  /** alerts[:n] */
  function SliceTo(alerts: seq<Alert>, n: int): seq<Alert> {
    if n >= |alerts| then alerts
    else if n >= 0 then alerts[..n]
    else if |alerts| + n >= 0 then alerts[..|alerts| + n]
    else []
  }

  function Picked(kind: Kind, alerts: seq<Alert>): seq<Alert>
    decreases alerts
  {
    if alerts == [] then []
    else
      Picked(kind, alerts[..|alerts| - 1])
      + if Selects(kind, alerts[|alerts| - 1]) then [alerts[|alerts| - 1]] else []
  }

  function Selected(kind: Kind, p: Params, alerts: seq<Alert>): seq<Alert> {
    if kind.LowActivity? then SliceTo(alerts, Or(p.maxAlerts, 2)) else Picked(kind, alerts)
  }

  /** The parameters every turn of the loop looks up are there. */
  predicate Ready(kind: Kind, p: Params) {
    match kind
    case NoEscalation => true
    case PeerEntity => p.peerMin.Some? && p.peerMax.Some?
    case HealthyControl => p.closeMin.Some? && p.closeMax.Some? && p.steps.Some?
    case _ => p.closeMin.Some? && p.closeMax.Some?
  }

  function CaseId(ctx: Context, i: nat): string {
    Numbered(ctx.scenario + "-case", i)
  }

  /** Seconds from the alert to the acknowledgement, or where there is none to the opening of the case. */
  function OpenDelay(kind: Kind): real {
    match kind
    case FastClosure => 5.0
    case PeerOutlier => 5.0
    case MultiSignal => 5.0
    case MissingInvestigation => 30.0
    case _ => 60.0
  }

  function CasePace(kind: Kind, p: Params): real
    requires Ready(kind, p)
  {
    match kind
    case HealthyControl => Pace(p.closeMin.value, p.closeMax.value, 7200.0)
    case FastClosure => Pace(p.closeMin.value, p.closeMax.value, 90.0)
    case NoEscalation => SafeSlowClosure
    case AckNoInvestigation => Pace(p.closeMin.value, p.closeMax.value, 3000.0)
    case MissingInvestigation => Pace(p.closeMin.value, p.closeMax.value, 5000.0)
    case MissingEscalationFile => Pace(p.closeMin.value, p.closeMax.value, 3000.0)
    case LowActivity => Pace(p.closeMin.value, p.closeMax.value, 5000.0)
    case PeerOutlier => Pace(p.closeMin.value, p.closeMax.value, 60.0)
    case PeerEntity => Pace(p.peerMin.value, p.peerMax.value, 10800.0)
    case MultiSignal => Pace(p.closeMin.value, p.closeMax.value, 90.0)
  }

  /** Seconds from the alert to its closing: the pace runs from the acknowledgement where there is one. */
  function CloseDelay(kind: Kind, p: Params): real
    requires Ready(kind, p)
  {
    (if kind.MissingInvestigation? then 0.0 else OpenDelay(kind)) + CasePace(kind, p)
  }

  function Opened(kind: Kind, a: Alert): real {
    a.createdAt + OpenDelay(kind)
  }

  function Closed(kind: Kind, p: Params, a: Alert): real
    requires Ready(kind, p)
  {
    a.createdAt + CloseDelay(kind, p)
  }

  function Used(kind: Kind, ctx: Context, p: Params, i: nat, a: Alert): Alert
    requires Ready(kind, p)
  {
    if kind.MissingInvestigation? then
      a.(acknowledgedAt := None, closedAt := Some(Closed(kind, p, a)))
    else
      a.(acknowledgedAt := Some(Opened(kind, a)), closedAt := Some(Closed(kind, p, a)), caseIds := [CaseId(ctx, i)])
  }

  function CaseOf(kind: Kind, ctx: Context, p: Params, i: nat, a: Alert): Case
    requires Ready(kind, p)
  {
    NewCase(CaseId(ctx, i), Opened(kind, a), Closed(kind, p, a), [a.id], ctx)
  }

  function StepTypes(kind: Kind, p: Params): seq<string>
    requires Ready(kind, p)
  {
    match kind
    case HealthyControl => p.steps.value
    case AckNoInvestigation => ["triage"]
    case MissingInvestigation => []
    case _ => Or(p.steps, [])
  }

  /** Seconds from the acknowledgement to the step in position j, counting from 1. */
  function StepDelay(kind: Kind, j: nat): real {
    match kind
    case HealthyControl => 300.0 * j as real
    case FastClosure => 10.0
    case NoEscalation => 300.0
    case AckNoInvestigation => 120.0
    case PeerOutlier => 10.0
    case PeerEntity => 300.0
    case MultiSignal => 10.0
    case _ => 200.0
  }

  function StepNote(kind: Kind, action: string): string {
    match kind
    case HealthyControl => action + " completed per runbook"
    case PeerEntity => action + " completed per runbook"
    case FastClosure => "quick check"
    case MultiSignal => "quick check"
    case NoEscalation => action + " completed"
    case AckNoInvestigation => "closed, no further action"
    case _ => action + " done"
  }

  function StepOf(kind: Kind, ctx: Context, i: nat, a: Alert, action: string, j: nat): Step {
    NewStep(CaseId(ctx, i), action, Opened(kind, a) + StepDelay(kind, j), j, ANALYST, StepNote(kind, action), ctx)
  }

  function StepsOf(kind: Kind, ctx: Context, i: nat, a: Alert, types: seq<string>): seq<Step> {
    if types == [] then []
    else StepsOf(kind, ctx, i, a, types[..|types| - 1]) + [StepOf(kind, ctx, i, a, types[|types| - 1], |types|)]
  }

  lemma {:induction false} StepsMore(kind: Kind, ctx: Context, i: nat, a: Alert, types: seq<string>, j: nat)
    requires j < |types|
    ensures StepsOf(kind, ctx, i, a, types[..j]) + [StepOf(kind, ctx, i, a, types[j], j + 1)]
            == StepsOf(kind, ctx, i, a, types[..j + 1])
  {
    assert types[..j + 1][..j] == types[..j];
  }

  predicate Escalates(kind: Kind, p: Params, a: Alert) {
    (kind.HealthyControl? || kind.MissingInvestigation? || kind.PeerOutlier? || kind.PeerEntity?)
    && a.severity in Or(p.escalate, [])
  }

  function EscalatedAt(kind: Kind, p: Params, a: Alert): real
    requires Ready(kind, p)
  {
    match kind
    case MissingInvestigation => Closed(kind, p, a) - 100.0
    case PeerOutlier => Opened(kind, a) + 20.0
    case _ => Opened(kind, a) + 120.0
  }

  function EscalationsOf(kind: Kind, ctx: Context, p: Params, i: nat, a: Alert): seq<Escalation>
    requires Ready(kind, p)
  {
    if Escalates(kind, p, a) then [NewEscalation(a.id, CaseId(ctx, i), EscalatedAt(kind, p, a), ctx)] else []
  }

  function DispositionOf(kind: Kind, ctx: Context, p: Params, i: nat, a: Alert): Disposition
    requires Ready(kind, p)
  {
    NewDisposition(a.id, CaseId(ctx, i), Closed(kind, p, a), "true_positive", ctx)
  }

  /** The records with one more handled alert. */
  function Add(r: Records, used: Alert, c: Case, steps: seq<Step>, escalations: seq<Escalation>,
               d: Disposition): Records {
    r.(alertsUsed := r.alertsUsed + [used], cases := r.cases + [c], steps := r.steps + steps,
       escalations := r.escalations + escalations, dispositions := r.dispositions + [d])
  }

  function Handle(r: Records, kind: Kind, ctx: Context, p: Params, i: nat, a: Alert): Records
    requires Ready(kind, p)
  {
    Add(r, Used(kind, ctx, p, i, a), CaseOf(kind, ctx, p, i, a), StepsOf(kind, ctx, i, a, StepTypes(kind, p)),
        EscalationsOf(kind, ctx, p, i, a), DispositionOf(kind, ctx, p, i, a))
  }

  function PerAlert(kind: Kind, ctx: Context, p: Params, alerts: seq<Alert>): Records
    requires Ready(kind, p)
  {
    if alerts == [] then Empty
    else
      var n := |alerts| - 1;
      Handle(PerAlert(kind, ctx, p, alerts[..n]), kind, ctx, p, n, alerts[n])
  }

  function Omitted(kind: Kind, p: Params): set<string> {
    if kind.MissingEscalationFile? && p.omitEscalations then {"escalations"} else {}
  }

  function AlertScenario(kind: Kind, ctx: Context, p: Params, alerts: seq<Alert>): Result<Records> {
    var selected := Selected(kind, p, alerts);
    if selected != [] && !Ready(kind, p) then Raised(KeyError)
    else if selected == [] then Ok(Empty.(omitted := Omitted(kind, p)))
    else Ok(PerAlert(kind, ctx, p, selected).(omitted := Omitted(kind, p)))
  }

  // ---- The silent assets ----

  /** The candidate ids with an index below n. */
  function Passed(prefix: string, n: nat): set<string> {
    set k | 0 <= k < n :: Numbered(prefix, k)
  }

  /** How many taken ids lie ahead of the candidate n. */
  ghost function Ahead(prefix: string, existing: set<string>, n: nat): nat {
    |existing - Passed(prefix, n)|
  }

  lemma {:induction false} NotPassed(prefix: string, n: nat)
    ensures Numbered(prefix, n) !in Passed(prefix, n)
  {
    forall k | 0 <= k < n ensures Numbered(prefix, k) != Numbered(prefix, n) {
      if Numbered(prefix, k) == Numbered(prefix, n) {
        NumberedInjective(prefix, k, prefix, n);
      }
    }
  }

  /** Passing a taken candidate leaves fewer taken ids ahead: the measure of the loop. */
  lemma {:induction false} PassedNext(prefix: string, n: nat, existing: set<string>)
    requires Numbered(prefix, n) in existing
    ensures Ahead(prefix, existing, n + 1) < Ahead(prefix, existing, n)
  {
    NotPassed(prefix, n);
    var before, after := existing - Passed(prefix, n), existing - Passed(prefix, n + 1);
    assert after <= before;
    assert Numbered(prefix, n) in before && Numbered(prefix, n) !in after;
    FewerMembers(after, before, Numbered(prefix, n));
  }

  lemma {:induction false} FewerMembers<T>(a: set<T>, b: set<T>, x: T)
    requires a <= b && x in b && x !in a
    ensures |a| < |b|
  {
    assert a <= b - {x};
    Subset(a, b - {x});
  }

  lemma {:induction false} Subset<T>(a: set<T>, b: set<T>)
    requires a <= b
    ensures |a| <= |b|
  {
    assert b == a + (b - a);
  }

  function SilentPrefix(ctx: Context): string {
    ctx.scenario + "-silent-asset"
  }

  /** The first indices from i on whose ids are free, `count` of them. */
  function FreeIndices(prefix: string, existing: set<string>, i: nat, count: int): seq<nat>
    decreases if count < 0 then 0 else count, Ahead(prefix, existing, i)
  {
    if count <= 0 then []
    else if Numbered(prefix, i) in existing then
      PassedNext(prefix, i, existing);
      FreeIndices(prefix, existing, i + 1, count)
    else
      [i] + FreeIndices(prefix, existing, i + 1, count - 1)
  }

  function AssetsAt(ctx: Context, criticality: string, indices: seq<nat>): seq<Asset> {
    if indices == [] then []
    else AssetsAt(ctx, criticality, indices[..|indices| - 1])
         + [Asset(Numbered(SilentPrefix(ctx), indices[|indices| - 1]), criticality, ctx)]
  }

  /** The index at which the search for `count` free ids that starts at i ends. */
  function SearchEnd(prefix: string, existing: set<string>, i: nat, count: int): (end: nat)
    ensures end >= i + if count > 0 then count else 0
    decreases if count < 0 then 0 else count, Ahead(prefix, existing, i)
  {
    if count <= 0 then i
    else if Numbered(prefix, i) in existing then
      PassedNext(prefix, i, existing);
      SearchEnd(prefix, existing, i + 1, count)
    else SearchEnd(prefix, existing, i + 1, count - 1)
  }

  /** A search that has come to index i with `left` ids to find, having found those at `done`. */
  ghost predicate Progress(prefix: string, existing: set<string>, all: seq<nat>, end: nat, i: nat, left: int,
                           done: seq<nat>) {
    all == done + FreeIndices(prefix, existing, i, left) && end == SearchEnd(prefix, existing, i, left)
  }

  lemma {:induction false} ProgressSkip(prefix: string, existing: set<string>, all: seq<nat>, end: nat, i: nat,
                                        left: int, done: seq<nat>)
    requires Progress(prefix, existing, all, end, i, left, done) && left > 0 && Numbered(prefix, i) in existing
    ensures Progress(prefix, existing, all, end, i + 1, left, done) && i < end
  {
  }

  lemma {:induction false} ProgressTake(prefix: string, existing: set<string>, all: seq<nat>, end: nat, i: nat,
                                        left: int, done: seq<nat>)
    requires Progress(prefix, existing, all, end, i, left, done) && left > 0 && Numbered(prefix, i) !in existing
    ensures Progress(prefix, existing, all, end, i + 1, left - 1, done + [i]) && i < end
  {
    var rest := FreeIndices(prefix, existing, i + 1, left - 1);
    assert done + ([i] + rest) == (done + [i]) + rest;
  }

  lemma {:induction false} ProgressEnd(prefix: string, existing: set<string>, all: seq<nat>, end: nat, i: nat,
                                       left: int, done: seq<nat>)
    requires Progress(prefix, existing, all, end, i, left, done) && left <= 0
    ensures all == done
  {
  }

  lemma {:induction false} AssetsNext(ctx: Context, criticality: string, done: seq<nat>, i: nat)
    ensures AssetsAt(ctx, criticality, done + [i])
            == AssetsAt(ctx, criticality, done) + [Asset(Numbered(SilentPrefix(ctx), i), criticality, ctx)]
  {
    assert (done + [i])[..|done|] == done;
  }

  function SilentAssets(ctx: Context, p: Params, alerts: seq<Alert>, existing: set<string>): Records {
    Empty.(alertsUsed := alerts,
           extraAssets := AssetsAt(ctx, Or(p.silentCriticality, "critical"),
                                   FreeIndices(SilentPrefix(ctx), existing, 0, Or(p.silentCount, 3))))
  }

  // ---- The template investigations ----

  function TemplatePace(p: Params): real
    requires p.closeMin.Some? && p.closeMax.Some?
  {
    Pace(p.closeMin.value, p.closeMax.value, 3000.0)
  }

  function TemplateClosed(p: Params, a: Alert): real
    requires p.closeMin.Some? && p.closeMax.Some?
  {
    a.createdAt + 60.0 + TemplatePace(p)
  }

  function TemplateAlert(p: Params, i: nat, a: Alert): Alert
    requires p.closeMin.Some? && p.closeMax.Some?
  {
    a.(id := Numbered(a.id, i), acknowledgedAt := Some(a.createdAt + 60.0), closedAt := Some(TemplateClosed(p, a)))
  }

  function TemplateCase(ctx: Context, p: Params, i: nat, a: Alert): Case
    requires p.closeMin.Some? && p.closeMax.Some?
  {
    NewCase(CaseId(ctx, i), a.createdAt + 60.0, TemplateClosed(p, a), [Numbered(a.id, i)], ctx)
  }

  function TemplateStep(ctx: Context, p: Params, i: nat, a: Alert): Step {
    NewStep(CaseId(ctx, i), Or(p.templateAction, "triage"), a.createdAt + 160.0, 1,
         Or(p.templateAnalyst, "shared-queue-analyst"), Or(p.templateNote, "reviewed, no action needed"), ctx)
  }

  function HandleTemplate(r: Records, ctx: Context, p: Params, i: nat, a: Alert): Records
    requires p.closeMin.Some? && p.closeMax.Some?
  {
    Add(r, TemplateAlert(p, i, a), TemplateCase(ctx, p, i, a), [TemplateStep(ctx, p, i, a)], [],
        NewDisposition(Numbered(a.id, i), CaseId(ctx, i), TemplateClosed(p, a), "true_positive", ctx))
  }

  function Templates(ctx: Context, p: Params, alerts: seq<Alert>, n: nat): Records
    requires alerts != [] && p.closeMin.Some? && p.closeMax.Some?
  {
    if n == 0 then Empty
    else HandleTemplate(Templates(ctx, p, alerts, n - 1), ctx, p, n - 1, alerts[(n - 1) % |alerts|])
  }

  function TemplateScenario(ctx: Context, p: Params, alerts: seq<Alert>): Result<Records> {
    var n := Or(p.minSteps, 6);
    if alerts == [] || n <= 0 then Ok(Empty)
    else if p.closeMin.None? || p.closeMax.None? then Raised(KeyError)
    else Ok(Templates(ctx, p, alerts, n))
  }

  // ---- The recurring alerts ----

  function RecurringId(ctx: Context, k: nat): string {
    Numbered(ctx.scenario + "-recur-alert", k)
  }

  function RecurringAlert(ctx: Context, alerts: seq<Alert>, k: nat): Alert
    requires alerts != []
  {
    var created := alerts[0].createdAt + 600.0 * k as real;
    alerts[k % |alerts|].(id := RecurringId(ctx, k), createdAt := created, acknowledgedAt := Some(created + 60.0),
                          closedAt := Some(created + SafeSlowClosure), caseIds := [CaseId(ctx, 0)])
  }

  function RecurringAlerts(ctx: Context, alerts: seq<Alert>, n: nat): (r: seq<Alert>)
    requires alerts != []
    ensures |r| == n
  {
    if n == 0 then [] else RecurringAlerts(ctx, alerts, n - 1) + [RecurringAlert(ctx, alerts, n - 1)]
  }

  lemma {:induction false} RecurringAt(ctx: Context, alerts: seq<Alert>, n: nat, k: nat)
    requires alerts != [] && k < n
    ensures RecurringAlerts(ctx, alerts, n)[k] == RecurringAlert(ctx, alerts, k)
  {
    if k < n - 1 {
      RecurringAt(ctx, alerts, n - 1, k);
    }
  }

  lemma {:induction false} RecurringClosed(ctx: Context, alerts: seq<Alert>, n: nat)
    requires alerts != []
    ensures forall k :: 0 <= k < n ==> RecurringAlerts(ctx, alerts, n)[k].closedAt.Some?
  {
    forall k | 0 <= k < n ensures RecurringAlerts(ctx, alerts, n)[k].closedAt.Some? {
      RecurringAt(ctx, alerts, n, k);
    }
  }

  function Ids(alerts: seq<Alert>): (r: seq<string>)
    ensures |r| == |alerts| && forall k :: 0 <= k < |alerts| ==> r[k] == alerts[k].id
  {
    if alerts == [] then [] else Ids(alerts[..|alerts| - 1]) + [alerts[|alerts| - 1].id]
  }

  function RecurringDispositions(ctx: Context, outcome: string, used: seq<Alert>): (r: seq<Disposition>)
    requires forall k :: 0 <= k < |used| ==> used[k].closedAt.Some?
    ensures |r| == |used|
    ensures forall k :: 0 <= k < |used| ==>
              r[k] == NewDisposition(used[k].id, CaseId(ctx, 0), used[k].closedAt.value, outcome, ctx)
  {
    if used == [] then []
    else
      var n := |used| - 1;
      RecurringDispositions(ctx, outcome, used[..n])
      + [NewDisposition(used[n].id, CaseId(ctx, 0), used[n].closedAt.value, outcome, ctx)]
  }

  /** One case for all the alerts, closed with the last of them. */
  function Absorb(ctx: Context, p: Params, openedAt: real, used: seq<Alert>): Records
    requires used != [] && forall k :: 0 <= k < |used| ==> used[k].closedAt.Some?
  {
    Empty.(alertsUsed := used,
           cases := [NewCase(CaseId(ctx, 0), openedAt, used[|used| - 1].closedAt.value, Ids(used), ctx)],
           dispositions := RecurringDispositions(ctx, Or(p.outcome, "benign"), used))
  }

  function Recurring(ctx: Context, p: Params, alerts: seq<Alert>, n: nat): Records
    requires alerts != [] && n > 0
  {
    RecurringClosed(ctx, alerts, n);
    Absorb(ctx, p, alerts[0].createdAt, RecurringAlerts(ctx, alerts, n))
  }

  function RecurringScenario(ctx: Context, p: Params, alerts: seq<Alert>): Result<Records> {
    var n := Or(p.recurrence, 4);
    if alerts == [] then Ok(Empty)
    else if n <= 0 then Raised(IndexError)
    else Ok(Recurring(ctx, p, alerts, n))
  }

  // ---- Dispatch ----

  datatype Policy = Policy(version: string, scenarios: seq<(string, Params)>)

  /** The first scenario of that name. */
  function GetScenario(policy: Policy, name: string): Option<Params> {
    FirstNamed(policy.scenarios, name)
  }

  function FirstNamed(scenarios: seq<(string, Params)>, name: string): Option<Params> {
    if scenarios == [] then None
    else if scenarios[0].0 == name then Some(scenarios[0].1)
    else FirstNamed(scenarios[1..], name)
  }

  function KindNamed(name: string): Option<Kind> {
    if name == "healthy_control" then Some(HealthyControl)
    else if name == "fast_closure" then Some(FastClosure)
    else if name == "no_escalation" then Some(NoEscalation)
    else if name == "ack_no_investigation" then Some(AckNoInvestigation)
    else if name == "missing_investigation" then Some(MissingInvestigation)
    else if name == "missing_escalation_file" then Some(MissingEscalationFile)
    else if name == "low_activity" then Some(LowActivity)
    else if name == "peer_outlier" then Some(PeerOutlier)
    else if name == "multi_signal" then Some(MultiSignal)
    else None
  }

  function Run(name: string, ctx: Context, p: Params, alerts: seq<Alert>, existing: set<string>): Result<Records> {
    if KindNamed(name).Some? then AlertScenario(KindNamed(name).value, ctx, p, alerts)
    else if name == "silent_critical_asset" then Ok(SilentAssets(ctx, p, alerts, existing))
    else if name == "template_investigation" then TemplateScenario(ctx, p, alerts)
    else if name == "recurring_no_remediation" then RecurringScenario(ctx, p, alerts)
    else Raised(KeyError)
  }

  function Generate(policy: Policy, name: string, dataset: string, alerts: seq<Alert>,
                    existing: set<string>): Result<Records> {
    match GetScenario(policy, name)
    case None => Raised(KeyError)
    case Some(p) => Run(name, Context(name, dataset, policy.version), p, alerts, existing)
  }

  function GeneratePeer(policy: Policy, peerLabel: string, dataset: string, alerts: seq<Alert>): Result<Records> {
    match GetScenario(policy, "peer_outlier")
    case None => Raised(KeyError)
    case Some(p) => AlertScenario(PeerEntity, Context("peer_outlier-" + peerLabel, dataset, policy.version), p, alerts)
  }
}
