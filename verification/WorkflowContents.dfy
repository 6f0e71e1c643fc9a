/**
  * What the bundles of public_benchmarks/workflow_augmentation/generator.py hold: which alerts are handled, which of
  * them are escalated, and which steps each case gets.
  */
module WorkflowContents {
  import opened Counting
  import opened Numbering
  import opened WorkflowModel
  import opened WorkflowIntegrity

  // ---- Which alerts are handled ----

  /** The severities that a scenario works on; it takes every alert when there are none here. */
  function SeveritiesOf(kind: Kind): set<string> {
    match kind
    case FastClosure => {"critical"}
    case NoEscalation => {"critical"}
    case MissingEscalationFile => {"critical"}
    case MultiSignal => {"critical"}
    case PeerOutlier => {"critical", "high"}
    case PeerEntity => {"critical", "high"}
    case AckNoInvestigation => {"critical", "high", "medium"}
    case _ => {}
  }

  predicate Wanted(kind: Kind, a: Alert) {
    SeveritiesOf(kind) == {} || a.severity in SeveritiesOf(kind)
  }

  lemma {:induction false} WantedExactly(kind: Kind, a: Alert)
    ensures Selects(kind, a) <==> Wanted(kind, a)
  {
    match kind
    case HealthyControl =>
    case MissingInvestigation =>
    case LowActivity =>
    case _ => assert "critical" in SeveritiesOf(kind);
  }

  function WantedBy(kind: Kind): Alert -> bool {
    (a: Alert) => Wanted(kind, a)
  }

  lemma {:induction false} PickedIsFilter(kind: Kind, alerts: seq<Alert>)
    ensures Picked(kind, alerts) == Filter(alerts, WantedBy(kind))
  {
    if alerts != [] {
      PickedIsFilter(kind, alerts[..|alerts| - 1]);
      WantedExactly(kind, alerts[|alerts| - 1]);
    }
  }

  /** low_activity takes the first alerts, every other scenario those of its severities, in order. */
  lemma {:induction false} SelectedExactly(kind: Kind, p: Params, alerts: seq<Alert>)
    ensures !kind.LowActivity? ==> Selected(kind, p, alerts) == Filter(alerts, WantedBy(kind))
    ensures kind.LowActivity? && 0 <= Or(p.maxAlerts, 2) <= |alerts| ==>
              Selected(kind, p, alerts) == alerts[..Or(p.maxAlerts, 2)]
    ensures kind.LowActivity? && Or(p.maxAlerts, 2) > |alerts| ==> Selected(kind, p, alerts) == alerts
  {
    PickedIsFilter(kind, alerts);
    assert alerts[..|alerts|] == alerts;
  }

  // ---- Which alerts are escalated ----

  /** healthy_control, missing_investigation and the peers escalate the severities of the policy, the others none. */
  ghost predicate MustEscalate(kind: Kind, p: Params, a: Alert) {
    && kind in {HealthyControl, MissingInvestigation, PeerOutlier, PeerEntity}
    && exists list :: p.escalate == Some(list) && a.severity in list
  }

  lemma {:induction false} EscalatesExactly(kind: Kind, p: Params, a: Alert)
    ensures Escalates(kind, p, a) <==> MustEscalate(kind, p, a)
  {
    if Escalates(kind, p, a) {
      assert p.escalate == Some(p.escalate.value);
    }
  }

  /** The escalation of the i-th handled alert. */
  ghost predicate EscalationAt(kind: Kind, ctx: Context, p: Params, alerts: seq<Alert>, i: nat, e: Escalation)
    requires Ready(kind, p)
  {
    && i < |alerts| && MustEscalate(kind, p, alerts[i])
    && e == Escalation(alerts[i].id, CaseId(ctx, i), EscalatedAt(kind, p, alerts[i]), "soc-l2", "severity",
                       "acknowledged", ctx)
  }

  ghost predicate SomeEscalation(kind: Kind, ctx: Context, p: Params, alerts: seq<Alert>, e: Escalation)
    requires Ready(kind, p)
  {
    exists i :: EscalationAt(kind, ctx, p, alerts, i, e)
  }

  lemma {:induction false} OneMoreEscalation(kind: Kind, ctx: Context, p: Params, alerts: seq<Alert>, e: Escalation)
    requires Ready(kind, p) && alerts != []
    ensures SomeEscalation(kind, ctx, p, alerts, e) <==>
              SomeEscalation(kind, ctx, p, alerts[..|alerts| - 1], e)
              || EscalationAt(kind, ctx, p, alerts, |alerts| - 1, e)
  {
    var init := alerts[..|alerts| - 1];
    if i: nat :| EscalationAt(kind, ctx, p, alerts, i, e) {
      assert i < |init| ==> EscalationAt(kind, ctx, p, init, i, e);
    }
    if i: nat :| EscalationAt(kind, ctx, p, init, i, e) {
      assert EscalationAt(kind, ctx, p, alerts, i, e);
    }
  }

  lemma {:induction false} LastEscalation(kind: Kind, ctx: Context, p: Params, alerts: seq<Alert>, e: Escalation)
    requires Ready(kind, p) && alerts != []
    ensures var n := |alerts| - 1;
            e in EscalationsOf(kind, ctx, p, n, alerts[n]) <==> EscalationAt(kind, ctx, p, alerts, n, e)
  {
    EscalatesExactly(kind, p, alerts[|alerts| - 1]);
  }

  lemma {:induction false} PerAlertEscalations(kind: Kind, ctx: Context, p: Params, alerts: seq<Alert>, e: Escalation)
    requires Ready(kind, p)
    ensures e in PerAlert(kind, ctx, p, alerts).escalations <==> SomeEscalation(kind, ctx, p, alerts, e)
  {
    if alerts != [] {
      var n := |alerts| - 1;
      PerAlertEscalations(kind, ctx, p, alerts[..n], e);
      OneMoreEscalation(kind, ctx, p, alerts, e);
      LastEscalation(kind, ctx, p, alerts, e);
      HandledEscalations(kind, ctx, p, alerts);
    }
  }

  lemma {:induction false} HandledEscalations(kind: Kind, ctx: Context, p: Params, alerts: seq<Alert>)
    requires Ready(kind, p) && alerts != []
    ensures var n := |alerts| - 1;
            PerAlert(kind, ctx, p, alerts).escalations
            == PerAlert(kind, ctx, p, alerts[..n]).escalations + EscalationsOf(kind, ctx, p, n, alerts[n])
  {
  }

  /** The escalations of a bundle, one for each handled alert that must have one. */
  lemma {:induction false} EscalationsExactly(kind: Kind, ctx: Context, p: Params, alerts: seq<Alert>, e: Escalation)
    requires AlertScenario(kind, ctx, p, alerts).Ok?
    ensures var selected := Selected(kind, p, alerts);
            e in AlertScenario(kind, ctx, p, alerts).value.escalations <==>
              selected != [] && SomeEscalation(kind, ctx, p, selected, e)
  {
    if Selected(kind, p, alerts) != [] {
      PerAlertEscalations(kind, ctx, p, Selected(kind, p, alerts), e);
    }
  }

  ghost predicate IsEscalated(r: Records, id: string) {
    exists e :: e in r.escalations && e.alertId == id
  }

  /** The scenarios by name, and the severities of theirs that the policy lists. */
  ghost predicate NamedEscalation(name: string, p: Params, severity: string) {
    && name in {"healthy_control", "missing_investigation", "peer_outlier"}
    && (name == "peer_outlier" ==> severity in {"critical", "high"})
    && exists list :: p.escalate == Some(list) && severity in list
  }

  lemma {:induction false} NamedKinds(name: string)
    requires KindNamed(name).Some?
    ensures var kind := KindNamed(name).value;
            && (kind in {HealthyControl, MissingInvestigation, PeerOutlier, PeerEntity} <==>
                  name in {"healthy_control", "missing_investigation", "peer_outlier"})
            && (kind.PeerOutlier? <==> name == "peer_outlier") && !kind.PeerEntity?
            && (name in {"healthy_control", "missing_investigation"} ==> SeveritiesOf(kind) == {})
            && (kind.LowActivity? ==> name == "low_activity")
  {
  }

  lemma {:induction false} SelectedHolds(kind: Kind, p: Params, alerts: seq<Alert>, a: Alert)
    requires !kind.LowActivity?
    ensures a in Selected(kind, p, alerts) <==> a in alerts && Wanted(kind, a)
  {
    SelectedExactly(kind, p, alerts);
  }

  lemma {:induction false} SelectedCome(kind: Kind, p: Params, alerts: seq<Alert>, a: Alert)
    requires a in Selected(kind, p, alerts)
    ensures a in alerts
  {
    PickedIsFilter(kind, alerts);
  }

  lemma {:induction false} SameAlert(alerts: seq<Alert>, a: Alert, b: Alert)
    requires DistinctAlerts(alerts) && a in alerts && b in alerts && a.id == b.id
    ensures a == b
  {
    var i, j :| 0 <= i < |alerts| && alerts[i] == a && 0 <= j < |alerts| && alerts[j] == b;
  }

  lemma {:induction false} EscalatedAlert(kind: Kind, ctx: Context, p: Params, alerts: seq<Alert>, a: Alert)
    requires DistinctAlerts(alerts) && AlertScenario(kind, ctx, p, alerts).Ok? && a in alerts
    ensures IsEscalated(AlertScenario(kind, ctx, p, alerts).value, a.id) <==>
              a in Selected(kind, p, alerts) && MustEscalate(kind, p, a)
  {
    var r, selected := AlertScenario(kind, ctx, p, alerts).value, Selected(kind, p, alerts);
    if e :| e in r.escalations && e.alertId == a.id {
      EscalationsExactly(kind, ctx, p, alerts, e);
      var i: nat :| EscalationAt(kind, ctx, p, selected, i, e);
      SelectedCome(kind, p, alerts, selected[i]);
      SameAlert(alerts, a, selected[i]);
    }
    if a in selected && MustEscalate(kind, p, a) {
      EscalationOfAlert(kind, ctx, p, alerts, a);
    }
  }

  lemma {:induction false} EscalationOfAlert(kind: Kind, ctx: Context, p: Params, alerts: seq<Alert>, a: Alert)
    requires AlertScenario(kind, ctx, p, alerts).Ok? && a in Selected(kind, p, alerts) && MustEscalate(kind, p, a)
    ensures IsEscalated(AlertScenario(kind, ctx, p, alerts).value, a.id)
  {
    var selected := Selected(kind, p, alerts);
    var i :| 0 <= i < |selected| && selected[i] == a;
    var e := Escalation(a.id, CaseId(ctx, i), EscalatedAt(kind, p, a), "soc-l2", "severity", "acknowledged", ctx);
    EscalationsExactly(kind, ctx, p, alerts, e);
    assert EscalationAt(kind, ctx, p, selected, i, e);
  }

  lemma {:induction false} TemplatesEscalateNothing(ctx: Context, p: Params, alerts: seq<Alert>, n: nat)
    requires alerts != [] && p.closeMin.Some? && p.closeMax.Some?
    ensures Templates(ctx, p, alerts, n).escalations == []
  {
    if n > 0 {
      TemplatesEscalateNothing(ctx, p, alerts, n - 1);
    }
  }

  lemma {:induction false} KindEscalates(name: string, kind: Kind, p: Params, alerts: seq<Alert>, a: Alert)
    requires KindNamed(name) == Some(kind) && a in alerts
    ensures a in Selected(kind, p, alerts) && MustEscalate(kind, p, a) <==> NamedEscalation(name, p, a.severity)
  {
    NamedKinds(name);
    if !kind.LowActivity? {
      SelectedHolds(kind, p, alerts, a);
    }
  }

  lemma {:induction false} OthersEscalateNothing(name: string, ctx: Context, p: Params, alerts: seq<Alert>,
                                                 existing: set<string>)
    requires KindNamed(name).None? && Run(name, ctx, p, alerts, existing).Ok?
    ensures Run(name, ctx, p, alerts, existing).value.escalations == []
  {
    if name == "template_investigation" && alerts != [] && Or(p.minSteps, 6) > 0 {
      TemplatesEscalateNothing(ctx, p, alerts, Or(p.minSteps, 6));
    }
  }

  lemma {:induction false} EscalatingNames(name: string)
    requires name in {"healthy_control", "missing_investigation", "peer_outlier"}
    ensures KindNamed(name).Some?
  {
  }

  /** In any returned bundle exactly these input alerts are escalated. */
  lemma {:induction false} WhoIsEscalated(name: string, ctx: Context, p: Params, alerts: seq<Alert>,
                                          existing: set<string>, a: Alert)
    requires DistinctAlerts(alerts) && Run(name, ctx, p, alerts, existing).Ok? && a in alerts
    ensures IsEscalated(Run(name, ctx, p, alerts, existing).value, a.id) <==> NamedEscalation(name, p, a.severity)
  {
    if KindNamed(name).Some? {
      EscalatedAlert(KindNamed(name).value, ctx, p, alerts, a);
      KindEscalates(name, KindNamed(name).value, p, alerts, a);
    } else {
      OthersEscalateNothing(name, ctx, p, alerts, existing);
      if NamedEscalation(name, p, a.severity) {
        EscalatingNames(name);
      }
    }
  }

  // ---- Which steps a case gets ----

  /** One triage for acknowledged alerts, nothing where the investigation is missing, else the list of the policy. */
  function StepsWanted(kind: Kind, p: Params): seq<string> {
    if kind.AckNoInvestigation? then ["triage"]
    else if kind.MissingInvestigation? then []
    else Or(p.steps, [])
  }

  /** The j-th step of the case of the i-th handled alert, counted from zero. */
  ghost predicate StepAt(kind: Kind, ctx: Context, p: Params, alerts: seq<Alert>, i: nat, j: nat, s: Step) {
    && i < |alerts| && j < |StepsWanted(kind, p)|
    && s.caseId == CaseId(ctx, i) && s.action == StepsWanted(kind, p)[j] && s.sequence == j + 1
    && s.performedAt == Opened(kind, alerts[i]) + StepDelay(kind, j + 1)
    && s.analyst == "benchmark-analyst" && s.note == StepNote(kind, s.action) && s.evidenceIds == [] && s.tag == ctx
  }

  ghost predicate SomeStepAt(kind: Kind, ctx: Context, p: Params, alerts: seq<Alert>, i: nat, s: Step) {
    exists j :: StepAt(kind, ctx, p, alerts, i, j, s)
  }

  ghost predicate SomeStep(kind: Kind, ctx: Context, p: Params, alerts: seq<Alert>, s: Step) {
    exists i :: SomeStepAt(kind, ctx, p, alerts, i, s)
  }

  /** The step types with their positions, counted from one. */
  function Positioned(types: seq<string>): (r: seq<(string, nat)>)
    ensures |r| == |types| && forall j :: 0 <= j < |types| ==> r[j] == (types[j], j + 1)
  {
    seq(|types|, j requires 0 <= j < |types| => (types[j], j + 1))
  }

  function StepMaker(kind: Kind, ctx: Context, i: nat, a: Alert): ((string, nat)) -> Step {
    (t: (string, nat)) => StepOf(kind, ctx, i, a, t.0, t.1)
  }

  lemma {:induction false} StepsMapped(kind: Kind, ctx: Context, i: nat, a: Alert, types: seq<string>,
                                       make: ((string, nat)) -> Step)
    requires make == StepMaker(kind, ctx, i, a)
    ensures StepsOf(kind, ctx, i, a, types) == Mapped(make, Positioned(types))
  {
    if types != [] {
      var n := |types| - 1;
      StepsMapped(kind, ctx, i, a, types[..n], make);
      assert Positioned(types)[..n] == Positioned(types[..n]);
      assert make((types[n], n + 1)) == StepOf(kind, ctx, i, a, types[n], n + 1);
    }
  }

  function Mapped<T, U>(f: T -> U, s: seq<T>): (r: seq<U>)
    ensures |r| == |s| && forall j :: 0 <= j < |s| ==> r[j] == f(s[j])
  {
    if s == [] then [] else Mapped(f, s[..|s| - 1]) + [f(s[|s| - 1])]
  }

  lemma {:induction false} StepsIndexed(kind: Kind, ctx: Context, i: nat, a: Alert, types: seq<string>, j: nat)
    requires j < |types|
    ensures |StepsOf(kind, ctx, i, a, types)| == |types|
    ensures StepsOf(kind, ctx, i, a, types)[j] == StepOf(kind, ctx, i, a, types[j], j + 1)
  {
    var make := StepMaker(kind, ctx, i, a);
    StepsMapped(kind, ctx, i, a, types, make);
    assert make(Positioned(types)[j]) == StepOf(kind, ctx, i, a, types[j], j + 1);
  }

  lemma {:induction false} StepsCount(kind: Kind, ctx: Context, i: nat, a: Alert, types: seq<string>)
    ensures |StepsOf(kind, ctx, i, a, types)| == |types|
  {
    if types != [] {
      StepsCount(kind, ctx, i, a, types[..|types| - 1]);
    }
  }

  lemma {:induction false} WantedSteps(kind: Kind, p: Params)
    requires Ready(kind, p)
    ensures StepTypes(kind, p) == StepsWanted(kind, p)
  {
  }

  lemma {:induction false} StepIs(kind: Kind, ctx: Context, p: Params, alerts: seq<Alert>, i: nat, j: nat, s: Step)
    requires i < |alerts| && j < |StepsWanted(kind, p)|
    ensures s == StepOf(kind, ctx, i, alerts[i], StepsWanted(kind, p)[j], j + 1) <==>
              StepAt(kind, ctx, p, alerts, i, j, s)
  {
  }

  lemma {:induction false} LastSteps(kind: Kind, ctx: Context, p: Params, alerts: seq<Alert>, s: Step)
    requires Ready(kind, p) && alerts != []
    ensures var n := |alerts| - 1;
            s in StepsOf(kind, ctx, n, alerts[n], StepTypes(kind, p)) <==> SomeStepAt(kind, ctx, p, alerts, n, s)
  {
    var n, types := |alerts| - 1, StepsWanted(kind, p);
    var steps := StepsOf(kind, ctx, n, alerts[n], types);
    WantedSteps(kind, p);
    StepsCount(kind, ctx, n, alerts[n], types);
    forall j | 0 <= j < |types| ensures steps[j] == s <==> StepAt(kind, ctx, p, alerts, n, j, s) {
      StepsIndexed(kind, ctx, n, alerts[n], types, j);
      StepIs(kind, ctx, p, alerts, n, j, s);
    }
    if j: nat :| StepAt(kind, ctx, p, alerts, n, j, s) {
      assert steps[j] == s;
    }
  }

  lemma {:induction false} MoreSteps(kind: Kind, ctx: Context, p: Params, alerts: seq<Alert>, s: Step)
    requires alerts != []
    ensures SomeStep(kind, ctx, p, alerts, s) <==>
              SomeStep(kind, ctx, p, alerts[..|alerts| - 1], s)
              || SomeStepAt(kind, ctx, p, alerts, |alerts| - 1, s)
  {
    var init := alerts[..|alerts| - 1];
    if i: nat :| SomeStepAt(kind, ctx, p, alerts, i, s) {
      var j: nat :| StepAt(kind, ctx, p, alerts, i, j, s);
      if i < |init| {
        assert StepAt(kind, ctx, p, init, i, j, s);
        assert SomeStepAt(kind, ctx, p, init, i, s);
      }
    }
    if i: nat :| SomeStepAt(kind, ctx, p, init, i, s) {
      var j: nat :| StepAt(kind, ctx, p, init, i, j, s);
      assert StepAt(kind, ctx, p, alerts, i, j, s);
      assert SomeStepAt(kind, ctx, p, alerts, i, s);
    }
  }

  lemma {:induction false} HandledSteps(kind: Kind, ctx: Context, p: Params, alerts: seq<Alert>)
    requires Ready(kind, p) && alerts != []
    ensures var n := |alerts| - 1;
            PerAlert(kind, ctx, p, alerts).steps
            == PerAlert(kind, ctx, p, alerts[..n]).steps + StepsOf(kind, ctx, n, alerts[n], StepTypes(kind, p))
  {
  }

  lemma {:induction false} PerAlertSteps(kind: Kind, ctx: Context, p: Params, alerts: seq<Alert>, s: Step)
    requires Ready(kind, p)
    ensures s in PerAlert(kind, ctx, p, alerts).steps <==> SomeStep(kind, ctx, p, alerts, s)
  {
    if alerts != [] {
      PerAlertSteps(kind, ctx, p, alerts[..|alerts| - 1], s);
      MoreSteps(kind, ctx, p, alerts, s);
      LastSteps(kind, ctx, p, alerts, s);
      HandledSteps(kind, ctx, p, alerts);
    }
  }

  lemma {:induction false} PerAlertStepCount(kind: Kind, ctx: Context, p: Params, alerts: seq<Alert>)
    requires Ready(kind, p)
    ensures |PerAlert(kind, ctx, p, alerts).steps| == |alerts| * |StepsWanted(kind, p)|
  {
    if alerts != [] {
      var n := |alerts| - 1;
      PerAlertStepCount(kind, ctx, p, alerts[..n]);
      HandledSteps(kind, ctx, p, alerts);
      WantedSteps(kind, p);
      StepsCount(kind, ctx, n, alerts[n], StepTypes(kind, p));
      Times(n, |StepsWanted(kind, p)|);
    }
  }

  lemma Times(n: nat, k: nat)
    ensures (n + 1) * k == n * k + k
  {
  }

  /** The steps of a bundle: the wanted ones of every handled alert, each once. */
  lemma {:induction false} StepsExactly(kind: Kind, ctx: Context, p: Params, alerts: seq<Alert>, s: Step)
    requires AlertScenario(kind, ctx, p, alerts).Ok?
    ensures var r, selected := AlertScenario(kind, ctx, p, alerts).value, Selected(kind, p, alerts);
            && (s in r.steps <==> SomeStep(kind, ctx, p, selected, s))
            && |r.steps| == |selected| * |StepsWanted(kind, p)|
  {
    if Selected(kind, p, alerts) != [] {
      PerAlertSteps(kind, ctx, p, Selected(kind, p, alerts), s);
      PerAlertStepCount(kind, ctx, p, Selected(kind, p, alerts));
    }
  }

  // ---- The alerts, cases and dispositions ----

  /** Seconds from the alert to its acknowledgement, if it gets one. */
  function AckSeconds(kind: Kind): Option<real> {
    if kind.MissingInvestigation? then None
    else if kind in {FastClosure, PeerOutlier, MultiSignal} then Some(5.0)
    else Some(60.0)
  }

  /** The handled alert keeps everything but its acknowledgement, its closing and, if it is acknowledged, its case. */
  ghost predicate HandledAs(kind: Kind, ctx: Context, p: Params, a: Alert, i: nat, used: Alert)
    requires Ready(kind, p)
  {
    && used.closedAt == Some(a.createdAt + CloseDelay(kind, p))
    && match AckSeconds(kind)
       case None => used == a.(acknowledgedAt := None, closedAt := used.closedAt)
       case Some(t) => used == a.(acknowledgedAt := Some(a.createdAt + t), closedAt := used.closedAt,
                                  caseIds := [CaseId(ctx, i)])
  }

  lemma {:induction false} HandledExactly(kind: Kind, ctx: Context, p: Params, alerts: seq<Alert>, i: nat)
    requires Ready(kind, p) && i < |alerts|
    ensures i < |PerAlert(kind, ctx, p, alerts).alertsUsed| == |alerts|
    ensures HandledAs(kind, ctx, p, alerts[i], i, PerAlert(kind, ctx, p, alerts).alertsUsed[i])
  {
    PerAlertUsed(kind, ctx, p, alerts);
    UsedIs(kind, ctx, p, i, alerts[i]);
  }

  lemma {:induction false} UsedIs(kind: Kind, ctx: Context, p: Params, i: nat, a: Alert)
    requires Ready(kind, p)
    ensures HandledAs(kind, ctx, p, a, i, Used(kind, ctx, p, i, a))
  {
  }

  predicate CaseClosed(c: Case, ctx: Context) {
    && c.status == "closed" && c.owner == "benchmark-analyst" && c.closureReason == "benchmark-generated"
    && c.tag == ctx
  }

  predicate DisposedAs(d: Disposition, outcome: string, ctx: Context) {
    d.outcome == outcome && d.reason == "benchmark-generated" && d.approverRole == "soc-lead" && d.tag == ctx
  }

  /** Every case is closed by the analyst, and every disposition has the outcome. */
  ghost predicate ClosedWith(r: Records, outcome: string, ctx: Context) {
    && (forall k :: 0 <= k < |r.cases| ==> CaseClosed(r.cases[k], ctx))
    && (forall k :: 0 <= k < |r.dispositions| ==> DisposedAs(r.dispositions[k], outcome, ctx))
  }

  lemma {:induction false} AddClosed(r: Records, used: Alert, c: Case, steps: seq<Step>, escalations: seq<Escalation>,
                                     d: Disposition, outcome: string, ctx: Context)
    requires ClosedWith(r, outcome, ctx) && CaseClosed(c, ctx) && DisposedAs(d, outcome, ctx)
    ensures ClosedWith(Add(r, used, c, steps, escalations, d), outcome, ctx)
  {
  }

  lemma {:induction false} PerAlertClosed(kind: Kind, ctx: Context, p: Params, alerts: seq<Alert>)
    requires Ready(kind, p)
    ensures ClosedWith(PerAlert(kind, ctx, p, alerts), "true_positive", ctx)
  {
    if alerts != [] {
      var n := |alerts| - 1;
      var a, r := alerts[n], PerAlert(kind, ctx, p, alerts[..n]);
      PerAlertClosed(kind, ctx, p, alerts[..n]);
      AddClosed(r, Used(kind, ctx, p, n, a), CaseOf(kind, ctx, p, n, a), StepsOf(kind, ctx, n, a, StepTypes(kind, p)),
                EscalationsOf(kind, ctx, p, n, a), DispositionOf(kind, ctx, p, n, a), "true_positive", ctx);
    }
  }

  lemma {:induction false} TemplatesClosed(ctx: Context, p: Params, alerts: seq<Alert>, n: nat)
    requires alerts != [] && p.closeMin.Some? && p.closeMax.Some?
    ensures ClosedWith(Templates(ctx, p, alerts, n), "true_positive", ctx)
  {
    if n > 0 {
      var a, i := alerts[(n - 1) % |alerts|], n - 1;
      TemplatesClosed(ctx, p, alerts, i);
      TemplateClosedWith(Templates(ctx, p, alerts, i), ctx, p, i, a);
    }
  }

  lemma {:induction false} TemplateClosedWith(r: Records, ctx: Context, p: Params, i: nat, a: Alert)
    requires p.closeMin.Some? && p.closeMax.Some? && ClosedWith(r, "true_positive", ctx)
    ensures ClosedWith(HandleTemplate(r, ctx, p, i, a), "true_positive", ctx)
  {
    var d := NewDisposition(Numbered(a.id, i), CaseId(ctx, i), TemplateClosed(p, a), "true_positive", ctx);
    AddClosed(r, TemplateAlert(p, i, a), TemplateCase(ctx, p, i, a), [TemplateStep(ctx, p, i, a)], [], d,
              "true_positive", ctx);
  }

  lemma {:induction false} RecurringClosedWith(ctx: Context, p: Params, alerts: seq<Alert>, n: nat)
    requires alerts != [] && n > 0
    ensures ClosedWith(Recurring(ctx, p, alerts, n), Or(p.outcome, "benign"), ctx)
  {
  }

  lemma {:induction false} AlertScenarioClosed(name: string, kind: Kind, ctx: Context, p: Params, alerts: seq<Alert>)
    requires KindNamed(name) == Some(kind) && AlertScenario(kind, ctx, p, alerts).Ok?
    ensures ClosedWith(AlertScenario(kind, ctx, p, alerts).value, "true_positive", ctx)
    ensures name != "recurring_no_remediation"
  {
    if Selected(kind, p, alerts) != [] {
      PerAlertClosed(kind, ctx, p, Selected(kind, p, alerts));
    }
  }

  /** In any returned bundle all cases are closed, as true positives but for the recurring alerts. */
  lemma {:induction false} OutcomesExactly(name: string, ctx: Context, p: Params, alerts: seq<Alert>,
                                           existing: set<string>)
    requires Run(name, ctx, p, alerts, existing).Ok?
    ensures ClosedWith(Run(name, ctx, p, alerts, existing).value,
                       if name == "recurring_no_remediation" then Or(p.outcome, "benign") else "true_positive", ctx)
  {
    if KindNamed(name).Some? {
      AlertScenarioClosed(name, KindNamed(name).value, ctx, p, alerts);
    } else if name == "template_investigation" && alerts != [] && Or(p.minSteps, 6) > 0 {
      TemplatesClosed(ctx, p, alerts, Or(p.minSteps, 6));
    } else if name == "recurring_no_remediation" && alerts != [] {
      RecurringClosedWith(ctx, p, alerts, Or(p.recurrence, 4));
    }
  }

  // ---- The template steps and the silent assets ----

  /** The one step of every template investigation is the same but for its case and its time. */
  predicate IsTemplateStep(s: Step, ctx: Context, p: Params, i: nat) {
    && s.caseId == CaseId(ctx, i) && s.sequence == 1 && s.evidenceIds == [] && s.tag == ctx
    && s.action == Or(p.templateAction, "triage") && s.analyst == Or(p.templateAnalyst, "shared-queue-analyst")
    && s.note == Or(p.templateNote, "reviewed, no action needed")
  }

  ghost predicate TemplateSteps(steps: seq<Step>, ctx: Context, p: Params, n: nat) {
    |steps| == n && forall i :: 0 <= i < n ==> IsTemplateStep(steps[i], ctx, p, i)
  }

  lemma {:induction false} TemplateStepsExactly(ctx: Context, p: Params, alerts: seq<Alert>, n: nat)
    requires alerts != [] && p.closeMin.Some? && p.closeMax.Some?
    ensures TemplateSteps(Templates(ctx, p, alerts, n).steps, ctx, p, n)
  {
    if n > 0 {
      TemplateStepsExactly(ctx, p, alerts, n - 1);
      assert IsTemplateStep(TemplateStep(ctx, p, n - 1, alerts[(n - 1) % |alerts|]), ctx, p, n - 1);
    }
  }

  /** The invented assets have the criticality asked for and ids under the scenario's own prefix. */
  ghost predicate InventedAs(assets: seq<Asset>, ctx: Context, criticality: string) {
    forall k :: 0 <= k < |assets| ==> assets[k].criticality == criticality && assets[k].tag == ctx
  }

  lemma {:induction false} AssetsInvented(ctx: Context, criticality: string, indices: seq<nat>)
    ensures InventedAs(AssetsAt(ctx, criticality, indices), ctx, criticality)
  {
    if indices != [] {
      AssetsInvented(ctx, criticality, indices[..|indices| - 1]);
    }
  }

  lemma {:induction false} SilentExactly(ctx: Context, p: Params, alerts: seq<Alert>, existing: set<string>)
    ensures var r := SilentAssets(ctx, p, alerts, existing);
            && r.alertsUsed == alerts && r.cases == [] && r.steps == [] && r.escalations == [] && r.dispositions == []
            && InventedAs(r.extraAssets, ctx, Or(p.silentCriticality, "critical"))
  {
    AssetsInvented(ctx, Or(p.silentCriticality, "critical"),
                   FreeIndices(SilentPrefix(ctx), existing, 0, Or(p.silentCount, 3)));
  }

  // ---- Which scenario a name finds ----

  /** The i-th scenario of the policy is the first one of that name. */
  ghost predicate IsFirst(scenarios: seq<(string, Params)>, name: string, i: int) {
    0 <= i < |scenarios| && scenarios[i].0 == name && forall j :: 0 <= j < i ==> scenarios[j].0 != name
  }

  lemma {:induction false} FirstNamedExactly(scenarios: seq<(string, Params)>, name: string)
    ensures FirstNamed(scenarios, name).None? <==> forall i :: 0 <= i < |scenarios| ==> scenarios[i].0 != name
    ensures forall i :: IsFirst(scenarios, name, i) ==> FirstNamed(scenarios, name) == Some(scenarios[i].1)
  {
    if scenarios != [] && scenarios[0].0 != name {
      var rest := scenarios[1..];
      FirstNamedExactly(rest, name);
      assert forall i :: 0 < i < |scenarios| ==> scenarios[i] == rest[i - 1];
      forall i | IsFirst(scenarios, name, i) ensures IsFirst(rest, name, i - 1) {
        assert forall j :: 0 <= j < i - 1 ==> rest[j] == scenarios[j + 1];
      }
    }
  }

  /** The twelve scenarios of the policy file are all implemented, and a request for any other name raises. */
  lemma {:induction false} KnownNames(name: string, ctx: Context, p: Params, existing: set<string>)
    ensures Run(name, ctx, p, [], existing).Ok? <==>
              name in {"healthy_control", "fast_closure", "no_escalation", "ack_no_investigation",
                       "missing_investigation", "missing_escalation_file", "silent_critical_asset", "low_activity",
                       "template_investigation", "recurring_no_remediation", "peer_outlier", "multi_signal"}
  {
  }
}
