/**
  * The times in a generated bundle, for any parameters and for those that
  * public_benchmarks/workflow_augmentation/policy.yaml declares: whether the fast-closure rule of
  * satsa/analysis/workers/fast_closure.py meets them, and whether they are in order.
  */
module ClosureTimes {
  import opened Counting
  import opened Numbering
  import opened WorkflowModel
  import opened WorkflowIntegrity

  // ---- The fast-closure rule ----

  function Threshold(severity: string): Option<real> {
    if severity == "critical" then Some(600.0)
    else if severity == "high" then Some(1800.0)
    else if severity == "medium" then Some(3600.0)
    else None
  }

  /** Between the absolute floor and the threshold of the severity. */
  predicate Qualifies(severity: string, seconds: real) {
    Threshold(severity).Some? && 30.0 <= seconds < Threshold(severity).value
  }

  predicate Flagged(a: Alert) {
    a.closedAt.Some? && Qualifies(a.severity, a.closedAt.value - a.createdAt)
  }

  /** The detector's state is "signal": at least one alert qualifies. */
  ghost predicate Signals(alerts: seq<Alert>) {
    exists k :: 0 <= k < |alerts| && Flagged(alerts[k])
  }

  /** Some alert qualifies if it is closed after so many seconds. */
  ghost predicate WouldSignal(alerts: seq<Alert>, seconds: real) {
    exists k :: 0 <= k < |alerts| && Qualifies(alerts[k].severity, seconds)
  }

  /**
    * Whether the detector signals on the bundle, told from the
    * input: which alerts are handled, and after how long closed.
    */
  ghost predicate InputSignals(name: string, p: Params, alerts: seq<Alert>) {
    match KindNamed(name)
    case Some(kind) => Ready(kind, p) && WouldSignal(Selected(kind, p, alerts), CloseDelay(kind, p))
    case None =>
      if name == "silent_critical_asset" then Signals(alerts)
      else
        name == "template_investigation" && Or(p.minSteps, 6) > 0 && p.closeMin.Some? && p.closeMax.Some?
        && WouldSignal(SliceTo(alerts, Or(p.minSteps, 6)), 60.0 + TemplatePace(p))
  }

  lemma {:induction false} UsedClosed(kind: Kind, ctx: Context, p: Params, i: nat, a: Alert)
    requires Ready(kind, p)
    ensures Flagged(Used(kind, ctx, p, i, a)) <==> Qualifies(a.severity, CloseDelay(kind, p))
  {
    assert Closed(kind, p, a) - a.createdAt == CloseDelay(kind, p);
  }

  lemma {:induction false} PerAlertSignals(kind: Kind, ctx: Context, p: Params, alerts: seq<Alert>)
    requires Ready(kind, p)
    ensures Signals(PerAlert(kind, ctx, p, alerts).alertsUsed) <==> WouldSignal(alerts, CloseDelay(kind, p))
  {
    PerAlertUsed(kind, ctx, p, alerts);
    var used := UsedAll(kind, ctx, p, alerts);
    forall k | 0 <= k < |alerts| ensures Flagged(used[k]) <==> Qualifies(alerts[k].severity, CloseDelay(kind, p)) {
      UsedClosed(kind, ctx, p, k, alerts[k]);
    }
  }

  lemma {:induction false} AlertScenarioSignals(kind: Kind, ctx: Context, p: Params, alerts: seq<Alert>)
    requires AlertScenario(kind, ctx, p, alerts).Ok?
    ensures Signals(AlertScenario(kind, ctx, p, alerts).value.alertsUsed)
            <==> Ready(kind, p) && WouldSignal(Selected(kind, p, alerts), CloseDelay(kind, p))
  {
    if Selected(kind, p, alerts) != [] {
      PerAlertSignals(kind, ctx, p, Selected(kind, p, alerts));
    }
  }

  lemma {:induction false} TemplateClosing(p: Params, i: nat, a: Alert)
    requires p.closeMin.Some? && p.closeMax.Some?
    ensures Flagged(TemplateAlert(p, i, a)) <==> Qualifies(a.severity, 60.0 + TemplatePace(p))
  {
    assert TemplateClosed(p, a) - a.createdAt == 60.0 + TemplatePace(p);
  }

  lemma {:induction false} TemplateAt(p: Params, alerts: seq<Alert>, n: nat, i: nat)
    requires alerts != [] && p.closeMin.Some? && p.closeMax.Some? && i < n
    ensures Flagged(TemplateAlerts(p, alerts, n)[i]) <==>
              Qualifies(alerts[i % |alerts|].severity, 60.0 + TemplatePace(p))
  {
    TemplateClosing(p, i, alerts[i % |alerts|]);
  }

  /** The loop goes round the alerts, so it handles those within the first n. */
  lemma {:induction false} TemplateSignals(ctx: Context, p: Params, alerts: seq<Alert>, n: nat)
    requires alerts != [] && p.closeMin.Some? && p.closeMax.Some?
    ensures Signals(Templates(ctx, p, alerts, n).alertsUsed) <==>
              WouldSignal(SliceTo(alerts, n), 60.0 + TemplatePace(p))
  {
    TemplatesUsed(ctx, p, alerts, n);
    var used, first, t := TemplateAlerts(p, alerts, n), SliceTo(alerts, n), 60.0 + TemplatePace(p);
    if k :| 0 <= k < |first| && Qualifies(first[k].severity, t) {
      Wrapped(k, |alerts|);
      TemplateAt(p, alerts, n, k);
    }
    if i :| 0 <= i < n && Flagged(used[i]) {
      Wrapped(i, |alerts|);
      TemplateAt(p, alerts, n, i);
      assert first[i % |alerts|] == alerts[i % |alerts|];
    }
  }

  lemma {:induction false} Wrapped(i: nat, n: nat)
    requires n > 0
    ensures 0 <= i % n <= i && i % n < n && (i < n ==> i % n == i)
  {
    if i >= n {
      assert i == n * (i / n) + i % n && n * (i / n) >= 0;
    }
  }

  lemma {:induction false} RecurringSilent(ctx: Context, alerts: seq<Alert>, n: nat)
    requires alerts != []
    ensures !Signals(RecurringAlerts(ctx, alerts, n))
  {
    forall k | 0 <= k < n ensures !Flagged(RecurringAlerts(ctx, alerts, n)[k]) {
      RecurringAt(ctx, alerts, n, k);
      var a := RecurringAlert(ctx, alerts, k);
      assert a.closedAt.value - a.createdAt == SafeSlowClosure;
    }
  }

  lemma {:induction false} NamesApart(name: string)
    ensures KindNamed(name).Some? ==>
              name !in {"template_investigation", "silent_critical_asset", "recurring_no_remediation"}
  {
  }

  /** For any parameters and alerts, the detector signals on a returned bundle exactly when the input says so. */
  lemma {:induction false} SignalsExactly(name: string, ctx: Context, p: Params, alerts: seq<Alert>,
                                          existing: set<string>)
    requires Run(name, ctx, p, alerts, existing).Ok?
    ensures Signals(Run(name, ctx, p, alerts, existing).value.alertsUsed) <==> InputSignals(name, p, alerts)
  {
    NamesApart(name);
    if KindNamed(name).Some? {
      AlertScenarioSignals(KindNamed(name).value, ctx, p, alerts);
    } else if name == "template_investigation" && alerts != [] && Or(p.minSteps, 6) > 0 {
      TemplateSignals(ctx, p, alerts, Or(p.minSteps, 6));
    } else if name == "recurring_no_remediation" && alerts != [] {
      RecurringSilent(ctx, alerts, Or(p.recurrence, 4));
    }
  }

  // ---- The order of the times ----

  /** What an alert's own validation asks of its times. */
  predicate AlertTimed(a: Alert) {
    && (a.acknowledgedAt.Some? ==> a.createdAt <= a.acknowledgedAt.value)
    && (a.acknowledgedAt.Some? && a.closedAt.Some? ==> a.acknowledgedAt.value <= a.closedAt.value)
  }

  predicate Between(c: Case, t: real) {
    c.openedAt <= t <= c.closedAt
  }

  /** The moment falls into the case that is named. */
  ghost predicate Inside(cases: seq<Case>, caseId: string, t: real) {
    exists i :: 0 <= i < |cases| && cases[i].id == caseId && Between(cases[i], t)
  }

  ghost predicate AllInside<T(!new)>(cases: seq<Case>, items: seq<T>, caseId: T -> string, time: T -> real) {
    forall k :: 0 <= k < |items| ==> Inside(cases, caseId(items[k]), time(items[k]))
  }

  ghost predicate AllBetween<T(!new)>(c: Case, items: seq<T>, time: T -> real) {
    forall k :: 0 <= k < |items| ==> Between(c, time(items[k]))
  }

  function StepCase(): Step -> string { (s: Step) => s.caseId }
  function StepTime(): Step -> real { (s: Step) => s.performedAt }
  function EscalationCase(): Escalation -> string { (e: Escalation) => e.caseId }
  function EscalationTime(): Escalation -> real { (e: Escalation) => e.occurredAt }
  function DispositionCase(): Disposition -> string { (d: Disposition) => d.caseId }
  function DispositionTime(): Disposition -> real { (d: Disposition) => d.occurredAt }

  ghost predicate AlertsTimed(alerts: seq<Alert>) {
    forall k :: 0 <= k < |alerts| ==> AlertTimed(alerts[k])
  }

  ghost predicate CasesTimed(cases: seq<Case>) {
    forall k :: 0 <= k < |cases| ==> cases[k].openedAt <= cases[k].closedAt
  }

  /** Alerts and cases pass their validation, and all work on a case falls between its opening and its closing. */
  ghost predicate InTime(r: Records) {
    && AlertsTimed(r.alertsUsed)
    && CasesTimed(r.cases)
    && AllInside(r.cases, r.steps, StepCase(), StepTime())
    && AllInside(r.cases, r.escalations, EscalationCase(), EscalationTime())
    && AllInside(r.cases, r.dispositions, DispositionCase(), DispositionTime())
  }

  /** What one more turn must bring for the bundle to stay in time. */
  ghost predicate TurnInTime(used: Alert, c: Case, steps: seq<Step>, escalations: seq<Escalation>, d: Disposition) {
    && AlertTimed(used) && c.openedAt <= c.closedAt
    && AllBetween(c, steps, StepTime()) && AllBetween(c, escalations, EscalationTime()) && Between(c, d.occurredAt)
  }

  lemma {:induction false} InsideMore(cases: seq<Case>, c: Case, caseId: string, t: real)
    requires !HasCase(cases, c.id)
    ensures caseId != c.id ==> (Inside(cases + [c], caseId, t) <==> Inside(cases, caseId, t))
    ensures Inside(cases + [c], c.id, t) <==> Between(c, t)
  {
    var all := cases + [c];
    assert all[|cases|] == c && forall i :: 0 <= i < |cases| ==> all[i] == cases[i];
    if Inside(cases, caseId, t) {
      var i :| 0 <= i < |cases| && cases[i].id == caseId && Between(cases[i], t);
      assert all[i].id == caseId;
    }
    if Between(c, t) {
      assert all[|cases|].id == c.id;
    }
  }

  /** New items of a new case are judged by that case, the others as before. */
  lemma {:induction false} AllInsideMore<T(!new)>(cases: seq<Case>, c: Case, earlier: seq<T>, more: seq<T>,
                                                  caseId: T -> string, time: T -> real)
    requires !HasCase(cases, c.id)
    requires forall k :: 0 <= k < |earlier| ==> HasCase(cases, caseId(earlier[k]))
    requires forall k :: 0 <= k < |more| ==> caseId(more[k]) == c.id
    ensures AllInside(cases + [c], earlier + more, caseId, time) <==>
              AllInside(cases, earlier, caseId, time) && AllBetween(c, more, time)
  {
    var all := earlier + more;
    forall k | 0 <= k < |earlier|
      ensures Inside(cases + [c], caseId(all[k]), time(all[k])) <==> Inside(cases, caseId(earlier[k]), time(earlier[k]))
    {
      InsideMore(cases, c, caseId(earlier[k]), time(earlier[k]));
    }
    forall k | 0 <= k < |more|
      ensures Inside(cases + [c], caseId(all[|earlier| + k]), time(all[|earlier| + k])) <==> Between(c, time(more[k]))
    {
      InsideMore(cases, c, c.id, time(more[k]));
    }
  }

  lemma {:induction false} AddInTime(r: Records, used: Alert, c: Case, steps: seq<Step>, escalations: seq<Escalation>,
                                     d: Disposition)
    requires References(r) && Fits(used, c, steps, escalations, d) && !HasCase(r.cases, c.id)
    ensures InTime(Add(r, used, c, steps, escalations, d)) <==>
              InTime(r) && TurnInTime(used, c, steps, escalations, d)
  {
    AllInsideMore(r.cases, c, r.steps, steps, StepCase(), StepTime());
    AllInsideMore(r.cases, c, r.escalations, escalations, EscalationCase(), EscalationTime());
    AllInsideMore(r.cases, c, r.dispositions, [d], DispositionCase(), DispositionTime());
    MoreTimed(r.alertsUsed, used);
    MoreCasesTimed(r.cases, c);
    assert AllBetween(c, [d], DispositionTime()) <==> Between(c, [d][0].occurredAt);
  }

  lemma {:induction false} MoreTimed(alerts: seq<Alert>, a: Alert)
    ensures AlertsTimed(alerts + [a]) <==> AlertsTimed(alerts) && AlertTimed(a)
  {
    var all := alerts + [a];
    assert all[|alerts|] == a && forall k :: 0 <= k < |alerts| ==> all[k] == alerts[k];
  }

  lemma {:induction false} MoreCasesTimed(cases: seq<Case>, c: Case)
    ensures CasesTimed(cases + [c]) <==> CasesTimed(cases) && c.openedAt <= c.closedAt
  {
    var all := cases + [c];
    assert all[|cases|] == c && forall k :: 0 <= k < |cases| ==> all[k] == cases[k];
  }

  lemma {:induction false} NextCaseIsNew(r: Records, ctx: Context, ids: seq<string>)
    requires Follows(r, ctx, ids)
    ensures !HasCase(r.cases, CaseId(ctx, |ids|))
  {
    forall i | 0 <= i < |r.cases| ensures r.cases[i].id != CaseId(ctx, |ids|) {
      assert FollowsAt(r, ctx, ids[i], i);
      if CaseId(ctx, i) == CaseId(ctx, |ids|) {
        NumberedInjective(ctx.scenario + "-case", i, ctx.scenario + "-case", |ids|);
      }
    }
  }

  // ---- One alert at a time ----

  function CaseLength(kind: Kind, p: Params): real
    requires Ready(kind, p)
  {
    CloseDelay(kind, p) - OpenDelay(kind)
  }

  /** Seconds from the opening of the case to its escalation. */
  function EscalationDelay(kind: Kind, p: Params): real
    requires Ready(kind, p)
  {
    match kind
    case MissingInvestigation => CaseLength(kind, p) - 100.0
    case PeerOutlier => 20.0
    case _ => 120.0
  }

  predicate StepsFit(kind: Kind, p: Params)
    requires Ready(kind, p)
  {
    forall j :: 1 <= j <= |StepTypes(kind, p)| ==> StepDelay(kind, j) <= CaseLength(kind, p)
  }

  /** The case is long enough for its steps and, where the alert is escalated, for the escalation. */
  predicate TurnFits(kind: Kind, p: Params, a: Alert)
    requires Ready(kind, p)
  {
    && CaseLength(kind, p) >= 0.0 && StepsFit(kind, p)
    && (Escalates(kind, p, a) ==> 0.0 <= EscalationDelay(kind, p) <= CaseLength(kind, p))
  }

  lemma {:induction false} StepsAt(kind: Kind, ctx: Context, i: nat, a: Alert, types: seq<string>)
    ensures |StepsOf(kind, ctx, i, a, types)| == |types|
    ensures forall k :: 0 <= k < |types| ==>
              StepsOf(kind, ctx, i, a, types)[k].performedAt == Opened(kind, a) + StepDelay(kind, k + 1)
  {
    if types != [] {
      StepsAt(kind, ctx, i, a, types[..|types| - 1]);
    }
  }

  lemma {:induction false} StepsBetween(kind: Kind, ctx: Context, p: Params, i: nat, a: Alert)
    requires Ready(kind, p)
    ensures AllBetween(CaseOf(kind, ctx, p, i, a), StepsOf(kind, ctx, i, a, StepTypes(kind, p)), StepTime()) <==>
              StepsFit(kind, p)
  {
    var steps, c, n := StepsOf(kind, ctx, i, a, StepTypes(kind, p)), CaseOf(kind, ctx, p, i, a), |StepTypes(kind, p)|;
    StepsAt(kind, ctx, i, a, StepTypes(kind, p));
    forall k | 0 <= k < n
      ensures Between(c, StepTime()(steps[k])) <==> StepDelay(kind, k + 1) <= CaseLength(kind, p)
    {
      assert StepDelay(kind, k + 1) >= 0.0;
    }
    forall j | 1 <= j <= n
      ensures Between(c, StepTime()(steps[j - 1])) <==> StepDelay(kind, j) <= CaseLength(kind, p)
    {
      assert StepDelay(kind, j) >= 0.0;
    }
  }

  lemma {:induction false} EscalationsBetween(kind: Kind, ctx: Context, p: Params, i: nat, a: Alert)
    requires Ready(kind, p)
    ensures AllBetween(CaseOf(kind, ctx, p, i, a), EscalationsOf(kind, ctx, p, i, a), EscalationTime()) <==>
              (Escalates(kind, p, a) ==> 0.0 <= EscalationDelay(kind, p) <= CaseLength(kind, p))
  {
    if Escalates(kind, p, a) {
      assert EscalatedAt(kind, p, a) == Opened(kind, a) + EscalationDelay(kind, p);
      assert EscalationTime()(EscalationsOf(kind, ctx, p, i, a)[0]) == EscalatedAt(kind, p, a);
    }
  }

  lemma {:induction false} TurnExact(kind: Kind, ctx: Context, p: Params, i: nat, a: Alert)
    requires Ready(kind, p)
    ensures TurnInTime(Used(kind, ctx, p, i, a), CaseOf(kind, ctx, p, i, a),
                       StepsOf(kind, ctx, i, a, StepTypes(kind, p)), EscalationsOf(kind, ctx, p, i, a),
                       DispositionOf(kind, ctx, p, i, a)) <==>
              TurnFits(kind, p, a)
  {
    StepsBetween(kind, ctx, p, i, a);
    EscalationsBetween(kind, ctx, p, i, a);
  }

  lemma {:induction false} HandleInTime(r: Records, kind: Kind, ctx: Context, p: Params, ids: seq<string>, a: Alert)
    requires Ready(kind, p) && Follows(r, ctx, ids) && References(r)
    ensures InTime(Handle(r, kind, ctx, p, |ids|, a)) <==> InTime(r) && TurnFits(kind, p, a)
  {
    var i := |ids|;
    var steps := StepsOf(kind, ctx, i, a, StepTypes(kind, p));
    StepsName(kind, ctx, i, a, StepTypes(kind, p));
    NextCaseIsNew(r, ctx, ids);
    TurnExact(kind, ctx, p, i, a);
    AddInTime(r, Used(kind, ctx, p, i, a), CaseOf(kind, ctx, p, i, a), steps, EscalationsOf(kind, ctx, p, i, a),
              DispositionOf(kind, ctx, p, i, a));
  }

  ghost predicate AllFit(kind: Kind, p: Params, alerts: seq<Alert>)
    requires Ready(kind, p)
  {
    forall k :: 0 <= k < |alerts| ==> TurnFits(kind, p, alerts[k])
  }

  lemma {:induction false} AllFitLast(kind: Kind, p: Params, alerts: seq<Alert>)
    requires Ready(kind, p) && alerts != []
    ensures var n := |alerts| - 1; AllFit(kind, p, alerts) <==>
              AllFit(kind, p, alerts[..n]) && TurnFits(kind, p, alerts[n])
  {
    var n := |alerts| - 1;
    assert forall k :: 0 <= k < n ==> alerts[..n][k] == alerts[k];
  }

  lemma {:induction false} PerAlertInTime(kind: Kind, ctx: Context, p: Params, alerts: seq<Alert>)
    requires Ready(kind, p)
    ensures InTime(PerAlert(kind, ctx, p, alerts)) <==> AllFit(kind, p, alerts)
  {
    if alerts != [] {
      var n := |alerts| - 1;
      PerAlertInTime(kind, ctx, p, alerts[..n]);
      PerAlertFollows(kind, ctx, p, alerts[..n]);
      HandleInTime(PerAlert(kind, ctx, p, alerts[..n]), kind, ctx, p, Ids(alerts[..n]), alerts[n]);
      AllFitLast(kind, p, alerts);
    }
  }

  lemma {:induction false} AlertScenarioInTime(kind: Kind, ctx: Context, p: Params, alerts: seq<Alert>)
    requires AlertScenario(kind, ctx, p, alerts).Ok?
    ensures InTime(AlertScenario(kind, ctx, p, alerts).value) <==> SelectedFit(kind, p, Selected(kind, p, alerts))
  {
    var selected := Selected(kind, p, alerts);
    if selected != [] {
      PerAlertInTime(kind, ctx, p, selected);
      OmittedInTime(PerAlert(kind, ctx, p, selected), Omitted(kind, p));
    }
  }

  lemma {:induction false} OmittedInTime(r: Records, omitted: set<string>)
    ensures InTime(r.(omitted := omitted)) <==> InTime(r)
  {
  }

  // ---- The other scenarios ----

  lemma {:induction false} TemplateTurnInTime(r: Records, ctx: Context, p: Params, ids: seq<string>, a: Alert)
    requires p.closeMin.Some? && p.closeMax.Some? && Follows(r, ctx, ids) && References(r)
    ensures InTime(HandleTemplate(r, ctx, p, |ids|, a)) <==> InTime(r) && TemplatePace(p) >= 100.0
  {
    var i := |ids|;
    var used, c, step := TemplateAlert(p, i, a), TemplateCase(ctx, p, i, a), TemplateStep(ctx, p, i, a);
    var d := NewDisposition(Numbered(a.id, i), CaseId(ctx, i), TemplateClosed(p, a), "true_positive", ctx);
    TemplateFits(ctx, p, i, a);
    NextCaseIsNew(r, ctx, ids);
    AddInTime(r, used, c, [step], [], d);
    assert AllBetween(c, [step], StepTime()) <==> Between(c, [step][0].performedAt);
  }

  lemma {:induction false} TemplatesInTime(ctx: Context, p: Params, alerts: seq<Alert>, n: nat)
    requires alerts != [] && p.closeMin.Some? && p.closeMax.Some?
    ensures InTime(Templates(ctx, p, alerts, n)) <==> n == 0 || TemplatePace(p) >= 100.0
  {
    if n > 0 {
      TemplatesInTime(ctx, p, alerts, n - 1);
      TemplatesFollow(ctx, p, alerts, n - 1);
      TemplateTurnInTime(Templates(ctx, p, alerts, n - 1), ctx, p, TemplateIds(alerts, n - 1),
                         alerts[(n - 1) % |alerts|]);
    }
  }

  lemma {:induction false} RecurringTimes(ctx: Context, alerts: seq<Alert>, n: nat, k: nat)
    requires alerts != [] && k < n
    ensures var r := RecurringAlerts(ctx, alerts, n);
            && r[k].closedAt.Some? && r[n - 1].closedAt.Some? && AlertTimed(r[k])
            && alerts[0].createdAt <= r[k].closedAt.value <= r[n - 1].closedAt.value
  {
    RecurringAt(ctx, alerts, n, k);
    RecurringAt(ctx, alerts, n, n - 1);
  }

  lemma {:induction false} RecurringInTime(ctx: Context, p: Params, alerts: seq<Alert>, n: nat)
    requires alerts != [] && n > 0
    ensures InTime(Recurring(ctx, p, alerts, n))
  {
    var r := Recurring(ctx, p, alerts, n);
    forall k | 0 <= k < n
      ensures AlertTimed(r.alertsUsed[k])
      ensures Inside(r.cases, DispositionCase()(r.dispositions[k]), DispositionTime()(r.dispositions[k]))
    {
      RecurringTimes(ctx, alerts, n, k);
      assert r.cases[0].id == CaseId(ctx, 0);
      assert Between(r.cases[0], r.dispositions[k].occurredAt);
    }
    RecurringTimes(ctx, alerts, n, 0);
  }

  // ---- When a bundle is in time ----

  ghost predicate SelectedFit(kind: Kind, p: Params, selected: seq<Alert>) {
    selected == [] || (Ready(kind, p) && AllFit(kind, p, selected))
  }

  ghost predicate InputInTime(name: string, p: Params, alerts: seq<Alert>) {
    match KindNamed(name)
    case Some(kind) => SelectedFit(kind, p, Selected(kind, p, alerts))
    case None =>
      if name == "silent_critical_asset" then AlertsTimed(alerts)
      else if name == "template_investigation" && alerts != [] && Or(p.minSteps, 6) > 0 then
        p.closeMin.Some? && p.closeMax.Some? && TemplatePace(p) >= 100.0
      else true
  }

  /**
    * For any parameters and alerts, a returned bundle is in time exactly when its cases are long enough for their work.
    */
  lemma {:induction false} InTimeExactly(name: string, ctx: Context, p: Params, alerts: seq<Alert>,
                                         existing: set<string>)
    requires Run(name, ctx, p, alerts, existing).Ok?
    ensures InTime(Run(name, ctx, p, alerts, existing).value) <==> InputInTime(name, p, alerts)
  {
    NamesApart(name);
    if KindNamed(name).Some? {
      AlertScenarioInTime(KindNamed(name).value, ctx, p, alerts);
    } else if name == "template_investigation" && alerts != [] && Or(p.minSteps, 6) > 0 {
      TemplatesInTime(ctx, p, alerts, Or(p.minSteps, 6));
    } else if name == "recurring_no_remediation" && alerts != [] {
      RecurringInTime(ctx, p, alerts, Or(p.recurrence, 4));
    }
  }

  // ---- Under the declared policy ----

  /** The closing bounds that policy.yaml declares. */
  function Declared(kind: Kind): (real, real) {
    match kind
    case HealthyControl => (7200.0, 21600.0)
    case FastClosure => (10.0, 55.0)
    case NoEscalation => (3600.0, 7200.0)
    case AckNoInvestigation => (1800.0, 3600.0)
    case MissingInvestigation => (3600.0, 10800.0)
    case MissingEscalationFile => (3600.0, 7200.0)
    case LowActivity => (3600.0, 7200.0)
    case PeerOutlier => (30.0, 90.0)
    case PeerEntity => (7200.0, 21600.0)
    case MultiSignal => (10.0, 55.0)
  }

  predicate KindDeclared(kind: Kind, p: Params) {
    && Ready(kind, p)
    && (kind.PeerEntity? ==> (p.peerMin.value, p.peerMax.value) == Declared(kind))
    && (kind.HealthyControl? ==> p.steps == Some(["triage", "containment", "recovery"]))
    && (!kind.PeerEntity? && !kind.NoEscalation? ==> (p.closeMin.value, p.closeMax.value) == Declared(kind))
  }

  predicate AsDeclared(name: string, p: Params) {
    && (KindNamed(name).Some? ==> KindDeclared(KindNamed(name).value, p))
    && (name == "template_investigation" ==> p.closeMin == Some(1800.0) && p.closeMax == Some(3600.0))
  }

  function CaughtOf(kind: Kind): set<string> {
    match kind
    case FastClosure => {"critical"}
    case MultiSignal => {"critical"}
    case PeerOutlier => {"critical", "high"}
    case AckNoInvestigation => {"medium"}
    case _ => {}
  }

  /** The severities on which a scenario's alerts meet the fast-closure rule. */
  function CaughtSeverities(name: string): set<string> {
    match KindNamed(name)
    case Some(kind) => CaughtOf(kind)
    case None => if name == "template_investigation" then {"medium"} else {}
  }

  ghost predicate HasSeverity(alerts: seq<Alert>, severities: set<string>) {
    exists k :: 0 <= k < |alerts| && alerts[k].severity in severities
  }

  lemma {:induction false} PickedSignal(kind: Kind, alerts: seq<Alert>, seconds: real, severities: set<string>)
    requires forall a: Alert :: Selects(kind, a) && Qualifies(a.severity, seconds) <==> a.severity in severities
    ensures WouldSignal(Picked(kind, alerts), seconds) <==> HasSeverity(alerts, severities)
  {
    if alerts != [] {
      var n := |alerts| - 1;
      var front, picked := Picked(kind, alerts[..n]), Picked(kind, alerts);
      PickedSignal(kind, alerts[..n], seconds, severities);
      assert forall k :: 0 <= k < |front| ==> picked[k] == front[k];
      assert Selects(kind, alerts[n]) ==> picked[|front|] == alerts[n];
      assert forall k :: 0 <= k < n ==> alerts[..n][k] == alerts[k];
    }
  }

  /** Seconds from an alert to its closing under the declared policy. */
  function DeclaredSeconds(kind: Kind): real {
    match kind
    case HealthyControl => 7260.0
    case FastClosure => 60.0
    case NoEscalation => 4060.0
    case AckNoInvestigation => 3060.0
    case MissingInvestigation => 5000.0
    case MissingEscalationFile => 3660.0
    case LowActivity => 5060.0
    case PeerOutlier => 65.0
    case PeerEntity => 10860.0
    case MultiSignal => 60.0
  }

  lemma {:induction false} DeclaredDelay(kind: Kind, p: Params)
    requires KindDeclared(kind, p)
    ensures CloseDelay(kind, p) == DeclaredSeconds(kind)
  {
  }

  /** Within its bounds the pace is as close to the scenario's usual length as it can be. */
  lemma PaceIsNearest(low: real, high: real, usual: real)
    requires low <= high
    ensures low <= Pace(low, high, usual) <= high
    ensures low <= usual <= high ==> Pace(low, high, usual) == usual
    ensures usual < low ==> Pace(low, high, usual) == low
    ensures usual > high ==> Pace(low, high, usual) == high
  {
  }

  /** The alerts that a scenario may close: the template loop goes round the first of them. */
  function Closing(name: string, p: Params, alerts: seq<Alert>): seq<Alert> {
    if name != "template_investigation" then alerts
    else if Or(p.minSteps, 6) > 0 then SliceTo(alerts, Or(p.minSteps, 6))
    else []
  }

  lemma {:induction false} DeclaredInput(name: string, p: Params, alerts: seq<Alert>)
    requires AsDeclared(name, p) && name != "silent_critical_asset"
    ensures InputSignals(name, p, alerts) <==> HasSeverity(Closing(name, p, alerts), CaughtSeverities(name))
  {
    NamesApart(name);
    if KindNamed(name).Some? {
      DeclaredKindSignals(KindNamed(name).value, p, alerts);
    } else if name == "template_investigation" {
      DeclaredTemplateSignals(p, Closing(name, p, alerts));
    }
  }

  /** Which scenarios of the declared policy the detector catches, and on which alerts of the input. */
  lemma {:induction false} DeclaredSignals(name: string, ctx: Context, p: Params, alerts: seq<Alert>,
                                           existing: set<string>)
    requires AsDeclared(name, p) && Run(name, ctx, p, alerts, existing).Ok?
    ensures Signals(Run(name, ctx, p, alerts, existing).value.alertsUsed) <==>
              if name == "silent_critical_asset" then Signals(alerts)
              else HasSeverity(Closing(name, p, alerts), CaughtSeverities(name))
  {
    NamesApart(name);
    SignalsExactly(name, ctx, p, alerts, existing);
    if name != "silent_critical_asset" {
      DeclaredInput(name, p, alerts);
    }
  }

  lemma {:induction false} DeclaredTemplateSignals(p: Params, handled: seq<Alert>)
    requires p.closeMin == Some(1800.0) && p.closeMax == Some(3600.0)
    ensures WouldSignal(handled, 60.0 + TemplatePace(p)) <==> HasSeverity(handled, {"medium"})
  {
    assert 60.0 + TemplatePace(p) == 3060.0;
  }

  lemma {:induction false} DeclaredKindSignals(kind: Kind, p: Params, alerts: seq<Alert>)
    requires KindDeclared(kind, p)
    ensures WouldSignal(Selected(kind, p, alerts), CloseDelay(kind, p)) <==> HasSeverity(alerts, CaughtOf(kind))
  {
    DeclaredDelay(kind, p);
    if !kind.LowActivity? {
      PickedSignal(kind, alerts, CloseDelay(kind, p), CaughtOf(kind));
    }
  }

  lemma {:induction false} DeclaredFits(kind: Kind, p: Params, a: Alert)
    requires KindDeclared(kind, p)
    ensures TurnFits(kind, p, a)
  {
    DeclaredDelay(kind, p);
  }

  /** Every bundle of the declared policy is in time; silent_critical_asset hands the alerts through as they are. */
  lemma {:induction false} DeclaredInTime(name: string, ctx: Context, p: Params, alerts: seq<Alert>,
                                          existing: set<string>)
    requires AsDeclared(name, p) && Run(name, ctx, p, alerts, existing).Ok?
    ensures InTime(Run(name, ctx, p, alerts, existing).value) <==>
              (name == "silent_critical_asset" ==> AlertsTimed(alerts))
  {
    NamesApart(name);
    InTimeExactly(name, ctx, p, alerts, existing);
    if KindNamed(name).Some? {
      forall a: Alert ensures TurnFits(KindNamed(name).value, p, a) {
        DeclaredFits(KindNamed(name).value, p, a);
      }
    }
  }

  /** A peer of the declared policy is in time and never caught. */
  lemma {:induction false} DeclaredPeer(ctx: Context, p: Params, alerts: seq<Alert>)
    requires KindDeclared(PeerEntity, p)
    ensures var r := AlertScenario(PeerEntity, ctx, p, alerts);
            r.Ok? && InTime(r.value) && !Signals(r.value.alertsUsed)
  {
    AlertScenarioInTime(PeerEntity, ctx, p, alerts);
    AlertScenarioSignals(PeerEntity, ctx, p, alerts);
    DeclaredDelay(PeerEntity, p);
    forall a: Alert ensures TurnFits(PeerEntity, p, a) {
      DeclaredFits(PeerEntity, p, a);
    }
  }
}
