/** The generator of public_benchmarks/workflow_augmentation/generator.py: loops that fill a bundle. */
module WorkflowGenerator {
  import opened Counting
  import opened Numbering
  import opened WorkflowModel

  class WorkflowBundle {
    const scenario: string
    const dataset: string
    var alertsUsed: seq<Alert>
    var extraAssets: seq<Asset>
    var cases: seq<Case>
    var steps: seq<Step>
    var escalations: seq<Escalation>
    var dispositions: seq<Disposition>
    var omitted: set<string>

    function Snapshot(): Records
      reads this
    {
      Records(alertsUsed, extraAssets, cases, steps, escalations, dispositions, omitted)
    }

    constructor (ctx: Context)
      ensures Snapshot() == Empty && scenario == ctx.scenario && dataset == ctx.dataset
    {
      scenario, dataset := ctx.scenario, ctx.dataset;
      alertsUsed, extraAssets, cases, steps, escalations, dispositions, omitted := [], [], [], [], [], [], {};
    }

    method AddStep(kind: Kind, ctx: Context, i: nat, a: Alert, action: string, t: real, j: nat)
      requires t == Opened(kind, a) + StepDelay(kind, j)
      modifies this`steps
      ensures steps == old(steps) + [StepOf(kind, ctx, i, a, action, j)]
    {
      steps := steps + [NewStep(CaseId(ctx, i), action, t, j, ANALYST, StepNote(kind, action), ctx)];
    }

    /** The inner loop over the step types; under healthy_control a running clock moves on by 300 a step. */
    method AddSteps(kind: Kind, ctx: Context, i: nat, a: Alert, types: seq<string>)
      modifies this`steps
      ensures steps == old(steps) + StepsOf(kind, ctx, i, a, types)
    {
      var t := Opened(kind, a);
      for j := 0 to |types|
        invariant steps == old(steps) + StepsOf(kind, ctx, i, a, types[..j])
        invariant kind.HealthyControl? ==> t == Opened(kind, a) + 300.0 * j as real
      {
        if kind.HealthyControl? {
          t := t + 300.0;
        } else {
          t := Opened(kind, a) + StepDelay(kind, j + 1);
        }
        StepsMore(kind, ctx, i, a, types, j);
        Regroup(old(steps), StepsOf(kind, ctx, i, a, types[..j]), [StepOf(kind, ctx, i, a, types[j], j + 1)]);
        AddStep(kind, ctx, i, a, types[j], t, j + 1);
      }
      assert types[..|types|] == types;
    }

    /** One turn of a loop over the alerts. */
    method HandleAlert(kind: Kind, ctx: Context, p: Params, i: nat, a: Alert)
      requires Ready(kind, p)
      modifies this
      ensures Snapshot() == Handle(old(Snapshot()), kind, ctx, p, i, a)
    {
      var openedAt, closed := Opened(kind, a), Closed(kind, p, a);
      var id := CaseId(ctx, i);
      if kind.MissingInvestigation? {
        alertsUsed := alertsUsed + [a.(acknowledgedAt := None, closedAt := Some(closed))];
      } else {
        alertsUsed := alertsUsed + [a.(acknowledgedAt := Some(openedAt), closedAt := Some(closed), caseIds := [id])];
      }
      cases := cases + [NewCase(id, openedAt, closed, [a.id], ctx)];
      AddSteps(kind, ctx, i, a, StepTypes(kind, p));
      if Escalates(kind, p, a) {
        escalations := escalations + [NewEscalation(a.id, id, EscalatedAt(kind, p, a), ctx)];
      }
      dispositions := dispositions + [NewDisposition(a.id, id, closed, "true_positive", ctx)];
    }

    method HandleAlerts(kind: Kind, ctx: Context, p: Params, alerts: seq<Alert>)
      requires Ready(kind, p) && Snapshot() == Empty
      modifies this
      ensures Snapshot() == PerAlert(kind, ctx, p, alerts)
    {
      for i := 0 to |alerts|
        invariant Snapshot() == PerAlert(kind, ctx, p, alerts[..i])
      {
        assert alerts[..i + 1][..i] == alerts[..i];
        HandleAlert(kind, ctx, p, i, alerts[i]);
      }
      assert alerts[..|alerts|] == alerts;
    }

    method HandleSelected(kind: Kind, ctx: Context, p: Params, selected: seq<Alert>)
      requires (selected != [] ==> Ready(kind, p)) && Snapshot() == Empty
      modifies this
      ensures Snapshot()
              == (if selected == [] then Empty else PerAlert(kind, ctx, p, selected)).(omitted := Omitted(kind, p))
    {
      if selected != [] {
        HandleAlerts(kind, ctx, p, selected);
      }
      omitted := Omitted(kind, p);
    }

    /** The loop that invents assets: it ends because only finitely many candidates are taken. */
    method AddSilentAssets(ctx: Context, criticality: string, count: int, existing: set<string>)
      modifies this`extraAssets
      ensures extraAssets
              == old(extraAssets) + AssetsAt(ctx, criticality, FreeIndices(SilentPrefix(ctx), existing, 0, count))
    {
      var prefix := SilentPrefix(ctx);
      var i, added := 0, 0;
      ghost var all, end := FreeIndices(prefix, existing, 0, count), SearchEnd(prefix, existing, 0, count);
      ghost var done: seq<nat> := [];
      while added < count
        invariant 0 <= i && 0 <= added
        invariant Progress(prefix, existing, all, end, i, count - added, done)
        invariant extraAssets == old(extraAssets) + AssetsAt(ctx, criticality, done)
        decreases end - i
      {
        if Numbered(prefix, i) in existing {
          ProgressSkip(prefix, existing, all, end, i, count - added, done);
        } else {
          ProgressTake(prefix, existing, all, end, i, count - added, done);
          AddSilentAsset(ctx, criticality, i, done, old(extraAssets));
          done := done + [i];
          added := added + 1;
        }
        i := i + 1;
      }
      ProgressEnd(prefix, existing, all, end, i, count - added, done);
    }

    method AddSilentAsset(ctx: Context, criticality: string, i: nat, ghost done: seq<nat>, ghost before: seq<Asset>)
      requires extraAssets == before + AssetsAt(ctx, criticality, done)
      modifies this`extraAssets
      ensures extraAssets == before + AssetsAt(ctx, criticality, done + [i])
    {
      extraAssets := extraAssets + [Asset(Numbered(SilentPrefix(ctx), i), criticality, ctx)];
      AssetsNext(ctx, criticality, done, i);
    }

    /** One template investigation; the alert gets an id of its own, as one alert serves several cases. */
    method AddTemplate(ctx: Context, p: Params, i: nat, a: Alert)
      requires p.closeMin.Some? && p.closeMax.Some?
      modifies this
      ensures Snapshot() == HandleTemplate(old(Snapshot()), ctx, p, i, a)
    {
      var ack := a.createdAt + 60.0;
      var closed := ack + Pace(p.closeMin.value, p.closeMax.value, 3000.0);
      var alertId := Numbered(a.id, i);
      alertsUsed := alertsUsed + [a.(id := alertId, acknowledgedAt := Some(ack), closedAt := Some(closed))];
      cases := cases + [NewCase(CaseId(ctx, i), ack, closed, [alertId], ctx)];
      steps := steps + [NewStep(CaseId(ctx, i), Or(p.templateAction, "triage"), ack + 100.0, 1,
                             Or(p.templateAnalyst, "shared-queue-analyst"),
                             Or(p.templateNote, "reviewed, no action needed"), ctx)];
      dispositions := dispositions + [NewDisposition(alertId, CaseId(ctx, i), closed, "true_positive", ctx)];
    }

    method AddTemplates(ctx: Context, p: Params, source: seq<Alert>, n: nat)
      requires source != [] && p.closeMin.Some? && p.closeMax.Some? && Snapshot() == Empty
      modifies this
      ensures Snapshot() == Templates(ctx, p, source, n)
    {
      var i := 0;
      while i < n
        invariant 0 <= i <= n && Snapshot() == Templates(ctx, p, source, i)
      {
        AddTemplate(ctx, p, i, source[i % |source|]);
        i := i + 1;
      }
    }

    method AddRecurringAlerts(ctx: Context, source: seq<Alert>, n: nat) returns (linked: seq<string>)
      requires source != [] && alertsUsed == []
      modifies this`alertsUsed
      ensures alertsUsed == RecurringAlerts(ctx, source, n)
      ensures linked == Ids(alertsUsed)
    {
      linked := [];
      for k := 0 to n
        invariant alertsUsed == RecurringAlerts(ctx, source, k)
        invariant linked == Ids(alertsUsed)
      {
        ghost var before := alertsUsed;
        var alertId := AddRecurringAlert(ctx, source, k);
        assert alertsUsed[..|alertsUsed| - 1] == before;
        linked := linked + [alertId];
      }
    }

    method AddRecurringAlert(ctx: Context, source: seq<Alert>, k: nat) returns (alertId: string)
      requires source != []
      modifies this`alertsUsed
      ensures alertsUsed == old(alertsUsed) + [RecurringAlert(ctx, source, k)] && alertId == RecurringId(ctx, k)
    {
      alertId := RecurringId(ctx, k);
      var created := source[0].createdAt + 600.0 * k as real;
      alertsUsed := alertsUsed + [source[k % |source|].(
                                    id := alertId, createdAt := created, acknowledgedAt := Some(created + 60.0),
                                    closedAt := Some(created + SafeSlowClosure), caseIds := [CaseId(ctx, 0)])];
    }

    /** The one case of the recurring alerts, and their dispositions. */
    method OpenRecurring(ctx: Context, p: Params, openedAt: real, linked: seq<string>)
      requires alertsUsed != [] && linked == Ids(alertsUsed) && Snapshot() == Empty.(alertsUsed := alertsUsed)
      requires forall k :: 0 <= k < |alertsUsed| ==> alertsUsed[k].closedAt.Some?
      modifies this`cases, this`dispositions
      ensures Snapshot() == Absorb(ctx, p, openedAt, alertsUsed)
    {
      var lastClosed := alertsUsed[|alertsUsed| - 1].closedAt.value;
      cases := [NewCase(CaseId(ctx, 0), openedAt, lastClosed, linked, ctx)];
      DisposeRecurring(ctx, Or(p.outcome, "benign"), linked);
    }

    method Recur(ctx: Context, p: Params, source: seq<Alert>, n: nat)
      requires source != [] && n > 0 && Snapshot() == Empty
      modifies this
      ensures Snapshot() == Recurring(ctx, p, source, n)
    {
      var linked := AddRecurringAlerts(ctx, source, n);
      RecurringClosed(ctx, source, n);
      OpenRecurring(ctx, p, source[0].createdAt, linked);
    }

    /** The final loop over the linked ids and the alerts used. */
    method DisposeRecurring(ctx: Context, outcome: string, linked: seq<string>)
      requires linked == Ids(alertsUsed) && dispositions == []
      requires forall k :: 0 <= k < |alertsUsed| ==> alertsUsed[k].closedAt.Some?
      modifies this`dispositions
      ensures dispositions == RecurringDispositions(ctx, outcome, alertsUsed)
    {
      for k := 0 to |linked|
        invariant dispositions == RecurringDispositions(ctx, outcome, alertsUsed[..k])
      {
        assert alertsUsed[..k + 1][..k] == alertsUsed[..k];
        var t := alertsUsed[k].closedAt.value;
        dispositions := dispositions + [NewDisposition(linked[k], CaseId(ctx, 0), t, outcome, ctx)];
      }
      assert alertsUsed[..|linked|] == alertsUsed;
    }
  }

  function AssetIds(assets: seq<Asset>): set<string> {
    set i | 0 <= i < |assets| :: assets[i].id
  }

  /** What a call returns or raises, compared with the specification. */
  ghost predicate Matches(r: Result<WorkflowBundle>, s: Result<Records>)
    reads if r.Ok? then {r.value} else {}
  {
    match r
    case Ok(bundle) => s == Result.Ok(bundle.Snapshot())
    case Raised(e) => s == Result.Raised(e)
  }

  method SelectAlerts(kind: Kind, p: Params, alerts: seq<Alert>) returns (r: seq<Alert>)
    ensures r == Selected(kind, p, alerts)
  {
    if kind.LowActivity? {
      return SliceTo(alerts, Or(p.maxAlerts, 2));
    }
    r := [];
    for i := 0 to |alerts|
      invariant r == Picked(kind, alerts[..i])
    {
      assert alerts[..i + 1][..i] == alerts[..i];
      if Selects(kind, alerts[i]) {
        r := r + [alerts[i]];
      }
    }
    assert alerts[..|alerts|] == alerts;
  }

  /** The scenarios that handle one alert at a time. */
  method GenerateFromAlerts(kind: Kind, ctx: Context, p: Params, alerts: seq<Alert>) returns (r: Result<WorkflowBundle>)
    ensures Matches(r, AlertScenario(kind, ctx, p, alerts)) && (r.Ok? ==> fresh(r.value))
  {
    var bundle := new WorkflowBundle(ctx);
    var selected := SelectAlerts(kind, p, alerts);
    if selected != [] && !Ready(kind, p) {
      return Raised(KeyError);
    }
    bundle.HandleSelected(kind, ctx, p, selected);
    return Ok(bundle);
  }

  method GenerateSilentAssets(ctx: Context, p: Params, alerts: seq<Alert>, existing: set<string>)
    returns (bundle: WorkflowBundle)
    ensures fresh(bundle) && bundle.Snapshot() == SilentAssets(ctx, p, alerts, existing)
  {
    bundle := new WorkflowBundle(ctx);
    bundle.alertsUsed := alerts;
    bundle.AddSilentAssets(ctx, Or(p.silentCriticality, "critical"), Or(p.silentCount, 3), existing);
  }

  method GenerateTemplates(ctx: Context, p: Params, alerts: seq<Alert>) returns (r: Result<WorkflowBundle>)
    ensures Matches(r, TemplateScenario(ctx, p, alerts)) && (r.Ok? ==> fresh(r.value))
  {
    var bundle := new WorkflowBundle(ctx);
    var n := Or(p.minSteps, 6);
    if alerts != [] && n > 0 {
      if p.closeMin.None? || p.closeMax.None? {
        return Raised(KeyError);
      }
      bundle.AddTemplates(ctx, p, alerts, n);
    }
    return Ok(bundle);
  }

  method GenerateRecurring(ctx: Context, p: Params, alerts: seq<Alert>) returns (r: Result<WorkflowBundle>)
    ensures Matches(r, RecurringScenario(ctx, p, alerts)) && (r.Ok? ==> fresh(r.value))
  {
    var bundle := new WorkflowBundle(ctx);
    if alerts == [] {
      return Ok(bundle);
    }
    var n := Or(p.recurrence, 4);
    if n <= 0 {
      return Raised(IndexError);
    }
    bundle.Recur(ctx, p, alerts, n);
    return Ok(bundle);
  }

  method GenerateWorkflow(policy: Policy, name: string, dataset: string, alerts: seq<Alert>, assets: seq<Asset>)
    returns (r: Result<WorkflowBundle>)
    ensures Matches(r, Generate(policy, name, dataset, alerts, AssetIds(assets))) && (r.Ok? ==> fresh(r.value))
  {
    var params := GetScenario(policy, name);
    if params.None? {
      return Raised(KeyError);
    }
    var p, ctx := params.value, Context(name, dataset, policy.version);
    var kind := KindNamed(name);
    if kind.Some? {
      r := GenerateFromAlerts(kind.value, ctx, p, alerts);
    } else if name == "silent_critical_asset" {
      var bundle := GenerateSilentAssets(ctx, p, alerts, AssetIds(assets));
      r := Ok(bundle);
    } else if name == "template_investigation" {
      r := GenerateTemplates(ctx, p, alerts);
    } else if name == "recurring_no_remediation" {
      r := GenerateRecurring(ctx, p, alerts);
    } else {
      r := Raised(KeyError);
    }
  }

  method GeneratePeerEntityWorkflow(policy: Policy, peerLabel: string, dataset: string, alerts: seq<Alert>)
    returns (r: Result<WorkflowBundle>)
    ensures Matches(r, GeneratePeer(policy, peerLabel, dataset, alerts)) && (r.Ok? ==> fresh(r.value))
  {
    var params := GetScenario(policy, "peer_outlier");
    if params.None? {
      return Raised(KeyError);
    }
    r := GenerateFromAlerts(PeerEntity, Context("peer_outlier-" + peerLabel, dataset, policy.version), params.value,
                            alerts);
  }
}
