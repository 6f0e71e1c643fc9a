/** What every generated bundle keeps: unique ids, and references that lead to generated records. */
module WorkflowIntegrity {
  import opened Counting
  import opened Numbering
  import opened WorkflowModel

  predicate DistinctAlerts(s: seq<Alert>) {
    forall i, j :: 0 <= i < j < |s| ==> s[i].id != s[j].id
  }

  predicate DistinctCases(s: seq<Case>) {
    forall i, j :: 0 <= i < j < |s| ==> s[i].id != s[j].id
  }

  predicate DistinctAssets(s: seq<Asset>) {
    forall i, j :: 0 <= i < j < |s| ==> s[i].id != s[j].id
  }

  predicate HasAlert(alerts: seq<Alert>, id: string) {
    exists i :: 0 <= i < |alerts| && alerts[i].id == id
  }

  predicate HasCase(cases: seq<Case>, id: string) {
    exists i :: 0 <= i < |cases| && cases[i].id == id
  }

  /** The case was generated and holds the alert. */
  predicate InCase(cases: seq<Case>, caseId: string, alertId: string) {
    exists i :: 0 <= i < |cases| && cases[i].id == caseId && alertId in cases[i].alertIds
  }

  ghost predicate References(r: Records) {
    && (forall k :: 0 <= k < |r.steps| ==> HasCase(r.cases, r.steps[k].caseId))
    && (forall k :: 0 <= k < |r.escalations| ==> InCase(r.cases, r.escalations[k].caseId, r.escalations[k].alertId))
    && (forall k :: 0 <= k < |r.dispositions| ==> InCase(r.cases, r.dispositions[k].caseId, r.dispositions[k].alertId))
    && (forall k, id :: 0 <= k < |r.cases| && id in r.cases[k].alertIds ==> HasAlert(r.alertsUsed, id))
  }

  ghost predicate Integrity(r: Records) {
    DistinctAlerts(r.alertsUsed) && DistinctCases(r.cases) && DistinctAssets(r.extraAssets) && References(r)
  }

  // ---- One more handled alert ----

  ghost predicate Fits(used: Alert, c: Case, steps: seq<Step>, escalations: seq<Escalation>, d: Disposition) {
    && c.alertIds == [used.id] && d.caseId == c.id && d.alertId == used.id
    && (forall k :: 0 <= k < |steps| ==> steps[k].caseId == c.id)
    && (forall k :: 0 <= k < |escalations| ==> escalations[k].caseId == c.id && escalations[k].alertId == used.id)
  }

  lemma {:induction false} MoreCases(cases: seq<Case>, c: Case, caseId: string, alertId: string)
    ensures HasCase(cases, caseId) ==> HasCase(cases + [c], caseId)
    ensures InCase(cases, caseId, alertId) ==> InCase(cases + [c], caseId, alertId)
    ensures HasCase(cases + [c], c.id) && (alertId in c.alertIds ==> InCase(cases + [c], c.id, alertId))
  {
    var all := cases + [c];
    assert all[|cases|] == c;
    if HasCase(cases, caseId) {
      var i :| 0 <= i < |cases| && cases[i].id == caseId;
      assert all[i] == cases[i];
    }
    if InCase(cases, caseId, alertId) {
      var i :| 0 <= i < |cases| && cases[i].id == caseId && alertId in cases[i].alertIds;
      assert all[i] == cases[i];
    }
  }

  lemma {:induction false} MoreAlerts(alerts: seq<Alert>, a: Alert, id: string)
    ensures HasAlert(alerts, id) || id == a.id ==> HasAlert(alerts + [a], id)
  {
    var all := alerts + [a];
    assert all[|alerts|] == a;
    if HasAlert(alerts, id) {
      var i :| 0 <= i < |alerts| && alerts[i].id == id;
      assert all[i] == alerts[i];
    }
  }

  lemma {:induction false} AddKeepsReferences(r: Records, used: Alert, c: Case, steps: seq<Step>,
                                              escalations: seq<Escalation>, d: Disposition)
    requires References(r) && Fits(used, c, steps, escalations, d)
    ensures References(Add(r, used, c, steps, escalations, d))
  {
    var n := Add(r, used, c, steps, escalations, d);
    forall k | 0 <= k < |n.steps| ensures HasCase(n.cases, n.steps[k].caseId) {
      MoreCases(r.cases, c, n.steps[k].caseId, used.id);
      assert k < |r.steps| ==> n.steps[k] == r.steps[k];
    }
    forall k | 0 <= k < |n.escalations| ensures InCase(n.cases, n.escalations[k].caseId, n.escalations[k].alertId) {
      MoreCases(r.cases, c, n.escalations[k].caseId, n.escalations[k].alertId);
      assert k < |r.escalations| ==> n.escalations[k] == r.escalations[k];
    }
    forall k | 0 <= k < |n.dispositions| ensures InCase(n.cases, n.dispositions[k].caseId, n.dispositions[k].alertId) {
      MoreCases(r.cases, c, n.dispositions[k].caseId, n.dispositions[k].alertId);
      assert k < |r.dispositions| ==> n.dispositions[k] == r.dispositions[k];
    }
    forall k, id | 0 <= k < |n.cases| && id in n.cases[k].alertIds ensures HasAlert(n.alertsUsed, id) {
      MoreAlerts(r.alertsUsed, used, id);
      assert k < |r.cases| ==> n.cases[k] == r.cases[k];
    }
  }

  // ---- The scenarios that handle one alert at a time ----

  lemma {:induction false} StepsName(kind: Kind, ctx: Context, i: nat, a: Alert, types: seq<string>)
    ensures forall k :: 0 <= k < |StepsOf(kind, ctx, i, a, types)| ==>
              StepsOf(kind, ctx, i, a, types)[k].caseId == CaseId(ctx, i)
  {
    if types != [] {
      StepsName(kind, ctx, i, a, types[..|types| - 1]);
    }
  }

  /** The bundle follows the alerts one by one: case i holds alert i and nothing else, and disposition i is theirs. */
  ghost predicate Follows(r: Records, ctx: Context, ids: seq<string>) {
    && |r.alertsUsed| == |r.cases| == |r.dispositions| == |ids| && r.extraAssets == []
    && forall i :: 0 <= i < |ids| ==> FollowsAt(r, ctx, ids[i], i)
  }

  ghost predicate FollowsAt(r: Records, ctx: Context, id: string, i: nat)
    requires i < |r.alertsUsed| == |r.cases| == |r.dispositions|
  {
    && r.alertsUsed[i].id == id && r.cases[i].id == CaseId(ctx, i) && r.cases[i].alertIds == [id]
    && r.dispositions[i].alertId == id && r.dispositions[i].caseId == CaseId(ctx, i)
  }

  lemma {:induction false} AddFollows(r: Records, ctx: Context, ids: seq<string>, used: Alert, c: Case,
                                      steps: seq<Step>, escalations: seq<Escalation>, d: Disposition)
    requires Follows(r, ctx, ids) && c.id == CaseId(ctx, |ids|) && c.alertIds == [used.id]
    requires d.alertId == used.id && d.caseId == c.id
    ensures Follows(Add(r, used, c, steps, escalations, d), ctx, ids + [used.id])
  {
    var n, all := Add(r, used, c, steps, escalations, d), ids + [used.id];
    forall i | 0 <= i < |all| ensures FollowsAt(n, ctx, all[i], i) {
      if i < |ids| {
        assert FollowsAt(r, ctx, ids[i], i);
        assert n.alertsUsed[i] == r.alertsUsed[i] && n.cases[i] == r.cases[i] && n.dispositions[i] == r.dispositions[i];
      }
    }
  }

  lemma {:induction false} HandleKeeps(r: Records, kind: Kind, ctx: Context, p: Params, ids: seq<string>, a: Alert)
    requires Ready(kind, p) && Follows(r, ctx, ids) && References(r)
    ensures Follows(Handle(r, kind, ctx, p, |ids|, a), ctx, ids + [a.id])
    ensures References(Handle(r, kind, ctx, p, |ids|, a))
  {
    var i := |ids|;
    var used, c, d := Used(kind, ctx, p, i, a), CaseOf(kind, ctx, p, i, a), DispositionOf(kind, ctx, p, i, a);
    var steps, escalations := StepsOf(kind, ctx, i, a, StepTypes(kind, p)), EscalationsOf(kind, ctx, p, i, a);
    StepsName(kind, ctx, i, a, StepTypes(kind, p));
    assert used.id == a.id && c.id == CaseId(ctx, i) && Fits(used, c, steps, escalations, d);
    AddFollows(r, ctx, ids, used, c, steps, escalations, d);
    AddKeepsReferences(r, used, c, steps, escalations, d);
  }

  lemma {:induction false} PerAlertFollows(kind: Kind, ctx: Context, p: Params, alerts: seq<Alert>)
    requires Ready(kind, p)
    ensures Follows(PerAlert(kind, ctx, p, alerts), ctx, Ids(alerts)) && References(PerAlert(kind, ctx, p, alerts))
  {
    if alerts != [] {
      var n := |alerts| - 1;
      PerAlertFollows(kind, ctx, p, alerts[..n]);
      HandleKeeps(PerAlert(kind, ctx, p, alerts[..n]), kind, ctx, p, Ids(alerts[..n]), alerts[n]);
    }
  }

  lemma {:induction false} FollowsIsIntact(r: Records, ctx: Context, ids: seq<string>)
    requires Follows(r, ctx, ids) && References(r) && Distinct(ids)
    ensures Integrity(r)
  {
    forall i, j | 0 <= i < j < |r.cases| ensures r.cases[i].id != r.cases[j].id {
      assert FollowsAt(r, ctx, ids[i], i) && FollowsAt(r, ctx, ids[j], j);
      if CaseId(ctx, i) == CaseId(ctx, j) {
        NumberedInjective(ctx.scenario + "-case", i, ctx.scenario + "-case", j);
      }
    }
    forall i, j | 0 <= i < j < |r.alertsUsed| ensures r.alertsUsed[i].id != r.alertsUsed[j].id {
      assert FollowsAt(r, ctx, ids[i], i) && FollowsAt(r, ctx, ids[j], j) && ids[i] != ids[j];
    }
  }

  lemma {:induction false} PickedDistinct(kind: Kind, alerts: seq<Alert>)
    requires DistinctAlerts(alerts)
    ensures DistinctAlerts(Picked(kind, alerts))
    ensures forall k :: 0 <= k < |Picked(kind, alerts)| ==> Picked(kind, alerts)[k] in alerts
  {
    if alerts != [] {
      var n := |alerts| - 1;
      PickedDistinct(kind, alerts[..n]);
      var front := Picked(kind, alerts[..n]);
      forall k | 0 <= k < |front| ensures front[k].id != alerts[n].id {
        assert front[k] in alerts[..n];
        var i :| 0 <= i < n && alerts[i] == front[k];
      }
    }
  }

  lemma {:induction false} AlertScenarioIntact(kind: Kind, ctx: Context, p: Params, alerts: seq<Alert>)
    requires DistinctAlerts(alerts) && AlertScenario(kind, ctx, p, alerts).Ok?
    ensures Integrity(AlertScenario(kind, ctx, p, alerts).value)
    ensures Follows(AlertScenario(kind, ctx, p, alerts).value, ctx, Ids(Selected(kind, p, alerts)))
  {
    var selected := Selected(kind, p, alerts);
    PickedDistinct(kind, alerts);
    assert DistinctAlerts(selected);
    if selected != [] {
      PerAlertFollows(kind, ctx, p, selected);
      FollowsIsIntact(PerAlert(kind, ctx, p, selected), ctx, Ids(selected));
    }
  }

  // ---- The silent assets ----

  function IsFree(prefix: string, existing: set<string>): nat -> bool {
    (n: nat) => Numbered(prefix, n) !in existing
  }

  /** The free indices in [i, end), in order. */
  ghost predicate FreeBetween(free: nat -> bool, i: nat, end: nat, r: seq<nat>) {
    && (forall k :: 0 <= k < |r| ==> i <= r[k] < end && free(r[k]))
    && (forall k, l :: 0 <= k < l < |r| ==> r[k] < r[l])
    && (forall n :: i <= n < end && free(n) ==> n in r)
  }

  lemma {:induction false} FreeBetweenSkip(free: nat -> bool, i: nat, end: nat, r: seq<nat>)
    requires FreeBetween(free, i + 1, end, r) && !free(i)
    ensures FreeBetween(free, i, end, r)
  {
  }

  lemma {:induction false} FreeBetweenTake(free: nat -> bool, i: nat, end: nat, r: seq<nat>)
    requires FreeBetween(free, i + 1, end, r) && free(i) && i < end
    ensures FreeBetween(free, i, end, [i] + r)
  {
    var all := [i] + r;
    assert all[0] == i && forall k :: 1 <= k < |all| ==> all[k] == r[k - 1];
    forall n | i <= n < end && free(n) ensures n in all {
      assert n == i || n in r;
    }
  }

  /** The next candidate is skipped or taken, and the search goes on from the one after it. */
  lemma {:induction false} SearchStep(prefix: string, existing: set<string>, i: nat, count: int)
    requires count > 0
    ensures var free := Numbered(prefix, i) !in existing; var left := if free then count - 1 else count;
            && SearchEnd(prefix, existing, i, count) == SearchEnd(prefix, existing, i + 1, left)
            && FreeIndices(prefix, existing, i, count)
               == (if free then [i] else []) + FreeIndices(prefix, existing, i + 1, left)
            && (!free ==> Ahead(prefix, existing, i + 1) < Ahead(prefix, existing, i))
  {
    if Numbered(prefix, i) in existing {
      PassedNext(prefix, i, existing);
    }
  }

  lemma {:induction false} FreeIndicesCount(prefix: string, existing: set<string>, i: nat, count: int)
    ensures |FreeIndices(prefix, existing, i, count)| == if count > 0 then count else 0
    decreases if count < 0 then 0 else count, Ahead(prefix, existing, i)
  {
    if count > 0 {
      SearchStep(prefix, existing, i, count);
      FreeIndicesCount(prefix, existing, i + 1, if Numbered(prefix, i) in existing then count else count - 1);
    }
  }

  /** Exactly the free candidates below the index where the search ends. */
  lemma {:induction false} FreeIndicesExact(prefix: string, existing: set<string>, i: nat, count: int)
    ensures FreeBetween(IsFree(prefix, existing), i, SearchEnd(prefix, existing, i, count),
                        FreeIndices(prefix, existing, i, count))
    decreases if count < 0 then 0 else count, Ahead(prefix, existing, i)
  {
    if count > 0 {
      var free := IsFree(prefix, existing);
      var left := if free(i) then count - 1 else count;
      var end, rest := SearchEnd(prefix, existing, i + 1, left), FreeIndices(prefix, existing, i + 1, left);
      SearchStep(prefix, existing, i, count);
      FreeIndicesExact(prefix, existing, i + 1, left);
      if free(i) {
        FreeBetweenTake(free, i, end, rest);
      } else {
        FreeBetweenSkip(free, i, end, rest);
      }
    }
  }

  lemma {:induction false} AssetsAtIds(ctx: Context, criticality: string, indices: seq<nat>)
    ensures |AssetsAt(ctx, criticality, indices)| == |indices|
    ensures forall k :: 0 <= k < |indices| ==>
              AssetsAt(ctx, criticality, indices)[k].id == Numbered(SilentPrefix(ctx), indices[k])
  {
    if indices != [] {
      AssetsAtIds(ctx, criticality, indices[..|indices| - 1]);
    }
  }

  /** As many new assets as asked for, with ids that are pairwise distinct and taken by no existing asset. */
  lemma {:induction false} SilentAssetsFresh(ctx: Context, p: Params, alerts: seq<Alert>, existing: set<string>)
    ensures var assets := SilentAssets(ctx, p, alerts, existing).extraAssets;
            && |assets| == (if Or(p.silentCount, 3) > 0 then Or(p.silentCount, 3) else 0)
            && DistinctAssets(assets)
            && forall k :: 0 <= k < |assets| ==> assets[k].id !in existing
  {
    var prefix, count := SilentPrefix(ctx), Or(p.silentCount, 3);
    var indices := FreeIndices(prefix, existing, 0, count);
    FreeIndicesCount(prefix, existing, 0, count);
    FreeIndicesExact(prefix, existing, 0, count);
    AssetsAtIds(ctx, Or(p.silentCriticality, "critical"), indices);
    forall k, l | 0 <= k < l < |indices| ensures Numbered(prefix, indices[k]) != Numbered(prefix, indices[l]) {
      if Numbered(prefix, indices[k]) == Numbered(prefix, indices[l]) {
        NumberedInjective(prefix, indices[k], prefix, indices[l]);
      }
    }
  }

  // ---- The template investigations ----

  function TemplateIds(alerts: seq<Alert>, n: nat): (r: seq<string>)
    requires alerts != []
    ensures |r| == n && forall i :: 0 <= i < n ==> r[i] == Numbered(alerts[i % |alerts|].id, i)
  {
    if n == 0 then [] else TemplateIds(alerts, n - 1) + [Numbered(alerts[(n - 1) % |alerts|].id, n - 1)]
  }

  lemma {:induction false} TemplateIdsDistinct(alerts: seq<Alert>, n: nat)
    requires alerts != []
    ensures Distinct(TemplateIds(alerts, n))
  {
    var r := TemplateIds(alerts, n);
    forall i, j | 0 <= i < j < n ensures r[i] != r[j] {
      if r[i] == r[j] {
        NumberedInjective(alerts[i % |alerts|].id, i, alerts[j % |alerts|].id, j);
      }
    }
  }

  lemma {:induction false} TemplatesFollow(ctx: Context, p: Params, alerts: seq<Alert>, n: nat)
    requires alerts != [] && p.closeMin.Some? && p.closeMax.Some?
    ensures Follows(Templates(ctx, p, alerts, n), ctx, TemplateIds(alerts, n))
    ensures References(Templates(ctx, p, alerts, n))
  {
    if n > 0 {
      TemplatesFollow(ctx, p, alerts, n - 1);
      TemplateTurn(Templates(ctx, p, alerts, n - 1), ctx, p, TemplateIds(alerts, n - 1), alerts[(n - 1) % |alerts|]);
    }
  }

  lemma {:induction false} TemplateTurn(r: Records, ctx: Context, p: Params, ids: seq<string>, a: Alert)
    requires p.closeMin.Some? && p.closeMax.Some? && Follows(r, ctx, ids) && References(r)
    ensures Follows(HandleTemplate(r, ctx, p, |ids|, a), ctx, ids + [Numbered(a.id, |ids|)])
    ensures References(HandleTemplate(r, ctx, p, |ids|, a))
  {
    var i := |ids|;
    var used, c, step := TemplateAlert(p, i, a), TemplateCase(ctx, p, i, a), TemplateStep(ctx, p, i, a);
    var d := NewDisposition(Numbered(a.id, i), CaseId(ctx, i), TemplateClosed(p, a), "true_positive", ctx);
    TemplateFits(ctx, p, i, a);
    AddFollows(r, ctx, ids, used, c, [step], [], d);
    AddKeepsReferences(r, used, c, [step], [], d);
  }

  lemma {:induction false} TemplateFits(ctx: Context, p: Params, i: nat, a: Alert)
    requires p.closeMin.Some? && p.closeMax.Some?
    ensures Fits(TemplateAlert(p, i, a), TemplateCase(ctx, p, i, a), [TemplateStep(ctx, p, i, a)], [],
                 NewDisposition(Numbered(a.id, i), CaseId(ctx, i), TemplateClosed(p, a), "true_positive", ctx))
    ensures TemplateAlert(p, i, a).id == Numbered(a.id, i) && TemplateCase(ctx, p, i, a).id == CaseId(ctx, i)
  {
  }

  /** Distinct ids even when one input alert serves many cases, or input alerts share an id. */
  lemma {:induction false} TemplateScenarioIntact(ctx: Context, p: Params, alerts: seq<Alert>)
    requires TemplateScenario(ctx, p, alerts).Ok?
    ensures Integrity(TemplateScenario(ctx, p, alerts).value)
  {
    var n := Or(p.minSteps, 6);
    if alerts != [] && n > 0 {
      TemplatesFollow(ctx, p, alerts, n);
      TemplateIdsDistinct(alerts, n);
      FollowsIsIntact(Templates(ctx, p, alerts, n), ctx, TemplateIds(alerts, n));
    }
  }

  // ---- The recurring alerts ----

  /** One case that holds every alert in use, each disposed of once within it. */
  ghost predicate Absorbed(r: Records, ctx: Context, n: nat) {
    && |r.cases| == 1 && r.cases[0].id == CaseId(ctx, 0) && r.cases[0].alertIds == Ids(r.alertsUsed)
    && |r.alertsUsed| == |r.dispositions| == n
    && forall k :: 0 <= k < n ==>
         r.dispositions[k].alertId == r.alertsUsed[k].id && r.dispositions[k].caseId == CaseId(ctx, 0)
  }

  lemma {:induction false} AbsorbedIsIntact(r: Records, ctx: Context, n: nat)
    requires Absorbed(r, ctx, n) && DistinctAlerts(r.alertsUsed) && r.extraAssets == [] && r.steps == []
    requires r.escalations == []
    ensures Integrity(r)
  {
    forall k | 0 <= k < n ensures InCase(r.cases, r.dispositions[k].caseId, r.dispositions[k].alertId) {
      assert Ids(r.alertsUsed)[k] == r.alertsUsed[k].id;
      assert r.cases[0].id == CaseId(ctx, 0) && r.dispositions[k].alertId in r.cases[0].alertIds;
    }
    forall id | id in r.cases[0].alertIds ensures HasAlert(r.alertsUsed, id) {
      var k :| 0 <= k < n && Ids(r.alertsUsed)[k] == id;
      assert r.alertsUsed[k].id == id;
    }
  }

  /** One closed case that absorbs every alert, each disposed of once. */
  lemma {:induction false} RecurringScenarioIntact(ctx: Context, p: Params, alerts: seq<Alert>)
    requires RecurringScenario(ctx, p, alerts).Ok?
    ensures Integrity(RecurringScenario(ctx, p, alerts).value)
    ensures alerts != [] ==>
              Or(p.recurrence, 4) > 0 && Absorbed(RecurringScenario(ctx, p, alerts).value, ctx, Or(p.recurrence, 4))
  {
    var n := Or(p.recurrence, 4);
    if alerts != [] {
      RecurringDistinct(ctx, alerts, n);
      AbsorbedIsIntact(RecurringScenario(ctx, p, alerts).value, ctx, n);
    }
  }

  lemma {:induction false} RecurringDistinct(ctx: Context, alerts: seq<Alert>, n: nat)
    requires alerts != []
    ensures DistinctAlerts(RecurringAlerts(ctx, alerts, n))
  {
    var r := RecurringAlerts(ctx, alerts, n);
    forall i, j | 0 <= i < j < n ensures r[i].id != r[j].id {
      RecurringAt(ctx, alerts, n, i);
      RecurringAt(ctx, alerts, n, j);
      if RecurringId(ctx, i) == RecurringId(ctx, j) {
        NumberedInjective(ctx.scenario + "-recur-alert", i, ctx.scenario + "-recur-alert", j);
      }
    }
  }

  // ---- The case ids that alerts carry themselves ----

  /** Every case id of an alert in use names a generated case that holds the alert. */
  ghost predicate LinksBack(r: Records) {
    forall k, id :: 0 <= k < |r.alertsUsed| && id in r.alertsUsed[k].caseIds ==> InCase(r.cases, id, r.alertsUsed[k].id)
  }

  /** Alert i carries at most the id of case i. */
  ghost predicate OwnLinks(alerts: seq<Alert>, ctx: Context) {
    forall i, id :: 0 <= i < |alerts| && id in alerts[i].caseIds ==> id == CaseId(ctx, i)
  }

  lemma {:induction false} FollowsLinks(r: Records, ctx: Context, ids: seq<string>)
    requires Follows(r, ctx, ids) && Distinct(ids)
    ensures LinksBack(r) <==> OwnLinks(r.alertsUsed, ctx)
  {
    forall k, id | 0 <= k < |r.alertsUsed| ensures InCase(r.cases, id, r.alertsUsed[k].id) <==> id == CaseId(ctx, k) {
      assert FollowsAt(r, ctx, ids[k], k);
      if InCase(r.cases, id, r.alertsUsed[k].id) {
        var i :| 0 <= i < |r.cases| && r.cases[i].id == id && r.alertsUsed[k].id in r.cases[i].alertIds;
        assert FollowsAt(r, ctx, ids[i], i);
      }
    }
  }

  function UsedAll(kind: Kind, ctx: Context, p: Params, alerts: seq<Alert>): (r: seq<Alert>)
    requires Ready(kind, p)
    ensures |r| == |alerts| && forall i :: 0 <= i < |alerts| ==> r[i] == Used(kind, ctx, p, i, alerts[i])
  {
    if alerts == [] then []
    else UsedAll(kind, ctx, p, alerts[..|alerts| - 1]) + [Used(kind, ctx, p, |alerts| - 1, alerts[|alerts| - 1])]
  }

  lemma {:induction false} PerAlertUsed(kind: Kind, ctx: Context, p: Params, alerts: seq<Alert>)
    requires Ready(kind, p)
    ensures PerAlert(kind, ctx, p, alerts).alertsUsed == UsedAll(kind, ctx, p, alerts)
  {
    if alerts != [] {
      PerAlertUsed(kind, ctx, p, alerts[..|alerts| - 1]);
    }
  }

  /** Only missing_investigation keeps the case ids that an alert comes with. */
  lemma {:induction false} UsedLinks(kind: Kind, ctx: Context, p: Params, alerts: seq<Alert>)
    requires Ready(kind, p)
    ensures OwnLinks(PerAlert(kind, ctx, p, alerts).alertsUsed, ctx) <==>
              (kind.MissingInvestigation? ==> OwnLinks(alerts, ctx))
  {
    var used := PerAlert(kind, ctx, p, alerts).alertsUsed;
    PerAlertUsed(kind, ctx, p, alerts);
    assert forall i :: 0 <= i < |alerts| ==>
        used[i].caseIds == if kind.MissingInvestigation? then alerts[i].caseIds else [CaseId(ctx, i)];
  }

  lemma {:induction false} PerAlertLinks(kind: Kind, ctx: Context, p: Params, alerts: seq<Alert>)
    requires Ready(kind, p) && DistinctAlerts(alerts)
    ensures LinksBack(PerAlert(kind, ctx, p, alerts)) <==> (kind.MissingInvestigation? ==> OwnLinks(alerts, ctx))
  {
    PerAlertFollows(kind, ctx, p, alerts);
    FollowsLinks(PerAlert(kind, ctx, p, alerts), ctx, Ids(alerts));
    UsedLinks(kind, ctx, p, alerts);
  }

  lemma {:induction false} SelectedDistinct(kind: Kind, p: Params, alerts: seq<Alert>)
    requires DistinctAlerts(alerts)
    ensures DistinctAlerts(Selected(kind, p, alerts))
  {
    PickedDistinct(kind, alerts);
  }

  lemma {:induction false} AlertScenarioLinks(kind: Kind, ctx: Context, p: Params, alerts: seq<Alert>)
    requires DistinctAlerts(alerts) && AlertScenario(kind, ctx, p, alerts).Ok?
    ensures LinksBack(AlertScenario(kind, ctx, p, alerts).value)
            <==> (kind.MissingInvestigation? ==> OwnLinks(Selected(kind, p, alerts), ctx))
  {
    var selected := Selected(kind, p, alerts);
    if selected != [] {
      SelectedDistinct(kind, p, alerts);
      PerAlertLinks(kind, ctx, p, selected);
    }
  }

  function TemplateAlerts(p: Params, alerts: seq<Alert>, n: nat): (r: seq<Alert>)
    requires alerts != [] && p.closeMin.Some? && p.closeMax.Some?
    ensures |r| == n && forall i :: 0 <= i < n ==> r[i] == TemplateAlert(p, i, alerts[i % |alerts|])
  {
    if n == 0 then [] else TemplateAlerts(p, alerts, n - 1) + [TemplateAlert(p, n - 1, alerts[(n - 1) % |alerts|])]
  }

  lemma {:induction false} TemplatesUsed(ctx: Context, p: Params, alerts: seq<Alert>, n: nat)
    requires alerts != [] && p.closeMin.Some? && p.closeMax.Some?
    ensures Templates(ctx, p, alerts, n).alertsUsed == TemplateAlerts(p, alerts, n)
  {
    if n > 0 {
      TemplatesUsed(ctx, p, alerts, n - 1);
    }
  }

  /** The alerts that the template loop takes in turn. */
  ghost predicate OwnTemplateLinks(alerts: seq<Alert>, ctx: Context, n: int) {
    alerts != [] ==> forall i, id :: 0 <= i < n && id in alerts[i % |alerts|].caseIds ==> id == CaseId(ctx, i)
  }

  lemma {:induction false} TemplateScenarioLinks(ctx: Context, p: Params, alerts: seq<Alert>)
    requires TemplateScenario(ctx, p, alerts).Ok?
    ensures LinksBack(TemplateScenario(ctx, p, alerts).value) <==> OwnTemplateLinks(alerts, ctx, Or(p.minSteps, 6))
  {
    var n := Or(p.minSteps, 6);
    if alerts != [] && n > 0 {
      var r := Templates(ctx, p, alerts, n);
      TemplatesFollow(ctx, p, alerts, n);
      TemplateIdsDistinct(alerts, n);
      FollowsLinks(r, ctx, TemplateIds(alerts, n));
      TemplatesUsed(ctx, p, alerts, n);
      assert forall i :: 0 <= i < n ==> r.alertsUsed[i].caseIds == alerts[i % |alerts|].caseIds;
    }
  }

  lemma {:induction false} RecurringScenarioLinks(ctx: Context, p: Params, alerts: seq<Alert>)
    requires RecurringScenario(ctx, p, alerts).Ok?
    ensures LinksBack(RecurringScenario(ctx, p, alerts).value)
  {
    if alerts != [] {
      var r, n := RecurringScenario(ctx, p, alerts).value, Or(p.recurrence, 4);
      RecurringScenarioIntact(ctx, p, alerts);
      forall k, id | 0 <= k < n && id in r.alertsUsed[k].caseIds ensures InCase(r.cases, id, r.alertsUsed[k].id) {
        RecurringAt(ctx, alerts, n, k);
        assert Ids(r.alertsUsed)[k] == r.alertsUsed[k].id && r.cases[0].id == CaseId(ctx, 0);
      }
    }
  }

  /** What the input alerts may carry, scenario by scenario: most overwrite it, three keep it. */
  ghost predicate InputLinks(name: string, ctx: Context, p: Params, alerts: seq<Alert>) {
    if name == "missing_investigation" then OwnLinks(Selected(MissingInvestigation, p, alerts), ctx)
    else if name == "template_investigation" then OwnTemplateLinks(alerts, ctx, Or(p.minSteps, 6))
    else if name == "silent_critical_asset" then forall k :: 0 <= k < |alerts| ==> alerts[k].caseIds == []
    else true
  }

  lemma {:induction false} SilentLinks(ctx: Context, p: Params, alerts: seq<Alert>, existing: set<string>)
    ensures LinksBack(SilentAssets(ctx, p, alerts, existing)) <==>
              forall k :: 0 <= k < |alerts| ==> alerts[k].caseIds == []
  {
    var r := SilentAssets(ctx, p, alerts, existing);
    forall k | 0 <= k < |alerts| && alerts[k].caseIds != [] ensures !LinksBack(r) {
      assert alerts[k].caseIds[0] in r.alertsUsed[k].caseIds;
    }
  }

  lemma {:induction false} KindNames(name: string)
    ensures KindNamed(name) == Some(MissingInvestigation) <==> name == "missing_investigation"
    ensures KindNamed(name).Some? ==> name != "template_investigation" && name != "silent_critical_asset"
  {
  }

  /** In any returned bundle the case ids of the alerts lead back exactly when the kept ones of the input do. */
  lemma {:induction false} LinksBackIffInputLinks(name: string, ctx: Context, p: Params, alerts: seq<Alert>,
                                                  existing: set<string>)
    requires DistinctAlerts(alerts) && Run(name, ctx, p, alerts, existing).Ok?
    ensures LinksBack(Run(name, ctx, p, alerts, existing).value) <==> InputLinks(name, ctx, p, alerts)
  {
    KindNames(name);
    if KindNamed(name).Some? {
      AlertScenarioLinks(KindNamed(name).value, ctx, p, alerts);
    } else if name == "silent_critical_asset" {
      SilentLinks(ctx, p, alerts, existing);
    } else if name == "template_investigation" {
      TemplateScenarioLinks(ctx, p, alerts);
    } else {
      RecurringScenarioLinks(ctx, p, alerts);
    }
  }

  // ---- The main result ----

  /** Whatever the policy, the scenario and the inputs: a bundle that is returned is intact. */
  lemma {:induction false} GeneratedIsIntact(policy: Policy, name: string, dataset: string, alerts: seq<Alert>,
                                             existing: set<string>)
    requires DistinctAlerts(alerts) && Generate(policy, name, dataset, alerts, existing).Ok?
    ensures Integrity(Generate(policy, name, dataset, alerts, existing).value)
  {
    RunIsIntact(name, Context(name, dataset, policy.version), GetScenario(policy, name).value, alerts, existing);
  }

  lemma {:induction false} RunIsIntact(name: string, ctx: Context, p: Params, alerts: seq<Alert>, existing: set<string>)
    requires DistinctAlerts(alerts) && Run(name, ctx, p, alerts, existing).Ok?
    ensures Integrity(Run(name, ctx, p, alerts, existing).value)
  {
    var kind := KindNamed(name);
    if kind.Some? {
      AlertScenarioIntact(kind.value, ctx, p, alerts);
    } else if name == "silent_critical_asset" {
      SilentAssetsFresh(ctx, p, alerts, existing);
    } else if name == "template_investigation" {
      TemplateScenarioIntact(ctx, p, alerts);
    } else {
      RecurringScenarioIntact(ctx, p, alerts);
    }
  }

  lemma {:induction false} GeneratedPeerIsIntact(policy: Policy, peerLabel: string, dataset: string, alerts: seq<Alert>)
    requires DistinctAlerts(alerts) && GeneratePeer(policy, peerLabel, dataset, alerts).Ok?
    ensures Integrity(GeneratePeer(policy, peerLabel, dataset, alerts).value)
  {
    AlertScenarioIntact(PeerEntity, Context("peer_outlier-" + peerLabel, dataset, policy.version),
                        GetScenario(policy, "peer_outlier").value, alerts);
  }
}
