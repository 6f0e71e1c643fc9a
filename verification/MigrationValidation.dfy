/** The cutover check of satsa/migration_validation.py: a target database against its offline source. */
module MigrationValidation {
  import opened Counting

  /** A column value; a driver may hand binary data over as a memory view. */
  datatype Value = Null | Text(text: string) | Number(number: real) | Bytes(data: seq<int>) | View(data: seq<int>)

  type Row = map<string, Value>
  type Rows = map<Value, Row>

  datatype Table =
    | Entities | Assessments | Submissions | SourceRecords | Alerts | Cases | InvestigationSteps | Escalations
    | Dispositions | Assets | Runs | Observations | Findings | Jobs | ReviewDecisions | TrustReceipts
    | SubmissionVersions | Artifacts | TrustFinalizations | RunReviewDecisions | RunRecommendations

  const TABLES := [
    Entities, Assessments, Submissions, SourceRecords, Alerts, Cases, InvestigationSteps, Escalations,
    Dispositions, Assets, Runs, Observations, Findings, Jobs, ReviewDecisions, TrustReceipts,
    SubmissionVersions, Artifacts, TrustFinalizations, RunReviewDecisions, RunRecommendations]

  /** The tables, by primary key, the ids of the organizations, and the organization recorded in each run's context. */
  datatype Database = Database(tables: map<Table, Rows>, organizations: set<string>, runContexts: map<Value, Value>) {
    function Of(t: Table): Rows {
      if t in tables then tables[t] else map[]
    }
  }

  function Column(row: Row, name: string): Value {
    if name in row then row[name] else Null
  }

  // ---- Ownership ----

  /** How a row is owned: by its own column, through the row another column refers to, or as a receipt. */
  datatype Path = Direct | Via(column: string, parent: Table) | ByReceipt

  function PathOf(t: Table): Path {
    match t
    case SourceRecords => Via("submission_id", Submissions)
    case Alerts => Via("submission_id", Submissions)
    case Cases => Via("submission_id", Submissions)
    case InvestigationSteps => Via("submission_id", Submissions)
    case Escalations => Via("submission_id", Submissions)
    case Dispositions => Via("submission_id", Submissions)
    case Assets => Via("submission_id", Submissions)
    case Observations => Via("run_id", Runs)
    case Jobs => Via("run_id", Runs)
    case Findings => Via("observation_id", Observations)
    case ReviewDecisions => Via("finding_id", Findings)
    case TrustReceipts => ByReceipt
    case _ => Direct
  }

  /** The number of joins to the owning row, which bounds the recursion. */
  function Depth(t: Table): nat {
    match PathOf(t)
    case Direct => 0
    case ByReceipt => 4
    case Via(_, parent) => if parent == Findings then 3 else if parent == Observations then 2 else 1
  }

  predicate DirectlyOwned(db: Database, t: Table, id: Value, organization: string) {
    id in db.Of(t) && Column(db.Of(t)[id], "organization_id") == Text(organization)
  }

  /** The finalization f names the receipt. */
  predicate Finalizes(db: Database, f: Value, receipt: Value) {
    f in db.Of(TrustFinalizations) && receipt != Null && Column(db.Of(TrustFinalizations)[f], "receipt_id") == receipt
  }

  /** The finalization f names the receipt and belongs to the organization. */
  predicate FinalizedFor(db: Database, f: Value, receipt: Value, organization: string) {
    Finalizes(db, f, receipt) && DirectlyOwned(db, TrustFinalizations, f, organization)
  }

  /** The joins of `_owned_ids`: does the row belong to the organization? */
  predicate OwnedBy(db: Database, t: Table, id: Value, organization: string)
    decreases Depth(t)
  {
    id in db.Of(t) &&
    match PathOf(t)
    case Direct => Column(db.Of(t)[id], "organization_id") == Text(organization)
    case Via(column, parent) =>
      Column(db.Of(t)[id], column) != Null && OwnedBy(db, parent, Column(db.Of(t)[id], column), organization)
    case ByReceipt =>
      var row := db.Of(t)[id];
      (Column(row, "subject_type") == Text("run") && Column(row, "subject_id") != Null
       && OwnedBy(db, Runs, Column(row, "subject_id"), organization))
      || (Column(row, "subject_type") == Text("finding") && Column(row, "subject_id") != Null
          && OwnedBy(db, Findings, Column(row, "subject_id"), organization))
      || (Column(row, "subject_type") == Text("supervisory_finalization")
          && exists f :: f in db.Of(TrustFinalizations) && FinalizedFor(db, f, id, organization))
  }

  /** The union of `_owned_ids` over the mapped organizations. */
  function ScopedIds(db: Database, t: Table, organizations: set<string>): set<Value> {
    set id | id in db.Of(t) && exists o :: o in organizations && OwnedBy(db, t, id, o)
  }

  // ---- The check ----

  const DIRECT_OWNER_TABLES := {Entities, Assessments, Submissions, Runs}

  function NormalizeValue(v: Value): Value {
    if v.View? then Bytes(v.data) else v
  }

  function Normalize(row: Row): Row {
    map c | c in row && c != "organization_id" :: NormalizeValue(row[c])
  }

  type Ownership = map<Value, string>

  /** The entity a directly owned source row names. */
  function NamedEntity(source: Database, t: Table, id: Value): Value
    requires id in source.Of(t)
  {
    if t == Entities then id else Column(source.Of(t)[id], "entity_id")
  }

  /** A ledger file: missing, or its bytes together with whether its hash chain verifies. */
  datatype Ledger = Missing | File(bytes: seq<int>, chainValid: bool)

  datatype Reason =
    | OwnersIncomplete | OrganizationMissing | LedgerListsDiffer | OwnerUnknown | RowsDiffer(table: Table)
    | RowMissing(table: Table) | RowDiffers(table: Table) | WrongOrganization(table: Table)
    | LedgerMissing | LedgerChainInvalid | LedgerDiffers

  datatype Outcome = Valid(counts: map<Table, nat>) | Failed(reason: Reason)

  predicate OwnersComplete(source: Database, ownership: Ownership) {
    ownership.Keys == source.Of(Entities).Keys && forall e :: e in ownership ==> ownership[e] != ""
  }

  predicate OrganizationsPresent(target: Database, ownership: Ownership) {
    forall e :: e in ownership ==> ownership[e] in target.organizations
  }

  /** Every directly owned source row names an entity with a declared owner. */
  predicate OwnersKnown(source: Database, ownership: Ownership) {
    forall t, id :: t in DIRECT_OWNER_TABLES && id in source.Of(t) ==> NamedEntity(source, t, id) in ownership
  }

  predicate RowMatches(source: Database, target: Database, t: Table, id: Value)
    requires id in source.Of(t)
  {
    id in target.Of(t) && Normalize(source.Of(t)[id]) == Normalize(target.Of(t)[id])
  }

  predicate RowOwned(source: Database, target: Database, ownership: Ownership, t: Table, id: Value)
    requires id in source.Of(t) && id in target.Of(t)
  {
    t in DIRECT_OWNER_TABLES ==>
      NamedEntity(source, t, id) in ownership
      && Column(target.Of(t)[id], "organization_id") == Text(ownership[NamedEntity(source, t, id)])
  }

  ghost predicate TableValid(source: Database, target: Database, ownership: Ownership, t: Table) {
    && ScopedIds(target, t, ownership.Values) == source.Of(t).Keys
    && RowsGood(source, target, ownership, t, source.Of(t).Keys)
  }

  ghost predicate TablesValid(source: Database, target: Database, ownership: Ownership, tables: seq<Table>) {
    forall t :: t in tables ==> TableValid(source, target, ownership, t)
  }

  predicate LedgersMatch(a: Ledger, b: Ledger) {
    a.File? && b.File? && a.chainValid && b.chainValid && a.bytes == b.bytes
  }

  /** Everything the source's check promises when it returns. */
  ghost predicate MigrationValid(source: Database, target: Database, ownership: Ownership,
                                 sourceLedgers: seq<Ledger>, targetLedgers: seq<Ledger>)
  {
    && OwnersComplete(source, ownership) && OrganizationsPresent(target, ownership)
    && |sourceLedgers| == |targetLedgers| && OwnersKnown(source, ownership)
    && TablesValid(source, target, ownership, TABLES)
    && (forall i :: 0 <= i < |sourceLedgers| ==> LedgersMatch(sourceLedgers[i], targetLedgers[i]))
  }

  /** The fetch loop: is any source row missing from the target? */
  method AllPresent(sourceRows: Rows, targetRows: Rows) returns (ok: bool)
    ensures ok <==> sourceRows.Keys <= targetRows.Keys
  {
    var rest := sourceRows.Keys;
    while rest != {}
      invariant rest <= sourceRows.Keys
      invariant sourceRows.Keys - rest <= targetRows.Keys
      decreases rest
    {
      var id :| id in rest;
      if id !in targetRows {
        return false;
      }
      rest := rest - {id};
    }
    return true;
  }

  predicate RowGood(source: Database, target: Database, ownership: Ownership, t: Table, id: Value) {
    && id in source.Of(t) && RowMatches(source, target, t, id)
    && RowOwned(source, target, ownership, t, id)
  }

  /** One turn of the comparison loop. */
  method CheckRow(source: Database, target: Database, ownership: Ownership, t: Table, id: Value)
    returns (failure: Option<Reason>)
    requires OwnersKnown(source, ownership) && id in source.Of(t) && id in target.Of(t)
    ensures failure.None? <==> RowGood(source, target, ownership, t, id)
    ensures failure.Some? ==> failure.value in {RowDiffers(t), WrongOrganization(t)}
  {
    if Normalize(source.Of(t)[id]) != Normalize(target.Of(t)[id]) {
      return Some(RowDiffers(t));
    }
    if t in DIRECT_OWNER_TABLES {
      var expected := ownership[NamedEntity(source, t, id)];
      if Column(target.Of(t)[id], "organization_id") != Text(expected) {
        return Some(WrongOrganization(t));
      }
    }
    return None;
  }

  ghost predicate RowsGood(source: Database, target: Database, ownership: Ownership, t: Table, ids: set<Value>) {
    forall id :: id in ids ==> RowGood(source, target, ownership, t, id)
  }

  /** The comparison loop. */
  method CheckRows(source: Database, target: Database, ownership: Ownership, t: Table) returns (failure: Option<Reason>)
    requires OwnersKnown(source, ownership) && source.Of(t).Keys <= target.Of(t).Keys
    ensures failure.None? <==> RowsGood(source, target, ownership, t, source.Of(t).Keys)
    ensures failure.Some? ==> failure.value in {RowDiffers(t), WrongOrganization(t)}
  {
    var rest := source.Of(t).Keys;
    while rest != {}
      invariant rest <= source.Of(t).Keys
      invariant RowsGood(source, target, ownership, t, source.Of(t).Keys - rest)
      decreases rest
    {
      var id :| id in rest;
      failure := CheckRow(source, target, ownership, t, id);
      if failure.Some? {
        return;
      }
      rest := rest - {id};
    }
    assert source.Of(t).Keys - rest == source.Of(t).Keys;
    return None;
  }

  method SameScope(target: Database, t: Table, organizations: set<string>, ids: set<Value>) returns (same: bool)
    ensures same <==> ScopedIds(target, t, organizations) == ids
  {
    var scoped := ScopedIds(target, t, organizations);
    return scoped == ids;
  }

  /** The rows of one table; None when all is well. */
  method ValidateTable(source: Database, target: Database, ownership: Ownership, t: Table)
    returns (failure: Option<Reason>)
    requires OwnersKnown(source, ownership)
    ensures failure.None? <==> TableValid(source, target, ownership, t)
    ensures failure.Some? ==> failure.value in {RowsDiffer(t), RowMissing(t), RowDiffers(t), WrongOrganization(t)}
    ensures failure == Some(RowsDiffer(t)) <==> ScopedIds(target, t, ownership.Values) != source.Of(t).Keys
  {
    var same := SameScope(target, t, ownership.Values, source.Of(t).Keys);
    if !same {
      return Some(RowsDiffer(t));
    }
    var present := AllPresent(source.Of(t), target.Of(t));
    if !present {
      return Some(RowMissing(t));
    }
    failure := CheckRows(source, target, ownership, t);
  }

  method ValidateLedgers(sourceLedgers: seq<Ledger>, targetLedgers: seq<Ledger>) returns (failure: Option<Reason>)
    requires |sourceLedgers| == |targetLedgers|
    ensures failure.None? <==> forall i :: 0 <= i < |sourceLedgers| ==> LedgersMatch(sourceLedgers[i], targetLedgers[i])
  {
    for i := 0 to |sourceLedgers|
      invariant forall j :: 0 <= j < i ==> LedgersMatch(sourceLedgers[j], targetLedgers[j])
    {
      var a, b := sourceLedgers[i], targetLedgers[i];
      if a.Missing? || b.Missing? {
        return Some(LedgerMissing);
      }
      if !a.chainValid || !b.chainValid {
        return Some(LedgerChainInvalid);
      }
      if a.bytes != b.bytes {
        return Some(LedgerDiffers);
      }
    }
    return None;
  }

  function RowCounts(source: Database, tables: seq<Table>): map<Table, nat> {
    map t | t in tables :: |source.Of(t)|
  }

  lemma {:induction false} OneTableMore(source: Database, target: Database, ownership: Ownership, tables: seq<Table>,
                                        t: Table)
    requires TablesValid(source, target, ownership, tables) && TableValid(source, target, ownership, t)
    ensures TablesValid(source, target, ownership, tables + [t])
  {
  }

  lemma {:induction false} OneTableFails(source: Database, target: Database, ownership: Ownership, tables: seq<Table>,
                                         t: Table)
    requires t in tables && !TableValid(source, target, ownership, t)
    ensures !TablesValid(source, target, ownership, tables)
  {
  }

  lemma {:induction false} OneCountMore(source: Database, tables: seq<Table>, t: Table)
    ensures RowCounts(source, tables + [t]) == RowCounts(source, tables)[t := |source.Of(t)|]
  {
    assert forall x :: x in tables + [t] <==> x in tables || x == t;
  }

  /** The loop over the tables. */
  method ValidateTables(source: Database, target: Database, ownership: Ownership, tables: seq<Table>)
    returns (r: Outcome)
    requires OwnersKnown(source, ownership)
    ensures r.Valid? <==> TablesValid(source, target, ownership, tables)
    ensures r.Valid? ==> r.counts == RowCounts(source, tables)
  {
    var counts: map<Table, nat> := map[];
    for i := 0 to |tables|
      invariant counts == RowCounts(source, tables[..i])
      invariant TablesValid(source, target, ownership, tables[..i])
    {
      var t := tables[i];
      OneCountMore(source, tables[..i], t);
      assert tables[..i + 1] == tables[..i] + [t];
      counts := counts[t := |source.Of(t)|];
      var failure := ValidateTable(source, target, ownership, t);
      if failure.Some? {
        OneTableFails(source, target, ownership, tables, t);
        return Failed(failure.value);
      }
      OneTableMore(source, target, ownership, tables[..i], t);
    }
    assert tables[..|tables|] == tables;
    return Valid(counts);
  }

  // ---- What a successful check says, column by column ----

  predicate Binary(v: Value) {
    v.Bytes? || v.View?
  }

  /** Equal, or the same binary data, whichever way the two drivers hand it over. */
  predicate SameValue(v: Value, w: Value) {
    v == w || (Binary(v) && Binary(w) && v.data == w.data)
  }

  /** The same columns with the same values, but for the organization. */
  ghost predicate SameContent(x: Row, y: Row) {
    forall c :: c != "organization_id" ==> (c in x <==> c in y) && (c in x ==> SameValue(x[c], y[c]))
  }

  /** The source row is in the target with the same content and, in a direct table, with the declared organization. */
  ghost predicate RowCopied(source: Database, target: Database, ownership: Ownership, t: Table, id: Value) {
    && id in source.Of(t) && id in target.Of(t) && SameContent(source.Of(t)[id], target.Of(t)[id])
    && (t in {Entities, Assessments, Submissions, Runs} ==>
          var entity := if t == Entities then id else Column(source.Of(t)[id], "entity_id");
          entity in ownership && Column(target.Of(t)[id], "organization_id") == Text(ownership[entity]))
  }

  /** A row of the target is in scope when one of the mapped organizations owns it. */
  ghost predicate InScope(target: Database, ownership: Ownership, t: Table, id: Value) {
    exists e :: e in ownership && OwnedBy(target, t, id, ownership[e])
  }

  ghost predicate ScopeAgrees(source: Database, target: Database, ownership: Ownership, t: Table) {
    forall id :: InScope(target, ownership, t, id) <==> id in source.Of(t)
  }

  ghost predicate AllCopied(source: Database, target: Database, ownership: Ownership, t: Table) {
    forall id :: id in source.Of(t) ==> RowCopied(source, target, ownership, t, id)
  }

  ghost predicate LedgersCopied(a: seq<Ledger>, b: seq<Ledger>) {
    |a| == |b| && forall i :: 0 <= i < |a| ==> LedgerCopied(a[i], b[i])
  }

  ghost predicate LedgerCopied(a: Ledger, b: Ledger) {
    a == b && a != Missing && a.chainValid
  }

  /** What the caller of the check may rely on. */
  ghost predicate CutoverSafe(source: Database, target: Database, ownership: Ownership,
                              sourceLedgers: seq<Ledger>, targetLedgers: seq<Ledger>)
  {
    && (forall e :: e in ownership <==> e in source.Of(Entities))
    && (forall e :: e in ownership ==> ownership[e] != "" && ownership[e] in target.organizations)
    && (forall t :: ScopeAgrees(source, target, ownership, t) && AllCopied(source, target, ownership, t))
    && LedgersCopied(sourceLedgers, targetLedgers)
  }

  lemma {:induction false} NormalizesAlike(v: Value, w: Value)
    ensures NormalizeValue(v) == NormalizeValue(w) <==> SameValue(v, w)
  {
  }

  lemma {:induction false} MatchIsSameContent(x: Row, y: Row)
    ensures Normalize(x) == Normalize(y) <==> SameContent(x, y)
  {
    var a, b := Normalize(x), Normalize(y);
    forall c | c in x && c in y ensures NormalizeValue(x[c]) == NormalizeValue(y[c]) <==> SameValue(x[c], y[c]) {
      NormalizesAlike(x[c], y[c]);
    }
    if a == b {
      forall c | c != "organization_id" ensures (c in x <==> c in y) && (c in x ==> SameValue(x[c], y[c])) {
        assert c in a <==> c in b;
        assert c in a ==> a[c] == b[c];
      }
    }
  }

  lemma {:induction false} GoodIsCopied(source: Database, target: Database, ownership: Ownership, t: Table, id: Value)
    ensures RowGood(source, target, ownership, t, id) <==> RowCopied(source, target, ownership, t, id)
  {
    if id in source.Of(t) && id in target.Of(t) {
      MatchIsSameContent(source.Of(t)[id], target.Of(t)[id]);
    }
  }

  lemma {:induction false} ScopeExactly(target: Database, ownership: Ownership, t: Table, id: Value)
    ensures id in ScopedIds(target, t, ownership.Values) <==> InScope(target, ownership, t, id)
  {
    if id in ScopedIds(target, t, ownership.Values) {
      var o :| o in ownership.Values && OwnedBy(target, t, id, o);
      var e :| e in ownership && ownership[e] == o;
    }
  }

  lemma {:induction false} ScopesExactly(source: Database, target: Database, ownership: Ownership, t: Table)
    ensures ScopedIds(target, t, ownership.Values) == source.Of(t).Keys <==> ScopeAgrees(source, target, ownership, t)
  {
    var scoped, keys := ScopedIds(target, t, ownership.Values), source.Of(t).Keys;
    if scoped == keys {
      forall id ensures InScope(target, ownership, t, id) <==> id in source.Of(t) {
        ScopeExactly(target, ownership, t, id);
        assert id in scoped <==> id in keys;
      }
    }
    if ScopeAgrees(source, target, ownership, t) {
      forall id ensures id in scoped <==> id in keys {
        ScopeExactly(target, ownership, t, id);
        assert InScope(target, ownership, t, id) <==> id in source.Of(t);
      }
    }
  }

  lemma {:induction false} RowsExactly(source: Database, target: Database, ownership: Ownership, t: Table)
    ensures RowsGood(source, target, ownership, t, source.Of(t).Keys) <==> AllCopied(source, target, ownership, t)
  {
    forall id ensures RowGood(source, target, ownership, t, id) <==> RowCopied(source, target, ownership, t, id) {
      GoodIsCopied(source, target, ownership, t, id);
    }
  }

  lemma {:induction false} TablesValidExactly(source: Database, target: Database, ownership: Ownership)
    ensures TablesValid(source, target, ownership, TABLES) <==>
              forall t :: ScopeAgrees(source, target, ownership, t) && AllCopied(source, target, ownership, t)
  {
    forall t
      ensures t in TABLES
      ensures TableValid(source, target, ownership, t) <==>
                ScopeAgrees(source, target, ownership, t) && AllCopied(source, target, ownership, t)
    {
      InTables(t);
      ScopesExactly(source, target, ownership, t);
      RowsExactly(source, target, ownership, t);
    }
  }

  lemma {:induction false} CopiedOwnersKnown(source: Database, target: Database, ownership: Ownership)
    requires forall t :: AllCopied(source, target, ownership, t)
    ensures OwnersKnown(source, ownership)
  {
    forall t, id | t in DIRECT_OWNER_TABLES && id in source.Of(t) ensures NamedEntity(source, t, id) in ownership {
      assert AllCopied(source, target, ownership, t);
      assert RowCopied(source, target, ownership, t, id);
    }
  }

  lemma {:induction false} LedgersExactly(a: seq<Ledger>, b: seq<Ledger>)
    ensures LedgersCopied(a, b) <==> |a| == |b| && forall i :: 0 <= i < |a| ==> LedgersMatch(a[i], b[i])
  {
  }

  lemma {:induction false} OwnersExactly(source: Database, target: Database, ownership: Ownership)
    ensures OwnersComplete(source, ownership) && OrganizationsPresent(target, ownership) <==>
              (forall e :: e in ownership <==> e in source.Of(Entities))
              && (forall e :: e in ownership ==> ownership[e] != "" && ownership[e] in target.organizations)
  {
    if forall e :: e in ownership <==> e in source.Of(Entities) {
      assert ownership.Keys == source.Of(Entities).Keys;
    }
    if ownership.Keys == source.Of(Entities).Keys {
      assert forall e :: e in ownership.Keys <==> e in source.Of(Entities).Keys;
    }
  }

  /**
    * The check succeeds exactly when the cutover is safe: a changed value, a missing or added row, a row of the wrong
    * organization or a ledger with other bytes makes it fail.
    */
  lemma {:induction false} ValidIffSafe(source: Database, target: Database, ownership: Ownership,
                                        sourceLedgers: seq<Ledger>, targetLedgers: seq<Ledger>)
    ensures MigrationValid(source, target, ownership, sourceLedgers, targetLedgers) <==>
              CutoverSafe(source, target, ownership, sourceLedgers, targetLedgers)
  {
    OwnersExactly(source, target, ownership);
    TablesValidExactly(source, target, ownership);
    LedgersExactly(sourceLedgers, targetLedgers);
    if CutoverSafe(source, target, ownership, sourceLedgers, targetLedgers) {
      CopiedOwnersKnown(source, target, ownership);
    }
  }

  method ValidateMigration(source: Database, target: Database, ownership: Ownership,
                           sourceLedgers: seq<Ledger>, targetLedgers: seq<Ledger>) returns (r: Outcome)
    ensures r.Valid? <==> CutoverSafe(source, target, ownership, sourceLedgers, targetLedgers)
    ensures r.Valid? ==> forall t :: t in r.counts && r.counts[t] == |source.Of(t)|
  {
    ValidIffSafe(source, target, ownership, sourceLedgers, targetLedgers);
    if !OwnersComplete(source, ownership) {
      return Failed(OwnersIncomplete);
    }
    if !OrganizationsPresent(target, ownership) {
      return Failed(OrganizationMissing);
    }
    if |sourceLedgers| != |targetLedgers| {
      return Failed(LedgerListsDiffer);
    }
    if !OwnersKnown(source, ownership) {
      return Failed(OwnerUnknown);
    }
    var tables := TABLES;
    r := ValidateTables(source, target, ownership, tables);
    if r.Valid? {
      forall t ensures t in r.counts {
        InTables(t);
      }
      var failure := ValidateLedgers(sourceLedgers, targetLedgers);
      if failure.Some? {
        return Failed(failure.value);
      }
    }
  }

  // ---- What the schema's keys say ----

  /** The row names a row of `parent`, and both name the same organization. */
  predicate SharesOrganization(db: Database, row: Row, parent: Table, key: Value) {
    && key != Null && key in db.Of(parent)
    && Column(db.Of(parent)[key], "organization_id") == Column(row, "organization_id")
  }

  /** The composite key of a table that carries its own organization next to a reference. */
  datatype Key = NoKey | Key(column: string, parent: Table)

  function KeyOf(t: Table): Key {
    match t
    case SubmissionVersions => Key("submission_id", Submissions)
    case Artifacts => Key("submission_version_id", SubmissionVersions)
    case TrustFinalizations => Key("run_id", Runs)
    case RunReviewDecisions => Key("run_id", Runs)
    case RunRecommendations => Key("run_id", Runs)
    case _ => NoKey
  }

  /** The foreign keys of one row; those of the run tables lead to the run by way of its context. */
  predicate RowKeysHold(db: Database, t: Table, row: Row) {
    match KeyOf(t)
    case NoKey => true
    case Key(column, parent) =>
      var key := Column(row, column);
      if parent == Runs then key in db.runContexts && db.runContexts[key] == Column(row, "organization_id")
      else SharesOrganization(db, row, parent, key)
  }

  /** The composite foreign keys of the schema, and the uniqueness of a finalization's receipt. */
  ghost predicate KeysHold(db: Database) {
    && (forall t, id :: id in db.Of(t) ==> RowKeysHold(db, t, db.Of(t)[id]))
    && (forall run :: run in db.runContexts ==>
          run != Null && run in db.Of(Runs) && Column(db.Of(Runs)[run], "organization_id") == db.runContexts[run])
    && (forall f, g, receipt :: Finalizes(db, f, receipt) && Finalizes(db, g, receipt) ==> f == g)
  }

  // ---- Soundness: owners survive the joins and the keys ----

  /** How many rows lie at most between a row and the directly owned one that it hangs from. */
  function Height(t: Table): nat {
    match t
    case SubmissionVersions => 1
    case Artifacts => 2
    case TrustFinalizations => 1
    case RunReviewDecisions => 1
    case RunRecommendations => 1
    case _ => Depth(t)
  }

  function Named(parent: Table, key: Value): Option<(Table, Value)> {
    if key == Null then None else Some((parent, key))
  }

  /** The row that another row hangs from and shares its owner with. */
  ghost function Up(db: Database, t: Table, id: Value): (r: Option<(Table, Value)>)
    requires id in db.Of(t)
    ensures r.Some? ==> Height(r.value.0) < Height(t)
  {
    var row := db.Of(t)[id];
    match PathOf(t)
    case Direct => (match KeyOf(t) case NoKey => None case Key(column, parent) => Named(parent, Column(row, column)))
    case Via(column, parent) => Named(parent, Column(row, column))
    case ByReceipt =>
      if Column(row, "subject_type") == Text("run") then Named(Runs, Column(row, "subject_id"))
      else if Column(row, "subject_type") == Text("finding") then Named(Findings, Column(row, "subject_id"))
      else if Column(row, "subject_type") == Text("supervisory_finalization") && exists f :: Finalizes(db, f, id) then
        var f :| Finalizes(db, f, id);
        Some((TrustFinalizations, f))
      else None
  }

  /** The entity that a source row hangs from, along joins and keys. */
  ghost function ReachedEntity(source: Database, t: Table, id: Value): Option<Value>
    decreases Height(t)
  {
    if id !in source.Of(t) then None
    else if t in DIRECT_OWNER_TABLES then Some(NamedEntity(source, t, id))
    else
      match Up(source, t, id)
      case None => None
      case Some((parent, key)) => ReachedEntity(source, parent, key)
  }

  /** The declared owner of the entity the source row hangs from. */
  ghost predicate DeclaredOwner(source: Database, ownership: Ownership, t: Table, id: Value, organization: string) {
    var e := ReachedEntity(source, t, id);
    e.Some? && e.value in ownership && organization == ownership[e.value]
  }

  /** Matching rows agree on every column but the organization, up to the form of binary data. */
  lemma {:induction false} MatchingColumns(source: Database, target: Database, t: Table, id: Value, column: string)
    requires id in source.Of(t) && RowMatches(source, target, t, id) && column != "organization_id"
    ensures NormalizeValue(Column(source.Of(t)[id], column)) == NormalizeValue(Column(target.Of(t)[id], column))
  {
    var a, b := source.Of(t)[id], target.Of(t)[id];
    assert column in a <==> column in Normalize(a);
    assert column in b <==> column in Normalize(b);
    if column in a {
      assert Normalize(a)[column] == NormalizeValue(a[column]);
      assert Normalize(b)[column] == NormalizeValue(b[column]);
    }
  }

  const REFERENCES := {"submission_id", "submission_version_id", "run_id", "observation_id", "finding_id", "subject_id",
                       "subject_type", "receipt_id"}

  /** References are not binary. */
  ghost predicate PlainReferences(db: Database) {
    forall t, id :: id in db.Of(t) ==> PlainRow(db.Of(t)[id])
  }

  predicate PlainRow(row: Row) {
    forall c :: c in REFERENCES ==> !Column(row, c).View? && !Column(row, c).Bytes?
  }

  lemma {:induction false} SameReference(source: Database, target: Database, ownership: Ownership, t: Table, id: Value,
                                         column: string)
    requires PlainReferences(source) && RowGood(source, target, ownership, t, id) && column in REFERENCES
    ensures id in target.Of(t) && Column(target.Of(t)[id], column) == Column(source.Of(t)[id], column)
  {
    assert PlainRow(source.Of(t)[id]);
    MatchingColumns(source, target, t, id, column);
  }

  /** Some mapped organization owns the target row of every source row. */
  lemma {:induction false} SomeOwner(source: Database, target: Database, ownership: Ownership, t: Table, id: Value)
    returns (o: string)
    requires TableValid(source, target, ownership, t) && id in source.Of(t)
    ensures o in ownership.Values && OwnedBy(target, t, id, o)
  {
    assert id in ScopedIds(target, t, ownership.Values);
    o :| o in ownership.Values && OwnedBy(target, t, id, o);
  }

  lemma {:induction false} OwnedIsInSource(source: Database, target: Database, ownership: Ownership, t: Table,
                                           id: Value, o: string)
    requires TableValid(source, target, ownership, t) && o in ownership.Values && OwnedBy(target, t, id, o)
    ensures id in source.Of(t)
  {
    assert id in ScopedIds(target, t, ownership.Values);
  }

  lemma {:induction false} DirectOwner(source: Database, target: Database, ownership: Ownership, t: Table, id: Value,
                                       g: string)
    requires RowGood(source, target, ownership, t, id) && t in DIRECT_OWNER_TABLES
    ensures OwnedBy(target, t, id, g) <==> DeclaredOwner(source, ownership, t, id, g)
  {
  }

  lemma {:induction false} DeclaredThrough(source: Database, ownership: Ownership, t: Table, id: Value, g: string)
    requires id in source.Of(t) && t !in DIRECT_OWNER_TABLES
    ensures DeclaredOwner(source, ownership, t, id, g) ==> Up(source, t, id).Some?
    ensures Up(source, t, id).Some? ==>
              var (parent, key) := Up(source, t, id).value;
              DeclaredOwner(source, ownership, t, id, g) <==> DeclaredOwner(source, ownership, parent, key, g)
  {
  }

  lemma InTables(t: Table)
    ensures t in TABLES
  {
    assert t == TABLES[0] || t == TABLES[1] || t == TABLES[2] || t == TABLES[3] || t == TABLES[4] || t == TABLES[5]
        || t == TABLES[6] || t == TABLES[7] || t == TABLES[8] || t == TABLES[9] || t == TABLES[10] || t == TABLES[11]
        || t == TABLES[12] || t == TABLES[13] || t == TABLES[14] || t == TABLES[15] || t == TABLES[16]
        || t == TABLES[17] || t == TABLES[18] || t == TABLES[19] || t == TABLES[20];
  }

  // ---- Matching rows hang from the same row ----

  lemma {:induction false} SameUp(source: Database, target: Database, ownership: Ownership, t: Table, id: Value)
    requires PlainReferences(source) && RowGood(source, target, ownership, t, id) && t != TrustReceipts
    ensures id in target.Of(t) && Up(target, t, id) == Up(source, t, id)
  {
    if PathOf(t).Via? {
      SameReference(source, target, ownership, t, id, PathOf(t).column);
    } else if KeyOf(t).Key? {
      SameReference(source, target, ownership, t, id, KeyOf(t).column);
    }
  }

  /** A finalization that was copied names the same receipt. */
  lemma {:induction false} SameFinalization(source: Database, target: Database, ownership: Ownership, f: Value,
                                            receipt: Value)
    requires PlainReferences(source) && RowGood(source, target, ownership, TrustFinalizations, f)
    ensures Finalizes(source, f, receipt) <==> Finalizes(target, f, receipt)
  {
    SameReference(source, target, ownership, TrustFinalizations, f, "receipt_id");
  }

  predicate ForFinalization(db: Database, id: Value)
    requires id in db.Of(TrustReceipts)
  {
    Column(db.Of(TrustReceipts)[id], "subject_type") == Text("supervisory_finalization")
  }

  lemma {:induction false} FinalizationUp(db: Database, id: Value)
    requires id in db.Of(TrustReceipts) && ForFinalization(db, id)
    ensures Up(db, TrustReceipts, id).Some? <==> exists f :: Finalizes(db, f, id)
    ensures Up(db, TrustReceipts, id).Some? ==>
              var parent := Up(db, TrustReceipts, id).value;
              parent.0 == TrustFinalizations && Finalizes(db, parent.1, id)
  {
  }

  lemma {:induction false} SameSubject(source: Database, target: Database, ownership: Ownership, id: Value)
    requires PlainReferences(source) && RowGood(source, target, ownership, TrustReceipts, id)
    ensures id in target.Of(TrustReceipts) && ForFinalization(target, id) == ForFinalization(source, id)
    ensures !ForFinalization(source, id) ==> Up(target, TrustReceipts, id) == Up(source, TrustReceipts, id)
  {
    SameReference(source, target, ownership, TrustReceipts, id, "subject_type");
    SameReference(source, target, ownership, TrustReceipts, id, "subject_id");
  }

  lemma {:induction false} GoodRow(source: Database, target: Database, ownership: Ownership, t: Table, id: Value)
    requires TablesValid(source, target, ownership, TABLES) && id in source.Of(t)
    ensures TableValid(source, target, ownership, t) && RowGood(source, target, ownership, t, id)
  {
    InTables(t);
  }

  /**
    * The rows whose owner the validator reaches by its own joins: all but those of the keyed tables and their receipts.
    */
  predicate JoinOwned(db: Database, t: Table, id: Value)
    requires id in db.Of(t)
  {
    t in DIRECT_OWNER_TABLES || PathOf(t).Via? || (t == TrustReceipts && !ForFinalization(db, id))
  }

  lemma {:induction false} SameJoinUp(source: Database, target: Database, ownership: Ownership, t: Table, id: Value)
    requires PlainReferences(source) && RowGood(source, target, ownership, t, id)
    requires JoinOwned(source, t, id) && t !in DIRECT_OWNER_TABLES
    ensures id in target.Of(t) && JoinOwned(target, t, id) && Up(target, t, id) == Up(source, t, id)
  {
    if t == TrustReceipts {
      SameSubject(source, target, ownership, id);
    } else {
      SameUp(source, target, ownership, t, id);
    }
  }

  lemma {:induction false} OwnedThroughJoin(db: Database, t: Table, id: Value, g: string)
    requires id in db.Of(t) && JoinOwned(db, t, id) && t !in DIRECT_OWNER_TABLES
    ensures OwnedBy(db, t, id, g) <==>
              Up(db, t, id).Some? && var (parent, key) := Up(db, t, id).value; OwnedBy(db, parent, key, g)
    ensures Up(db, t, id).Some? ==>
              var parent := Up(db, t, id).value.0; parent in DIRECT_OWNER_TABLES || PathOf(parent).Via?
  {
  }

  // ---- What the keys must give ----

  predicate KeyHolds(db: Database, t: Table, row: Row)
    requires KeyOf(t).Key?
  {
    SharesOrganization(db, row, KeyOf(t).parent, Column(row, KeyOf(t).column))
  }

  /** The rows copied from the source share the organization of the row they name. */
  ghost predicate CopiedKeysHold(source: Database, target: Database) {
    forall t, id :: KeyOf(t).Key? && id in source.Of(t) && id in target.Of(t) ==> KeyHolds(target, t, target.Of(t)[id])
  }

  /** The finalizations that name the receipt have at most one owner among them. */
  ghost predicate OneFinalizer(db: Database, receipt: Value) {
    forall f, g, h, k :: FinalizedFor(db, f, receipt, g) && FinalizedFor(db, h, receipt, k) ==> g == k
  }

  ghost predicate CopiedReceiptsAgree(source: Database, target: Database) {
    forall id :: id in source.Of(TrustReceipts) && ForFinalization(source, id) ==> OneFinalizer(target, id)
  }

  /** All that the schema's keys contribute, said of the copied rows. */
  ghost predicate KeysAgree(source: Database, target: Database) {
    CopiedKeysHold(source, target) && CopiedReceiptsAgree(source, target)
  }

  lemma {:induction false} RowKeyHolds(db: Database, t: Table, id: Value)
    requires KeysHold(db) && KeyOf(t).Key? && id in db.Of(t)
    ensures KeyHolds(db, t, db.Of(t)[id])
  {
    assert RowKeysHold(db, t, db.Of(t)[id]);
  }

  /** A target that obeys its schema gives it. */
  lemma {:induction false} SchemaGivesKeys(source: Database, target: Database)
    requires KeysHold(target)
    ensures KeysAgree(source, target)
  {
    forall t, id | KeyOf(t).Key? && id in source.Of(t) && id in target.Of(t)
      ensures KeyHolds(target, t, target.Of(t)[id])
    {
      RowKeyHolds(target, t, id);
    }
  }

  lemma {:induction false} KeyOwner(db: Database, t: Table, id: Value, g: string)
    requires KeyOf(t).Key? && id in db.Of(t) && KeyHolds(db, t, db.Of(t)[id])
    ensures Up(db, t, id) == Some((KeyOf(t).parent, Column(db.Of(t)[id], KeyOf(t).column)))
    ensures OwnedBy(db, t, id, g) <==> OwnedBy(db, KeyOf(t).parent, Column(db.Of(t)[id], KeyOf(t).column), g)
  {
  }

  lemma {:induction false} ReceiptOwner(db: Database, id: Value, g: string)
    requires id in db.Of(TrustReceipts) && ForFinalization(db, id)
    ensures OwnedBy(db, TrustReceipts, id, g) <==> exists f :: FinalizedFor(db, f, id, g)
  {
  }

  lemma {:induction false} OnlyFinalizer(db: Database, id: Value, f: Value, o: string, g: string)
    requires OneFinalizer(db, id) && FinalizedFor(db, f, id, o)
    ensures (exists h :: FinalizedFor(db, h, id, g)) <==> g == o
  {
  }

  lemma {:induction false} FinalizationOwner(db: Database, f: Value, receipt: Value, g: string)
    requires Finalizes(db, f, receipt)
    ensures OwnedBy(db, TrustFinalizations, f, g) <==> FinalizedFor(db, f, receipt, g)
  {
  }

  lemma {:induction false} FinalizedOwner(db: Database, id: Value, f: Value, o: string, g: string)
    requires id in db.Of(TrustReceipts) && ForFinalization(db, id) && OneFinalizer(db, id)
    requires Finalizes(db, f, id) && OwnedBy(db, TrustFinalizations, f, o)
    ensures OwnedBy(db, TrustReceipts, id, g) <==> OwnedBy(db, TrustFinalizations, f, g)
  {
    FinalizationOwner(db, f, id, o);
    FinalizationOwner(db, f, id, g);
    OnlyFinalizer(db, id, f, o, g);
    ReceiptOwner(db, id, g);
  }

  // ---- One step up, and the way to the top ----

  /**
    * The owner of a copied row is that of the row it hangs from in the source, if that one was copied and has an owner.
    */
  lemma {:induction false} StepOwner(source: Database, target: Database, ownership: Ownership, t: Table, id: Value,
                                     o: string, g: string)
    requires PlainReferences(source) && RowGood(source, target, ownership, t, id) && t !in DIRECT_OWNER_TABLES
    requires JoinOwned(source, t, id) || KeysAgree(source, target)
    requires Up(source, t, id).Some?
    requires var (parent, key) := Up(source, t, id).value;
             RowGood(source, target, ownership, parent, key) && OwnedBy(target, parent, key, o)
    ensures var (parent, key) := Up(source, t, id).value; OwnedBy(target, t, id, g) <==> OwnedBy(target, parent, key, g)
  {
    if JoinOwned(source, t, id) {
      SameJoinUp(source, target, ownership, t, id);
      OwnedThroughJoin(target, t, id, g);
    } else if KeyOf(t).Key? {
      KeyedStep(source, target, ownership, t, id, g);
    } else {
      FinalizedStep(source, target, ownership, id, o, g);
    }
  }

  lemma {:induction false} KeyedStep(source: Database, target: Database, ownership: Ownership, t: Table, id: Value,
                                     g: string)
    requires PlainReferences(source) && RowGood(source, target, ownership, t, id)
    requires KeyOf(t).Key? && KeysAgree(source, target) && Up(source, t, id).Some?
    ensures var (parent, key) := Up(source, t, id).value; OwnedBy(target, t, id, g) <==> OwnedBy(target, parent, key, g)
  {
    SameUp(source, target, ownership, t, id);
    KeyOwner(target, t, id, g);
  }

  lemma {:induction false} FinalizedStep(source: Database, target: Database, ownership: Ownership, id: Value, o: string,
                                         g: string)
    requires PlainReferences(source) && RowGood(source, target, ownership, TrustReceipts, id)
    requires KeysAgree(source, target)
    requires ForFinalization(source, id) && Up(source, TrustReceipts, id).Some?
    requires var (parent, key) := Up(source, TrustReceipts, id).value;
             RowGood(source, target, ownership, parent, key) && OwnedBy(target, parent, key, o)
    ensures var (parent, key) := Up(source, TrustReceipts, id).value;
            OwnedBy(target, TrustReceipts, id, g) <==> OwnedBy(target, parent, key, g)
  {
    var f := Up(source, TrustReceipts, id).value.1;
    FinalizationUp(source, id);
    SameSubject(source, target, ownership, id);
    SameFinalization(source, target, ownership, f, id);
    FinalizedOwner(target, id, f, o, g);
  }

  lemma {:induction false} SomeFinalization(db: Database, id: Value, o: string) returns (f: Value)
    requires OwnedBy(db, TrustReceipts, id, o) && ForFinalization(db, id)
    ensures Finalizes(db, f, id) && OwnedBy(db, TrustFinalizations, f, o)
  {
    ReceiptOwner(db, id, o);
    f :| FinalizedFor(db, f, id, o);
  }

  /** A copied receipt of a finalization is the receipt of one that was copied. */
  lemma {:induction false} FinalizationInSource(source: Database, target: Database, ownership: Ownership, id: Value)
    requires TablesValid(source, target, ownership, TABLES) && PlainReferences(source)
    requires id in source.Of(TrustReceipts) && ForFinalization(source, id)
    ensures Up(source, TrustReceipts, id).Some?
    ensures var (parent, key) := Up(source, TrustReceipts, id).value; key in source.Of(parent)
  {
    GoodRow(source, target, ownership, TrustReceipts, id);
    SameSubject(source, target, ownership, id);
    var o := SomeOwner(source, target, ownership, TrustReceipts, id);
    var f := SomeFinalization(target, id, o);
    InTables(TrustFinalizations);
    OwnedIsInSource(source, target, ownership, TrustFinalizations, f, o);
    GoodRow(source, target, ownership, TrustFinalizations, f);
    SameFinalization(source, target, ownership, f, id);
    FinalizationUp(source, id);
  }

  lemma {:induction false} KeyParent(source: Database, target: Database, ownership: Ownership, t: Table, id: Value)
    requires TablesValid(source, target, ownership, TABLES) && PlainReferences(source) && CopiedKeysHold(source, target)
    requires id in source.Of(t) && KeyOf(t).Key?
    ensures Up(source, t, id).Some? && var (parent, key) := Up(source, t, id).value; key in source.Of(parent)
  {
    GoodRow(source, target, ownership, t, id);
    var o := SomeOwner(source, target, ownership, t, id);
    KeyOwner(target, t, id, o);
    SameUp(source, target, ownership, t, id);
    var (parent, key) := Up(source, t, id).value;
    InTables(parent);
    OwnedIsInSource(source, target, ownership, parent, key, o);
  }

  lemma {:induction false} JoinParent(source: Database, target: Database, ownership: Ownership, t: Table, id: Value)
    requires TablesValid(source, target, ownership, TABLES) && PlainReferences(source)
    requires id in source.Of(t) && JoinOwned(source, t, id) && t !in DIRECT_OWNER_TABLES
    ensures Up(source, t, id).Some?
    ensures var (parent, key) := Up(source, t, id).value; key in source.Of(parent) && JoinOwned(source, parent, key)
  {
    GoodRow(source, target, ownership, t, id);
    var o := SomeOwner(source, target, ownership, t, id);
    SameJoinUp(source, target, ownership, t, id);
    OwnedThroughJoin(target, t, id, o);
    var (parent, key) := Up(source, t, id).value;
    InTables(parent);
    OwnedIsInSource(source, target, ownership, parent, key, o);
  }

  /** The row that a source row hangs from is a source row. */
  lemma {:induction false} ParentInSource(source: Database, target: Database, ownership: Ownership, t: Table, id: Value)
    requires TablesValid(source, target, ownership, TABLES) && PlainReferences(source)
    requires id in source.Of(t) && t !in DIRECT_OWNER_TABLES && (JoinOwned(source, t, id) || KeysAgree(source, target))
    ensures Up(source, t, id).Some?
    ensures var (parent, key) := Up(source, t, id).value;
            key in source.Of(parent) && (JoinOwned(source, t, id) ==> JoinOwned(source, parent, key))
  {
    if JoinOwned(source, t, id) {
      JoinParent(source, target, ownership, t, id);
    } else if KeyOf(t).Key? {
      KeyParent(source, target, ownership, t, id);
    } else {
      FinalizationInSource(source, target, ownership, id);
    }
  }

  /**
    * THE SOUNDNESS THEOREM: whoever owns the target's row of a source row is the declared owner of the entity that the
    * source row hangs from, and nobody else owns it. For the rows owned directly or by joins that takes no assumption
    * on the target; for the others it takes what the keys contribute.
    */
  lemma {:induction false} OwnerFollows(source: Database, target: Database, ownership: Ownership, t: Table, id: Value,
                                        g: string)
    requires TablesValid(source, target, ownership, TABLES) && PlainReferences(source)
    requires id in source.Of(t) && (JoinOwned(source, t, id) || KeysAgree(source, target))
    ensures OwnedBy(target, t, id, g) <==> DeclaredOwner(source, ownership, t, id, g)
    decreases Height(t)
  {
    GoodRow(source, target, ownership, t, id);
    if t in DIRECT_OWNER_TABLES {
      DirectOwner(source, target, ownership, t, id, g);
    } else {
      ParentInSource(source, target, ownership, t, id);
      var (parent, key) := Up(source, t, id).value;
      GoodRow(source, target, ownership, parent, key);
      var o := SomeOwner(source, target, ownership, parent, key);
      StepOwner(source, target, ownership, t, id, o, g);
      DeclaredThrough(source, ownership, t, id, g);
      OwnerFollows(source, target, ownership, parent, key, g);
    }
  }

  /** For direct tables, and all tables owned by a join through submissions, runs, observations or findings. */
  lemma {:induction false} JoinedOwnerIsDeclared(source: Database, target: Database, ownership: Ownership, t: Table,
                                                 id: Value, g: string)
    requires TablesValid(source, target, ownership, TABLES) && PlainReferences(source)
    requires id in source.Of(t) && JoinOwned(source, t, id)
    ensures OwnedBy(target, t, id, g) <==> DeclaredOwner(source, ownership, t, id, g)
  {
    OwnerFollows(source, target, ownership, t, id, g);
  }

  /** For every row of every table, in a target that obeys its schema. */
  lemma {:induction false} OwnerIsDeclared(source: Database, target: Database, ownership: Ownership, t: Table,
                                           id: Value, g: string)
    requires TablesValid(source, target, ownership, TABLES) && PlainReferences(source) && KeysHold(target)
    requires id in source.Of(t)
    ensures OwnedBy(target, t, id, g) <==> DeclaredOwner(source, ownership, t, id, g)
  {
    SchemaGivesKeys(source, target);
    OwnerFollows(source, target, ownership, t, id, g);
  }

  /** So each row has exactly one owner, and that is a mapped organization. */
  lemma {:induction false} OneOwner(source: Database, target: Database, ownership: Ownership, t: Table, id: Value)
    requires TablesValid(source, target, ownership, TABLES) && PlainReferences(source)
    requires id in source.Of(t) && (JoinOwned(source, t, id) || KeysAgree(source, target))
    ensures exists g :: g in ownership.Values && DeclaredOwner(source, ownership, t, id, g)
                        && forall o :: OwnedBy(target, t, id, o) <==> o == g
  {
    InTables(t);
    var g := SomeOwner(source, target, ownership, t, id);
    forall o ensures OwnedBy(target, t, id, o) <==> DeclaredOwner(source, ownership, t, id, o) {
      OwnerFollows(source, target, ownership, t, id, o);
    }
  }

  /** No row of a mapped organization comes from elsewhere, and none differs from its source but in its owner. */
  lemma {:induction false} NothingAddedOrChanged(source: Database, target: Database, ownership: Ownership, t: Table,
                                                 id: Value, g: string)
    requires TablesValid(source, target, ownership, TABLES) && g in ownership.Values && OwnedBy(target, t, id, g)
    ensures id in source.Of(t) && SameContent(source.Of(t)[id], target.Of(t)[id])
  {
    InTables(t);
    OwnedIsInSource(source, target, ownership, t, id, g);
    assert RowGood(source, target, ownership, t, id);
    MatchIsSameContent(source.Of(t)[id], target.Of(t)[id]);
  }

  // ---- The keys are needed, and they suffice ----

  /** Every copied row of every table belongs to its declared owner alone. */
  ghost predicate OwnersAgree(source: Database, target: Database, ownership: Ownership) {
    forall t, id :: id in source.Of(t) ==> OwnerAgrees(source, target, ownership, t, id)
  }

  ghost predicate OwnerAgrees(source: Database, target: Database, ownership: Ownership, t: Table, id: Value) {
    forall g :: OwnedBy(target, t, id, g) <==> DeclaredOwner(source, ownership, t, id, g)
  }

  lemma {:induction false} SameOwnerIsKey(db: Database, t: Table, id: Value, g: string)
    requires KeyOf(t).Key? && OwnedBy(db, t, id, g) && Up(db, t, id).Some?
    requires var (parent, key) := Up(db, t, id).value; OwnedBy(db, parent, key, g)
    ensures KeyHolds(db, t, db.Of(t)[id])
  {
  }

  lemma {:induction false} ParentDeclared(source: Database, target: Database, ownership: Ownership, t: Table, id: Value,
                                          g: string)
    requires OwnersAgree(source, target, ownership)
    requires KeyOf(t).Key? && id in source.Of(t) && OwnedBy(target, t, id, g)
    ensures Up(source, t, id).Some? && var (parent, key) := Up(source, t, id).value; OwnedBy(target, parent, key, g)
  {
    assert OwnerAgrees(source, target, ownership, t, id);
    DeclaredThrough(source, ownership, t, id, g);
    var (parent, key) := Up(source, t, id).value;
    assert OwnerAgrees(source, target, ownership, parent, key);
  }

  lemma {:induction false} OwnersGiveKey(source: Database, target: Database, ownership: Ownership, t: Table, id: Value)
    requires TablesValid(source, target, ownership, TABLES) && PlainReferences(source)
    requires OwnersAgree(source, target, ownership)
    requires KeyOf(t).Key? && id in source.Of(t)
    ensures id in target.Of(t) && KeyHolds(target, t, target.Of(t)[id])
  {
    GoodRow(source, target, ownership, t, id);
    var o := SomeOwner(source, target, ownership, t, id);
    ParentDeclared(source, target, ownership, t, id, o);
    SameUp(source, target, ownership, t, id);
    SameOwnerIsKey(target, t, id, o);
  }

  lemma {:induction false} OneDeclaredOwner(source: Database, ownership: Ownership, t: Table, id: Value, g: string,
                                            k: string)
    requires DeclaredOwner(source, ownership, t, id, g) && DeclaredOwner(source, ownership, t, id, k)
    ensures g == k
  {
  }

  lemma {:induction false} OwnersGiveOneFinalizer(source: Database, target: Database, ownership: Ownership, id: Value)
    requires id in target.Of(TrustReceipts) && ForFinalization(target, id)
    requires OwnerAgrees(source, target, ownership, TrustReceipts, id)
    ensures OneFinalizer(target, id)
  {
    forall f, g, h, k | FinalizedFor(target, f, id, g) && FinalizedFor(target, h, id, k) ensures g == k {
      ReceiptOwner(target, id, g);
      ReceiptOwner(target, id, k);
      OneDeclaredOwner(source, ownership, TrustReceipts, id, g, k);
    }
  }

  /**
    * Whatever keys the target has, an accepted one gives every copied row of every table to its declared owner alone
    * exactly when each row with its own organization shares it with the row it names, and the finalizations of one
    * receipt have one owner.
    */
  lemma {:induction false} OwnersAgreeIffKeysAgree(source: Database, target: Database, ownership: Ownership)
    requires TablesValid(source, target, ownership, TABLES) && PlainReferences(source)
    ensures OwnersAgree(source, target, ownership) <==> KeysAgree(source, target)
  {
    if OwnersAgree(source, target, ownership) {
      forall t, id | KeyOf(t).Key? && id in source.Of(t) && id in target.Of(t)
        ensures KeyHolds(target, t, target.Of(t)[id])
      {
        OwnersGiveKey(source, target, ownership, t, id);
      }
      forall id | id in source.Of(TrustReceipts) && ForFinalization(source, id) ensures OneFinalizer(target, id) {
        GoodRow(source, target, ownership, TrustReceipts, id);
        SameSubject(source, target, ownership, id);
        assert OwnerAgrees(source, target, ownership, TrustReceipts, id);
        OwnersGiveOneFinalizer(source, target, ownership, id);
      }
    }
    if KeysAgree(source, target) {
      forall t, id | id in source.Of(t) ensures OwnerAgrees(source, target, ownership, t, id) {
        forall g ensures OwnedBy(target, t, id, g) <==> DeclaredOwner(source, ownership, t, id, g) {
          OwnerFollows(source, target, ownership, t, id, g);
        }
      }
    }
  }

  // ---- Completeness: exactly what a cutover must get right ----

  /**
    * Every row of the table arrived, in the source its joins and keys lead to an entity with an owner, and nothing else
    * in the target belongs to the mapped organizations.
    */
  ghost predicate FaithfulTable(source: Database, target: Database, ownership: Ownership, t: Table) {
    && RowsGood(source, target, ownership, t, source.Of(t).Keys)
    && (forall id :: id in source.Of(t) ==> exists g :: DeclaredOwner(source, ownership, t, id, g))
    && (forall id, g :: id in target.Of(t) && g in ownership.Values && OwnedBy(target, t, id, g) ==> id in source.Of(t))
  }

  ghost predicate Faithful(source: Database, target: Database, ownership: Ownership) {
    forall t :: FaithfulTable(source, target, ownership, t)
  }

  lemma {:induction false} FaithfulRow(source: Database, target: Database, ownership: Ownership, t: Table, id: Value)
    requires Faithful(source, target, ownership) && id in source.Of(t)
    ensures RowGood(source, target, ownership, t, id)
  {
    assert FaithfulTable(source, target, ownership, t);
  }

  /** A declared owner owns the copied row. */
  lemma {:induction false} DeclaredOwns(source: Database, target: Database, ownership: Ownership, t: Table, id: Value,
                                        g: string)
    requires PlainReferences(source) && KeysAgree(source, target) && Faithful(source, target, ownership)
    requires DeclaredOwner(source, ownership, t, id, g)
    ensures g in ownership.Values && OwnedBy(target, t, id, g)
    decreases Height(t)
  {
    FaithfulRow(source, target, ownership, t, id);
    if t in DIRECT_OWNER_TABLES {
      DirectOwner(source, target, ownership, t, id, g);
    } else {
      DeclaredThrough(source, ownership, t, id, g);
      var (parent, key) := Up(source, t, id).value;
      DeclaredOwns(source, target, ownership, parent, key, g);
      FaithfulRow(source, target, ownership, parent, key);
      StepOwner(source, target, ownership, t, id, g, g);
    }
  }

  lemma {:induction false} FaithfulTableIsValid(source: Database, target: Database, ownership: Ownership, t: Table)
    requires PlainReferences(source) && KeysAgree(source, target) && Faithful(source, target, ownership)
    ensures TableValid(source, target, ownership, t)
  {
    assert FaithfulTable(source, target, ownership, t);
    var scoped := ScopedIds(target, t, ownership.Values);
    forall id | id in source.Of(t) ensures id in scoped {
      var g :| DeclaredOwner(source, ownership, t, id, g);
      DeclaredOwns(source, target, ownership, t, id, g);
    }
    assert scoped <= source.Of(t).Keys;
    assert source.Of(t).Keys <= scoped;
    assert scoped == source.Of(t).Keys;
  }

  lemma {:induction false} ValidTableIsFaithful(source: Database, target: Database, ownership: Ownership, t: Table)
    requires PlainReferences(source) && KeysAgree(source, target) && TablesValid(source, target, ownership, TABLES)
    ensures FaithfulTable(source, target, ownership, t)
  {
    InTables(t);
    forall id | id in source.Of(t) ensures exists g :: DeclaredOwner(source, ownership, t, id, g) {
      var g := SomeOwner(source, target, ownership, t, id);
      OwnerFollows(source, target, ownership, t, id, g);
    }
    forall id, g | id in target.Of(t) && g in ownership.Values && OwnedBy(target, t, id, g) ensures id in source.Of(t) {
      OwnedIsInSource(source, target, ownership, t, id, g);
    }
  }

  /** The table checks accept exactly the faithful copies. */
  lemma {:induction false} AcceptsExactlyFaithfulCopies(source: Database, target: Database, ownership: Ownership)
    requires PlainReferences(source) && KeysAgree(source, target)
    ensures TablesValid(source, target, ownership, TABLES) <==> Faithful(source, target, ownership)
  {
    if Faithful(source, target, ownership) {
      forall t | t in TABLES ensures TableValid(source, target, ownership, t) {
        FaithfulTableIsValid(source, target, ownership, t);
      }
    }
    if TablesValid(source, target, ownership, TABLES) {
      forall t ensures FaithfulTable(source, target, ownership, t) {
        ValidTableIsFaithful(source, target, ownership, t);
      }
    }
  }
}
