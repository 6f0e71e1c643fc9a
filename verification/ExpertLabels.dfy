/** Loading and adjudicating expert labels, as in evaluation/research/expert_labels.py. */
module ExpertLabels {
  import opened Counting
  import opened CohenKappa
  import Sorting
  import TextOrder

  // ---- load_labels ----

  const LABEL_SCHEMA := "satsa-expert-label/1"
  const ADJUDICATION_SCHEMA := "satsa-expert-adjudication/1"
  const TARGET_TYPES := ["finding", "case", "scenario"]
  const TEMPLATE_SOURCES := {"sample-template", "template", "example"}

  datatype Confidence = Absent | Number(value: real) | NotANumber

  /** The fields of one JSON record; a missing text field is the empty string. */
  datatype Fields = Fields(schema: string, labelSource: string, annotator: string, labelledAt: string,
                           targetType: string, targetId: string, choice: string,
                           confidence: Confidence, caseSetDigest: string)

  /** A line: blank, no JSON at all, JSON that is not an object, or a record. */
  datatype Line = Blank | BadJson | NotObject | Parsed(fields: Fields)

  datatype Reason =
    | InvalidJson | WrongSchema | SourceMissing | TemplateSource | NotAPseudonym | NotUtc | WrongTargetType
    | TargetMissing | WrongLabel | WrongConfidence | DigestMissing | DuplicateAnnotation

  type Target = (string, string)

  datatype Record =
    | Annotation(annotator: string, targetType: string, targetId: string, choice: string)
    | Adjudication(targetType: string, targetId: string, choice: string)
  {
    function Key(): Target {
      (targetType, targetId)
    }
  }

  function LowerChar(c: char): char {
    if 'A' <= c <= 'Z' then (c as int + 32) as char else c
  }

  predicate AlphaNumeric(c: char) {
    'A' <= c <= 'Z' || 'a' <= c <= 'z' || '0' <= c <= '9'
  }

  predicate Pseudonym(s: string) {
    && 2 <= |s| <= 64 && AlphaNumeric(s[0])
    && forall i :: 1 <= i < |s| ==> AlphaNumeric(s[i]) || s[i] == '_' || s[i] == '-'
  }

  /** The checks of a label in order: each with what it requires and the reason if it fails. */
  function Checks(f: Fields, parses: string -> bool): seq<(bool, Reason)> {
    var time := f.labelledAt;
    [ (f.schema == LABEL_SCHEMA, WrongSchema),
      (f.labelSource != "", SourceMissing),
      (Sorting.Map(LowerChar, f.labelSource) !in TEMPLATE_SOURCES, TemplateSource),
      (Pseudonym(f.annotator), NotAPseudonym),
      (time != "" && time[|time| - 1] == 'Z' && parses(time[..|time| - 1]), NotUtc),
      (f.targetType in TARGET_TYPES, WrongTargetType),
      (f.targetId != "", TargetMissing),
      (f.choice in LABELS, WrongLabel),
      (f.confidence.Absent? || (f.confidence.Number? && 0.0 <= f.confidence.value <= 1.0), WrongConfidence),
      (f.caseSetDigest != "", DigestMissing) ]
  }

  function Failures(checks: seq<(bool, Reason)>): seq<Reason> {
    if checks == [] then []
    else
      var last := checks[|checks| - 1];
      Failures(checks[..|checks| - 1]) + (if last.0 then [] else [last.1])
  }

  /** `parses` says whether `datetime.fromisoformat` accepts the text before the final Z. */
  function Validate(f: Fields, parses: string -> bool): seq<Reason> {
    Failures(Checks(f, parses))
  }

  type AnnotationKey = (string, string, string)

  function KeyOf(f: Fields): AnnotationKey {
    (f.annotator, f.targetType, f.targetId)
  }

  predicate IsAdjudication(l: Line) {
    l.Parsed? && l.fields.schema == ADJUDICATION_SCHEMA
  }

  predicate IsValidAnnotation(l: Line, parses: string -> bool) {
    l.Parsed? && l.fields.schema != ADJUDICATION_SCHEMA && Validate(l.fields, parses) == []
  }

  /** Line i repeats the annotator and target of an earlier valid annotation. */
  predicate Repeats(lines: seq<Line>, parses: string -> bool, i: nat)
    requires i < |lines| && lines[i].Parsed?
  {
    exists j :: 0 <= j < i && IsValidAnnotation(lines[j], parses) && KeyOf(lines[j].fields) == KeyOf(lines[i].fields)
  }

  predicate AcceptedLine(lines: seq<Line>, parses: string -> bool, i: nat)
    requires i < |lines|
  {
    IsAdjudication(lines[i]) || (IsValidAnnotation(lines[i], parses) && !Repeats(lines, parses, i))
  }

  function RecordOf(l: Line): Record
    requires l.Parsed?
  {
    var f := l.fields;
    if f.schema == ADJUDICATION_SCHEMA then Adjudication(f.targetType, f.targetId, f.choice)
    else Annotation(f.annotator, f.targetType, f.targetId, f.choice)
  }

  /** The records of the accepted lines among the first n. */
  function Accepted(lines: seq<Line>, parses: string -> bool, n: nat): seq<Record>
    requires n <= |lines|
  {
    if n == 0 then []
    else Accepted(lines, parses, n - 1) + (if AcceptedLine(lines, parses, n - 1) then [RecordOf(lines[n - 1])] else [])
  }

  function ReasonsAt(lines: seq<Line>, parses: string -> bool, i: nat): seq<Reason>
    requires i < |lines| && (lines[i].BadJson? || lines[i].Parsed?) && !AcceptedLine(lines, parses, i)
  {
    if lines[i].BadJson? then [InvalidJson]
    else
      var errors := Validate(lines[i].fields, parses);
      if errors == [] then [DuplicateAnnotation] else errors
  }

  /** The rejected lines among the first n, numbered from one, with their reasons. */
  function Rejected(lines: seq<Line>, parses: string -> bool, n: nat): seq<(nat, seq<Reason>)>
    requires n <= |lines|
  {
    if n == 0 then []
    else
      var i := n - 1;
      Rejected(lines, parses, i)
      + (if lines[i].Blank? || lines[i].NotObject? || AcceptedLine(lines, parses, i) then []
         else [(n, ReasonsAt(lines, parses, i))])
  }

  /** The keys of the valid annotations among the first n lines. */
  function SeenKeys(lines: seq<Line>, parses: string -> bool, n: nat): set<AnnotationKey>
    requires n <= |lines|
  {
    if n == 0 then {}
    else
      SeenKeys(lines, parses, n - 1)
      + (if IsValidAnnotation(lines[n - 1], parses) then {KeyOf(lines[n - 1].fields)} else {})
  }

  lemma {:induction false} SeenKeysAre(lines: seq<Line>, parses: string -> bool, n: nat, k: AnnotationKey)
    requires n <= |lines|
    ensures k in SeenKeys(lines, parses, n) <==>
              exists j :: 0 <= j < n && IsValidAnnotation(lines[j], parses) && KeyOf(lines[j].fields) == k
  {
    if n > 0 {
      SeenKeysAre(lines, parses, n - 1, k);
    }
  }

  /** The errors the loop finds in a label line, given the keys seen so far. */
  function ErrorsIn(f: Fields, parses: string -> bool, seen: set<AnnotationKey>): seq<Reason> {
    var errors := Validate(f, parses);
    if errors == [] && KeyOf(f) in seen then errors + [DuplicateAnnotation] else errors
  }

  lemma {:induction false} LabelOutcome(lines: seq<Line>, parses: string -> bool, i: nat)
    requires i < |lines| && lines[i].Parsed? && lines[i].fields.schema != ADJUDICATION_SCHEMA
    ensures var errors := ErrorsIn(lines[i].fields, parses, SeenKeys(lines, parses, i));
            (AcceptedLine(lines, parses, i) <==> errors == [])
            && (errors != [] ==> ReasonsAt(lines, parses, i) == errors)
  {
    SeenKeysAre(lines, parses, i, KeyOf(lines[i].fields));
  }

  /** What the loop has filled in after n lines. */
  ghost predicate Loaded(lines: seq<Line>, parses: string -> bool, n: nat, seen: set<AnnotationKey>,
                         accepted: seq<Record>, rejected: seq<(nat, seq<Reason>)>)
    requires n <= |lines|
  {
    && accepted == Accepted(lines, parses, n)
    && rejected == Rejected(lines, parses, n)
    && seen == SeenKeys(lines, parses, n)
  }

  lemma {:induction false} LabelStep(lines: seq<Line>, parses: string -> bool, i: nat, seen: set<AnnotationKey>,
                                     accepted: seq<Record>, rejected: seq<(nat, seq<Reason>)>)
    requires i < |lines| && lines[i].Parsed? && lines[i].fields.schema != ADJUDICATION_SCHEMA
    requires Loaded(lines, parses, i, seen, accepted, rejected)
    ensures var errors := ErrorsIn(lines[i].fields, parses, seen);
            if errors != [] then Loaded(lines, parses, i + 1, seen, accepted, rejected + [(i + 1, errors)])
            else Loaded(lines, parses, i + 1, seen + {KeyOf(lines[i].fields)}, accepted + [RecordOf(lines[i])],
                        rejected)
  {
    LabelOutcome(lines, parses, i);
    if Validate(lines[i].fields, parses) == [] && KeyOf(lines[i].fields) in seen {
      assert seen + {KeyOf(lines[i].fields)} == seen;
    }
  }

  /** The two lists, or the AttributeError of looking up a field in what is not an object. */
  datatype Loading = Labelled(accepted: seq<Record>, rejected: seq<(nat, seq<Reason>)>) | AttributeError

  /**
   * Only JSONDecodeError is caught: the first line of JSON that
   * is not an object ends the loop, and nothing is returned.
   */
  method LoadLabels(lines: seq<Line>, parses: string -> bool) returns (r: Loading)
    ensures r.AttributeError? <==> NotObject in lines
    ensures r.Labelled? ==> r == Labelled(Accepted(lines, parses, |lines|), Rejected(lines, parses, |lines|))
  {
    var accepted, rejected := [], [];
    var seen: set<AnnotationKey> := {};
    for i := 0 to |lines|
      invariant NotObject !in lines[..i] && Loaded(lines, parses, i, seen, accepted, rejected)
    {
      assert lines[..i + 1] == lines[..i] + [lines[i]];
      match lines[i] {
        case Blank =>
        case BadJson =>
          rejected := rejected + [(i + 1, [InvalidJson])];
        case NotObject =>
          return AttributeError;
        case Parsed(fields) =>
          if fields.schema == ADJUDICATION_SCHEMA {
            accepted := accepted + [RecordOf(lines[i])];
          } else {
            LabelStep(lines, parses, i, seen, accepted, rejected);
            var errors := ErrorsIn(fields, parses, seen);
            if errors != [] {
              rejected := rejected + [(i + 1, errors)];
            } else {
              seen := seen + {KeyOf(fields)};
              accepted := accepted + [RecordOf(lines[i])];
            }
          }
      }
    }
    assert lines[..|lines|] == lines;
    return Labelled(accepted, rejected);
  }

  /** What the duplicate rule enforces: no annotator marks a target twice. */
  ghost predicate OneMark(records: seq<Record>) {
    forall i, j :: 0 <= i < j < |records| && records[i].Annotation? && records[j].Annotation? ==>
      !(records[i].annotator == records[j].annotator && records[i].Key() == records[j].Key())
  }

  lemma {:induction false} AcceptedCome(lines: seq<Line>, parses: string -> bool, n: nat, r: Record)
    requires n <= |lines| && r in Accepted(lines, parses, n) && r.Annotation?
    ensures exists j :: 0 <= j < n && IsValidAnnotation(lines[j], parses) && RecordOf(lines[j]) == r
  {
    if r in Accepted(lines, parses, n - 1) {
      AcceptedCome(lines, parses, n - 1, r);
    }
  }

  /** Whatever the file holds, the accepted annotations have one mark per annotator and target. */
  lemma {:induction false} AcceptedHaveOneMark(lines: seq<Line>, parses: string -> bool, n: nat)
    requires n <= |lines|
    ensures OneMark(Accepted(lines, parses, n))
  {
    if n > 0 {
      AcceptedHaveOneMark(lines, parses, n - 1);
      var prev := Accepted(lines, parses, n - 1);
      if AcceptedLine(lines, parses, n - 1) && IsValidAnnotation(lines[n - 1], parses) {
        forall i | 0 <= i < |prev| && prev[i].Annotation?
          ensures !(prev[i].annotator == lines[n - 1].fields.annotator && prev[i].Key() == RecordOf(lines[n - 1]).Key())
        {
          AcceptedCome(lines, parses, n - 1, prev[i]);
        }
      }
    }
  }

  function NonBlank(): Line -> bool {
    (l: Line) => !l.Blank?
  }

  /** When the loading returns, every line that is not blank is either accepted or rejected, never both. */
  lemma {:induction false} EveryLineCounted(lines: seq<Line>, parses: string -> bool, n: nat)
    requires n <= |lines| && NotObject !in lines[..n]
    ensures |Accepted(lines, parses, n)| + |Rejected(lines, parses, n)| == CountBy(lines[..n], NonBlank())
  {
    if n > 0 {
      assert lines[..n] == lines[..n - 1] + [lines[n - 1]];
      EveryLineCounted(lines, parses, n - 1);
      CountAppend(lines[..n - 1], lines[n - 1], NonBlank());
    }
  }

  // ---- adjudicate: consensus ----

  datatype Method = Adjudicated | Majority | Unresolved
  datatype Verdict = Verdict(outcome: Option<string>, how: Method, annotations: nat, labelCounts: map<string, nat>)

  function MarkOf(t: Target): Record -> bool {
    (r: Record) => r.Annotation? && r.Key() == t
  }

  function Marks(records: seq<Record>, t: Target): seq<Record> {
    Filter(records, MarkOf(t))
  }

  function LabelOf(): Record -> string {
    (r: Record) => r.choice
  }

  function Labels(marks: seq<Record>): seq<string> {
    Sorting.Map(LabelOf(), marks)
  }

  /** `Counter(labels).most_common()`: by falling count, ties in order of first occurrence. */
  function MostCommon(labels: seq<string>): (r: seq<string>)
    ensures multiset(r) == multiset(Uniques(labels))
  {
    Sorting.SortBy(Uniques(labels), FallingCount(labels))
  }

  function FallingCount(labels: seq<string>): string -> real {
    c => -(CountBy(labels, Is(c)) as real)
  }

  function MajorityOf(labels: seq<string>): Option<string>
    requires labels != []
  {
    var top := MostCommon(labels);
    assert |top| == |multiset(top)| == |multiset(Uniques(labels))| == |Uniques(labels)|;
    assert labels[0] in Uniques(labels);
    if |top| == 1 || CountBy(labels, Is(top[0])) > CountBy(labels, Is(top[1])) then Some(top[0]) else None
  }

  function LabelCounts(labels: seq<string>): map<string, nat> {
    map c | c in labels :: CountBy(labels, Is(c))
  }

  /** The label of the last adjudication of a target. */
  function LastAdjudication(records: seq<Record>, t: Target): Option<string> {
    if records == [] then None
    else
      var last := records[|records| - 1];
      if last.Adjudication? && last.Key() == t then Some(last.choice)
      else LastAdjudication(records[..|records| - 1], t)
  }

  /** The annotated targets, in order of their first annotation. */
  function Targets(records: seq<Record>): seq<Target> {
    if records == [] then []
    else
      var init, last := Targets(records[..|records| - 1]), records[|records| - 1];
      if last.Annotation? && last.Key() !in init then init + [last.Key()] else init
  }

  function Decide(adjudicated: Option<string>, labels: seq<string>): Verdict
    requires labels != []
  {
    var majority := MajorityOf(labels);
    var outcome := if adjudicated.Some? then adjudicated else majority;
    var how := if adjudicated.Some? then Adjudicated else if majority.Some? then Majority else Unresolved;
    Verdict(outcome, how, |labels|, LabelCounts(labels))
  }

  lemma {:induction false} TargetsAre(records: seq<Record>)
    ensures Distinct(Targets(records))
    ensures forall t :: t in Targets(records) <==> Marks(records, t) != []
  {
    if records != [] {
      TargetsAre(records[..|records| - 1]);
    }
  }

  function VerdictAt(records: seq<Record>): Target -> Option<Verdict> {
    (t: Target) =>
      var labels := Labels(Marks(records, t));
      if labels == [] then None else Some(Decide(LastAdjudication(records, t), labels))
  }

  function ElementsOf<T>(s: seq<T>): set<T> {
    set x | x in s
  }

  function Consensus(records: seq<Record>): map<Target, Verdict> {
    Tabulate(ElementsOf(Targets(records)), VerdictAt(records))
  }

  // ---- adjudicate: pairwise agreement ----

  datatype Agreement = Agreement(sharedTargets: nat, percentAgreement: real, kappa: Option<real>)

  function By(annotator: string): Record -> bool {
    (r: Record) => r.Annotation? && r.annotator == annotator
  }

  /** The label of the first mark of an annotator on a target. */
  function FirstLabel(records: seq<Record>, t: Target, annotator: string): Option<string> {
    var marks := Filter(Marks(records, t), By(annotator));
    if marks == [] then None else Some(marks[0].choice)
  }

  function BothMarked(records: seq<Record>, a: string, b: string): Target -> bool {
    (t: Target) => FirstLabel(records, t, a).Some? && FirstLabel(records, t, b).Some?
  }

  function PairAt(records: seq<Record>, a: string, b: string): Target -> Pair {
    (t: Target) =>
      var x, y := FirstLabel(records, t, a), FirstLabel(records, t, b);
      if x.Some? && y.Some? then (x.value, y.value) else ("", "")
  }

  /** The labels two annotators gave the targets they both marked. */
  function Shared(records: seq<Record>, a: string, b: string): seq<Pair> {
    Sorting.Map(PairAt(records, a, b), Filter(Targets(records), BothMarked(records, a, b)))
  }

  /** The agreement of two annotators, if they share a target. */
  function AgreementOf(shared: seq<Pair>): Option<Agreement> {
    if shared == [] then None
    else
      Some(Agreement(|shared|, CountBy(shared, Agree()) as real / |shared| as real,
                     Kappa(Firsts(shared), Seconds(shared))))
  }

  function AgreementAt(records: seq<Record>): Pair -> Option<Agreement> {
    (p: Pair) => AgreementOf(Shared(records, p.0, p.1))
  }

  function Names(records: seq<Record>): seq<string> {
    if records == [] then []
    else
      var last := records[|records| - 1];
      Names(records[..|records| - 1]) + (if last.Annotation? then [last.annotator] else [])
  }

  function Annotators(records: seq<Record>): seq<string> {
    TextOrder.SortedSet(Names(records))
  }

  /** `combinations(annotators, 2)` */
  function Pairs(annotators: seq<string>): set<Pair> {
    set i, j | 0 <= i < j < |annotators| :: (annotators[i], annotators[j])
  }

  function Pairwise(records: seq<Record>): map<Pair, Agreement> {
    Tabulate(Pairs(Annotators(records)), AgreementAt(records))
  }

  datatype Report = Report(targets: nat, annotators: nat, unresolved: nat,
                           consensus: map<Target, Verdict>, pairwise: map<Pair, Agreement>)

  function UnresolvedIn(consensus: map<Target, Verdict>): set<Target> {
    set t | t in consensus && consensus[t].how == Unresolved
  }

  function ReportOf(records: seq<Record>): Report {
    var consensus := Consensus(records);
    Report(|consensus|, |Annotators(records)|, |UnresolvedIn(consensus)|, consensus, Pairwise(records))
  }

  method Adjudicate(records: seq<Record>) returns (report: Report)
    ensures report == ReportOf(records)
  {
    var order, byTarget, adjudications := Group(records);
    var consensus := DecideAll(records, order, byTarget, adjudications);
    var annotators := Annotators(records);
    TextOrder.SortedSetDistinct(Names(records));
    var pairwise := ComparePairs(records, annotators);
    var unresolved := UnresolvedIn(consensus);
    report := Report(|consensus|, |annotators|, |unresolved|, consensus, pairwise);
  }

  /** What the first loop has filled in: the targets in order, their marks, and the last adjudications. */
  ghost predicate Grouped(records: seq<Record>, order: seq<Target>,
                          byTarget: map<Target, seq<Record>>, adjudications: map<Target, string>)
  {
    && order == Targets(records)
    && (forall t :: t in byTarget <==> t in order)
    && (forall t :: t in byTarget ==> byTarget[t] == Marks(records, t))
    && (forall t :: LastAdjudication(records, t) == Find(adjudications, t))
  }

  lemma {:induction false} GroupMark(records: seq<Record>, r: Record, order: seq<Target>,
                                     byTarget: map<Target, seq<Record>>, adjudications: map<Target, string>)
    requires Grouped(records, order, byTarget, adjudications) && r.Annotation?
    ensures var key := r.Key();
            Grouped(records + [r], if key in byTarget then order else order + [key],
                    byTarget[key := (if key in byTarget then byTarget[key] else []) + [r]], adjudications)
  {
    TargetsAre(records);
    Grow(records, r);
  }

  lemma {:induction false} GroupAdjudication(records: seq<Record>, r: Record, order: seq<Target>,
                                             byTarget: map<Target, seq<Record>>, adjudications: map<Target, string>)
    requires Grouped(records, order, byTarget, adjudications) && r.Adjudication?
    ensures Grouped(records + [r], order, byTarget, adjudications[r.Key() := r.choice])
  {
    Grow(records, r);
  }

  method Group(records: seq<Record>)
    returns (order: seq<Target>, byTarget: map<Target, seq<Record>>, adjudications: map<Target, string>)
    ensures Grouped(records, order, byTarget, adjudications)
  {
    order, byTarget, adjudications := [], map[], map[];
    for i := 0 to |records|
      invariant Grouped(records[..i], order, byTarget, adjudications)
    {
      var record := records[i];
      var key := record.Key();
      assert records[..i + 1] == records[..i] + [record];
      if record.Adjudication? {
        GroupAdjudication(records[..i], record, order, byTarget, adjudications);
        adjudications := adjudications[key := record.choice];
      } else {
        GroupMark(records[..i], record, order, byTarget, adjudications);
        order := if key in byTarget then order else order + [key];
        byTarget := byTarget[key := (if key in byTarget then byTarget[key] else []) + [record]];
      }
    }
    assert records[..|records|] == records;
  }

  lemma {:induction false} DecideStep(records: seq<Record>, order: seq<Target>, i: nat,
                                      byTarget: map<Target, seq<Record>>, adjudications: map<Target, string>)
    requires Grouped(records, order, byTarget, adjudications) && i < |order|
    ensures order[i] in byTarget && byTarget[order[i]] != []
    ensures var verdict := Decide(Find(adjudications, order[i]), Labels(byTarget[order[i]]));
            Tabulate(ElementsOf(order[..i + 1]), VerdictAt(records)) ==
            Tabulate(ElementsOf(order[..i]), VerdictAt(records))[order[i] := verdict]
  {
    TargetsAre(records);
    TabulateAdd(ElementsOf(order[..i]), VerdictAt(records), order[i]);
    assert ElementsOf(order[..i + 1]) == ElementsOf(order[..i]) + {order[i]};
  }

  method DecideAll(records: seq<Record>, order: seq<Target>, byTarget: map<Target, seq<Record>>,
                   adjudications: map<Target, string>) returns (consensus: map<Target, Verdict>)
    requires Grouped(records, order, byTarget, adjudications)
    ensures consensus == Consensus(records)
  {
    consensus := map[];
    for i := 0 to |order|
      invariant consensus == Tabulate(ElementsOf(order[..i]), VerdictAt(records))
    {
      DecideStep(records, order, i, byTarget, adjudications);
      var key := order[i];
      consensus := consensus[key := Decide(Find(adjudications, key), Labels(byTarget[key]))];
    }
    assert order[..|order|] == order;
  }

  /** One more record: how the groups grow. */
  lemma {:induction false} Grow(records: seq<Record>, r: Record)
    ensures Targets(records + [r]) ==
              if r.Annotation? && r.Key() !in Targets(records) then Targets(records) + [r.Key()] else Targets(records)
    ensures forall t :: Marks(records + [r], t) == Marks(records, t) + (if MarkOf(t)(r) then [r] else [])
    ensures forall t :: LastAdjudication(records + [r], t) ==
              if r.Adjudication? && r.Key() == t then Some(r.choice) else LastAdjudication(records, t)
  {
    assert (records + [r])[..|records|] == records;
  }

  /** The combinations that come before the one of positions i and j. */
  function PairsBefore(annotators: seq<string>, i: nat, j: nat): set<Pair> {
    set a, b | 0 <= a < b < |annotators| && (a < i || (a == i && b < j)) :: (annotators[a], annotators[b])
  }

  lemma {:induction false} NextPair(annotators: seq<string>, i: nat, j: nat)
    requires i < j < |annotators|
    requires Distinct(annotators)
    ensures PairsBefore(annotators, i, j + 1) == PairsBefore(annotators, i, j) + {(annotators[i], annotators[j])}
    ensures (annotators[i], annotators[j]) !in PairsBefore(annotators, i, j)
  {
    assert forall p :: p in PairsBefore(annotators, i, j + 1) ==>
        p in PairsBefore(annotators, i, j) || p == (annotators[i], annotators[j]);
  }

  lemma {:induction false} PairStep(records: seq<Record>, annotators: seq<string>, i: nat, j: nat)
    requires Distinct(annotators) && i < j < |annotators|
    ensures var p := (annotators[i], annotators[j]);
            var agreement := AgreementOf(Shared(records, annotators[i], annotators[j]));
            var before := Tabulate(PairsBefore(annotators, i, j), AgreementAt(records));
            Tabulate(PairsBefore(annotators, i, j + 1), AgreementAt(records)) ==
            if agreement.Some? then before[p := agreement.value] else before
  {
    NextPair(annotators, i, j);
    TabulateAdd(PairsBefore(annotators, i, j), AgreementAt(records), (annotators[i], annotators[j]));
  }

  lemma RowsOfPairs(annotators: seq<string>, i: nat)
    requires i <= |annotators|
    ensures PairsBefore(annotators, i, |annotators|) == PairsBefore(annotators, i + 1, i + 2)
    ensures PairsBefore(annotators, |annotators|, |annotators| + 1) == Pairs(annotators)
    ensures PairsBefore(annotators, 0, 1) == {}
  {
  }

  /** The loop over `combinations(annotators, 2)`. */
  method ComparePairs(records: seq<Record>, annotators: seq<string>) returns (pairwise: map<Pair, Agreement>)
    requires Distinct(annotators)
    ensures pairwise == Tabulate(Pairs(annotators), AgreementAt(records))
  {
    pairwise := map[];
    RowsOfPairs(annotators, 0);
    for i := 0 to |annotators|
      invariant pairwise == Tabulate(PairsBefore(annotators, i, i + 1), AgreementAt(records))
    {
      for j := i + 1 to |annotators|
        invariant pairwise == Tabulate(PairsBefore(annotators, i, j), AgreementAt(records))
      {
        PairStep(records, annotators, i, j);
        var agreement := AgreementOf(Shared(records, annotators[i], annotators[j]));
        if agreement.Some? {
          pairwise := pairwise[(annotators[i], annotators[j]) := agreement.value];
        }
      }
      RowsOfPairs(annotators, i);
    }
    RowsOfPairs(annotators, |annotators|);
  }

  // ---- The majority is the unique strict maximum ----

  ghost predicate StrictMaximum(labels: seq<string>, c: string) {
    c in labels && forall d :: d in labels && d != c ==> CountBy(labels, Is(d)) < CountBy(labels, Is(c))
  }

  lemma {:induction false} MostCommonFalls(labels: seq<string>)
    ensures Distinct(MostCommon(labels)) && forall x :: x in MostCommon(labels) <==> x in labels
    ensures forall i, j :: 0 <= i < j < |MostCommon(labels)| ==>
              CountBy(labels, Is(MostCommon(labels)[i])) >= CountBy(labels, Is(MostCommon(labels)[j]))
  {
    var u, top, key := Uniques(labels), MostCommon(labels), FallingCount(labels);
    PermutationDistinct(u, top);
    Sorting.SortBySorted(u, key);
    assert forall x :: x in top <==> x in multiset(u);
    forall i, j | 0 <= i < j < |top| ensures CountBy(labels, Is(top[i])) >= CountBy(labels, Is(top[j])) {
      assert key(top[i]) <= key(top[j]);
    }
  }

  lemma {:induction false} MajorityIsMaximum(labels: seq<string>, c: string)
    requires labels != [] && MajorityOf(labels) == Some(c)
    ensures StrictMaximum(labels, c)
  {
    var top := MostCommon(labels);
    MostCommonFalls(labels);
    assert labels[0] in top;
    forall d | d in labels && d != c ensures CountBy(labels, Is(d)) < CountBy(labels, Is(c)) {
      var k :| 0 <= k < |top| && top[k] == d;
      assert k >= 1;
      assert k == 1 || CountBy(labels, Is(top[1])) >= CountBy(labels, Is(top[k]));
    }
  }

  lemma {:induction false} MaximumIsMajority(labels: seq<string>, c: string)
    requires labels != [] && StrictMaximum(labels, c)
    ensures MajorityOf(labels) == Some(c)
  {
    var top := MostCommon(labels);
    MostCommonFalls(labels);
    var k :| 0 <= k < |top| && top[k] == c;
    assert forall i :: 0 < i < |top| ==> CountBy(labels, Is(top[0])) >= CountBy(labels, Is(top[i]));
    assert top[0] in labels;
    assert |top| > 1 ==> top[1] in labels && top[1] != top[0];
  }

  lemma {:induction false} MajorityIsStrictMaximum(labels: seq<string>, c: string)
    requires labels != []
    ensures MajorityOf(labels) == Some(c) <==> StrictMaximum(labels, c)
  {
    if MajorityOf(labels) == Some(c) {
      MajorityIsMaximum(labels, c);
    }
    if StrictMaximum(labels, c) {
      MaximumIsMajority(labels, c);
    }
  }

  lemma {:induction false} MajorityPermutation(s: seq<string>, t: seq<string>)
    requires s != [] && multiset(s) == multiset(t)
    ensures t != [] && MajorityOf(s) == MajorityOf(t)
  {
    assert |s| == |multiset(s)| == |multiset(t)| == |t|;
    SameMaximum(s, t);
    SameMaximum(t, s);
  }

  lemma {:induction false} SameMaximum(s: seq<string>, t: seq<string>)
    requires s != [] && t != [] && multiset(s) == multiset(t)
    ensures MajorityOf(s).Some? ==> MajorityOf(t) == MajorityOf(s)
  {
    if MajorityOf(s).Some? {
      var c := MajorityOf(s).value;
      MajorityIsStrictMaximum(s, c);
      CountPermutation(s, t, Is(c));
      assert forall d :: d in t <==> d in multiset(s);
      forall d | d in t && d != c ensures CountBy(t, Is(d)) < CountBy(t, Is(c)) {
        CountPermutation(s, t, Is(d));
      }
      MajorityIsStrictMaximum(t, c);
    }
  }

  lemma {:induction false} LabelCountsPermutation(s: seq<string>, t: seq<string>)
    requires multiset(s) == multiset(t)
    ensures LabelCounts(s) == LabelCounts(t)
  {
    assert forall c :: c in s <==> c in multiset(t);
    forall c | c in s ensures CountBy(s, Is(c)) == CountBy(t, Is(c)) {
      CountPermutation(s, t, Is(c));
    }
  }

  // ---- The consensus does not depend on the order of the records ----

  /** The adjudications of an annotated target all give one label. */
  ghost predicate Consistent(records: seq<Record>) {
    forall x, y ::
      (x in records && y in records && x.Adjudication? && y.Adjudication? && x.Key() == y.Key()
       && Marks(records, x.Key()) != []) ==> x.choice == y.choice
  }

  lemma {:induction false} LastAdjudicationIn(records: seq<Record>, t: Target)
    ensures var last := LastAdjudication(records, t);
            last.Some? ==> Adjudication(t.0, t.1, last.value) in records
    ensures LastAdjudication(records, t).None? ==> forall r :: r in records && r.Adjudication? ==> r.Key() != t
  {
    if records != [] {
      LastAdjudicationIn(records[..|records| - 1], t);
      assert records == records[..|records| - 1] + [records[|records| - 1]];
    }
  }

  lemma {:induction false} LastAdjudicationPermutation(r: seq<Record>, s: seq<Record>, t: Target)
    requires multiset(r) == multiset(s) && Consistent(r) && Marks(r, t) != []
    ensures LastAdjudication(r, t) == LastAdjudication(s, t)
  {
    LastAdjudicationIn(r, t);
    LastAdjudicationIn(s, t);
    assert forall x :: x in r <==> x in multiset(s);
  }

  lemma {:induction false} LabelsPermutation(r: seq<Record>, s: seq<Record>, t: Target)
    requires multiset(r) == multiset(s)
    ensures multiset(Labels(Marks(r, t))) == multiset(Labels(Marks(s, t)))
  {
    FilterPermutation(r, s, MarkOf(t));
    Sorting.MapPermutation(LabelOf(), Marks(r, t), Marks(s, t));
  }

  lemma {:induction false} VerdictPermutation(r: seq<Record>, s: seq<Record>, t: Target)
    requires multiset(r) == multiset(s) && Consistent(r)
    ensures VerdictAt(r)(t) == VerdictAt(s)(t)
  {
    var a, b := Labels(Marks(r, t)), Labels(Marks(s, t));
    LabelsPermutation(r, s, t);
    assert |a| == |multiset(a)| == |multiset(b)| == |b|;
    if a != [] {
      LastAdjudicationPermutation(r, s, t);
      MajorityPermutation(a, b);
      LabelCountsPermutation(a, b);
    }
  }

  lemma {:induction false} TargetsPermutation(r: seq<Record>, s: seq<Record>)
    requires multiset(r) == multiset(s)
    ensures forall t :: t in Targets(r) <==> t in Targets(s)
    ensures multiset(Targets(r)) == multiset(Targets(s))
  {
    TargetsAre(r);
    TargetsAre(s);
    forall t ensures t in Targets(r) <==> t in Targets(s) {
      CountPermutation(r, s, MarkOf(t));
    }
    DistinctSameElements(Targets(r), Targets(s));
  }

  lemma {:induction false} ConsensusPermutation(r: seq<Record>, s: seq<Record>)
    requires multiset(r) == multiset(s) && Consistent(r)
    ensures Consensus(r) == Consensus(s)
  {
    TargetsPermutation(r, s);
    assert ElementsOf(Targets(r)) == ElementsOf(Targets(s));
    forall t ensures VerdictAt(r)(t) == VerdictAt(s)(t) {
      VerdictPermutation(r, s, t);
    }
    TabulateSame(ElementsOf(Targets(r)), VerdictAt(r), VerdictAt(s));
  }

  // ---- Nor does the agreement of two annotators ----

  lemma {:induction false} FirstLabelPermutation(r: seq<Record>, s: seq<Record>, t: Target, annotator: string)
    requires multiset(r) == multiset(s) && OneMark(r)
    ensures FirstLabel(r, t, annotator) == FirstLabel(s, t, annotator)
  {
    var a, b := Filter(Marks(r, t), By(annotator)), Filter(Marks(s, t), By(annotator));
    FilterPermutation(r, s, MarkOf(t));
    FilterPermutation(Marks(r, t), Marks(s, t), By(annotator));
    assert |a| == |multiset(a)| == |multiset(b)| == |b|;
    if a != [] {
      assert a[0] in r && b[0] in multiset(a);
      assert b[0] in a && b[0] in r;
      var i, j :| 0 <= i < |r| && r[i] == a[0] && 0 <= j < |r| && r[j] == b[0];
      assert a[0].annotator == b[0].annotator && a[0].Key() == b[0].Key();
      assert i == j || a[0] == b[0];
    }
  }

  lemma {:induction false} SharedPermutation(r: seq<Record>, s: seq<Record>, a: string, b: string)
    requires multiset(r) == multiset(s) && OneMark(r)
    ensures multiset(Shared(r, a, b)) == multiset(Shared(s, a, b))
  {
    var targets := Targets(s);
    TargetsPermutation(r, s);
    FilterPermutation(Targets(r), targets, BothMarked(r, a, b));
    forall t ensures BothMarked(r, a, b)(t) == BothMarked(s, a, b)(t) && PairAt(r, a, b)(t) == PairAt(s, a, b)(t) {
      FirstLabelPermutation(r, s, t, a);
      FirstLabelPermutation(r, s, t, b);
    }
    FilterSame(targets, BothMarked(r, a, b), BothMarked(s, a, b));
    var f := Filter(targets, BothMarked(s, a, b));
    Sorting.MapPermutation(PairAt(r, a, b), Filter(Targets(r), BothMarked(r, a, b)), f);
    assert Sorting.Map(PairAt(r, a, b), f) == Sorting.Map(PairAt(s, a, b), f);
  }

  lemma {:induction false} AgreementPermutation(s: seq<Pair>, t: seq<Pair>)
    requires multiset(s) == multiset(t)
    ensures AgreementOf(s) == AgreementOf(t)
  {
    assert |s| == |multiset(s)| == |multiset(t)| == |t|;
    CountPermutation(s, t, Agree());
    KappaPermutation(s, t);
  }

  lemma {:induction false} NamesAre(records: seq<Record>, name: string)
    ensures name in Names(records) <==> CountBy(records, By(name)) > 0
  {
    if records != [] {
      NamesAre(records[..|records| - 1], name);
    }
  }

  lemma {:induction false} AnnotatorsPermutation(r: seq<Record>, s: seq<Record>)
    requires multiset(r) == multiset(s)
    ensures Annotators(r) == Annotators(s)
  {
    forall name ensures name in Annotators(r) <==> name in Annotators(s) {
      NamesAre(r, name);
      NamesAre(s, name);
      CountPermutation(r, s, By(name));
    }
    TextOrder.SortedSetAscending(Names(r));
    TextOrder.SortedSetAscending(Names(s));
    TextOrder.AscendingUnique(Annotators(r), Annotators(s));
  }

  lemma {:induction false} PairwisePermutation(r: seq<Record>, s: seq<Record>)
    requires multiset(r) == multiset(s) && OneMark(r)
    ensures Pairwise(r) == Pairwise(s)
  {
    AnnotatorsPermutation(r, s);
    forall p ensures AgreementAt(r)(p) == AgreementAt(s)(p) {
      SharedPermutation(r, s, p.0, p.1);
      AgreementPermutation(Shared(r, p.0, p.1), Shared(s, p.0, p.1));
    }
    TabulateSame(Pairs(Annotators(r)), AgreementAt(r), AgreementAt(s));
  }

  /** Two adjudications that disagree about an annotated target: some other order gives another consensus. */
  lemma {:induction false} DisagreementShows(records: seq<Record>) returns (other: seq<Record>)
    requires !Consistent(records)
    ensures multiset(other) == multiset(records) && Consensus(other) != Consensus(records)
  {
    var x, y :| x in records && y in records && x.Adjudication? && y.Adjudication? && x.Key() == y.Key()
                && Marks(records, x.Key()) != [] && x.choice != y.choice;
    var t := x.Key();
    var last := LastAdjudication(records, t);
    LastAdjudicationIn(records, t);
    var late := if last == Some(x.choice) then y else x;
    var k :| 0 <= k < |records| && records[k] == late;
    other := MoveToEnd(records, k);
    assert other[..|other| - 1] + [late] == other;
    assert LastAdjudication(other, t) == Some(late.choice) != last;
    VerdictDiffers(records, other, t);
  }

  lemma {:induction false} VerdictDiffers(r: seq<Record>, s: seq<Record>, t: Target)
    requires multiset(r) == multiset(s) && Marks(r, t) != []
    requires LastAdjudication(r, t) != LastAdjudication(s, t)
    requires LastAdjudication(r, t).Some? && LastAdjudication(s, t).Some?
    ensures Consensus(r) != Consensus(s)
  {
    TargetsAre(r);
    TargetsPermutation(r, s);
    LabelsPermutation(r, s, t);
    var a, b := Labels(Marks(r, t)), Labels(Marks(s, t));
    assert |a| == |multiset(a)| == |multiset(b)| == |b|;
    assert t in Consensus(r) && t in Consensus(s);
    assert Consensus(r)[t].outcome == LastAdjudication(r, t) && Consensus(s)[t].outcome == LastAdjudication(s, t);
  }

  lemma {:induction false} MoveToEnd<T>(s: seq<T>, k: nat) returns (t: seq<T>)
    requires k < |s|
    ensures multiset(t) == multiset(s) && |t| == |s| && t[|t| - 1] == s[k]
  {
    t := s[..k] + s[k + 1..] + [s[k]];
    assert s == s[..k] + [s[k]] + s[k + 1..];
  }

  /**
   * For records with one mark per annotator and target, every order of the records gives the same report
   * exactly when the adjudications of each annotated target agree; the loader does not enforce that part.
   */
  lemma {:induction false} OrderIndependence(records: seq<Record>)
    requires OneMark(records)
    ensures Consistent(records) <==>
              forall other :: multiset(other) == multiset(records) ==> ReportOf(other) == ReportOf(records)
  {
    if Consistent(records) {
      forall other | multiset(other) == multiset(records) ensures ReportOf(other) == ReportOf(records) {
        ConsensusPermutation(records, other);
        PairwisePermutation(records, other);
        AnnotatorsPermutation(records, other);
      }
    } else {
      var other := DisagreementShows(records);
      assert ReportOf(other).consensus != ReportOf(records).consensus;
    }
  }
}
