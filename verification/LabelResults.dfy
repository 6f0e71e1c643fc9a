/**
  * What evaluation/research/expert_labels.py loads and reports, told from the lines and records alone: which lines are
  * kept, the outcome of every target, and the agreement of every pair of annotators.
  */
module LabelResults {
  import opened Counting
  import opened CohenKappa
  import opened ExpertLabels
  import Sorting
  import TextOrder

  // ---- The loading ----

  /** The label line has the fault that the reason names. */
  ghost predicate Faulty(f: Fields, parses: string -> bool, reason: Reason) {
    match reason
    case WrongSchema => f.schema != "satsa-expert-label/1"
    case SourceMissing => f.labelSource == ""
    case TemplateSource => Sorting.Map(LowerChar, f.labelSource) in {"sample-template", "template", "example"}
    case NotAPseudonym => !Pseudonym(f.annotator)
    case NotUtc => !exists t :: parses(t) && f.labelledAt == t + "Z"
    case WrongTargetType => f.targetType !in {"finding", "case", "scenario"}
    case TargetMissing => f.targetId == ""
    case WrongLabel => f.choice !in {"true_issue", "not_issue", "insufficient_evidence"}
    case WrongConfidence =>
      f.confidence.NotANumber? || (f.confidence.Number? && (f.confidence.value < 0.0 || 1.0 < f.confidence.value))
    case DigestMissing => f.caseSetDigest == ""
    case _ => false
  }

  ghost predicate FailsIn(checks: seq<(bool, Reason)>, reason: Reason) {
    exists i :: 0 <= i < |checks| && checks[i] == (false, reason)
  }

  lemma {:induction false} FailuresHold(checks: seq<(bool, Reason)>, reason: Reason)
    ensures reason in Failures(checks) <==> FailsIn(checks, reason)
  {
    if checks != [] {
      var n := |checks| - 1;
      FailuresHold(checks[..n], reason);
      assert checks[n] == (false, reason) <==> !checks[n].0 && checks[n].1 == reason;
      assert forall i :: 0 <= i < n ==> checks[..n][i] == checks[i];
    }
  }

  lemma {:induction false} EndsInZ(time: string, parses: string -> bool)
    ensures (time != "" && time[|time| - 1] == 'Z' && parses(time[..|time| - 1]))
            <==> exists t :: parses(t) && time == t + "Z"
  {
    if time != "" && time[|time| - 1] == 'Z' {
      assert time == time[..|time| - 1] + "Z";
    }
    if t :| parses(t) && time == t + "Z" {
      assert time[..|time| - 1] == t;
    }
  }

  lemma {:induction false} ChecksAre(f: Fields, parses: string -> bool, reason: Reason)
    ensures FailsIn(Checks(f, parses), reason) <==> Faulty(f, parses, reason)
  {
    var checks := Checks(f, parses);
    EndsInZ(f.labelledAt, parses);
    if Faulty(f, parses, reason) {
      var i := match reason
        case WrongSchema => 0
        case SourceMissing => 1
        case TemplateSource => 2
        case NotAPseudonym => 3
        case NotUtc => 4
        case WrongTargetType => 5
        case TargetMissing => 6
        case WrongLabel => 7
        case WrongConfidence => 8
        case _ => 9;
      assert checks[i] == (false, reason);
    }
  }

  /** Every fault of a label line is reported, and nothing else. */
  lemma {:induction false} FaultsReported(f: Fields, parses: string -> bool, reason: Reason)
    ensures reason in Validate(f, parses) <==> Faulty(f, parses, reason)
  {
    FailuresHold(Checks(f, parses), reason);
    ChecksAre(f, parses, reason);
  }

  ghost predicate Faultless(f: Fields, parses: string -> bool) {
    forall reason :: !Faulty(f, parses, reason)
  }

  lemma {:induction false} FaultlessValidates(f: Fields, parses: string -> bool)
    ensures Faultless(f, parses) <==> Validate(f, parses) == []
  {
    forall reason ensures reason in Validate(f, parses) <==> Faulty(f, parses, reason) {
      FaultsReported(f, parses, reason);
    }
    if Validate(f, parses) != [] {
      assert Validate(f, parses)[0] in Validate(f, parses);
    }
  }

  /** A label line without faults. */
  ghost predicate Sound(l: Line, parses: string -> bool) {
    l.Parsed? && l.fields.schema != "satsa-expert-adjudication/1" && Faultless(l.fields, parses)
  }

  /** An earlier sound label line has the same annotator and target. */
  ghost predicate RepeatsEarlier(lines: seq<Line>, parses: string -> bool, i: nat)
    requires i < |lines| && lines[i].Parsed?
  {
    exists j :: 0 <= j < i && Sound(lines[j], parses)
                && lines[j].fields.annotator == lines[i].fields.annotator
                && lines[j].fields.targetType == lines[i].fields.targetType
                && lines[j].fields.targetId == lines[i].fields.targetId
  }

  /** The record that line i puts into the accepted ones. */
  ghost predicate Keeps(lines: seq<Line>, parses: string -> bool, i: nat, r: Record)
    requires i < |lines|
  {
    && lines[i].Parsed?
    && var f := lines[i].fields;
       if f.schema == "satsa-expert-adjudication/1" then r == Adjudication(f.targetType, f.targetId, f.choice)
       else
         Faultless(f, parses) && !RepeatsEarlier(lines, parses, i)
         && r == Annotation(f.annotator, f.targetType, f.targetId, f.choice)
  }

  lemma {:induction false} SoundExactly(l: Line, parses: string -> bool)
    ensures IsValidAnnotation(l, parses) <==> Sound(l, parses)
  {
    if l.Parsed? {
      FaultlessValidates(l.fields, parses);
    }
  }

  lemma {:induction false} RepeatsExactly(lines: seq<Line>, parses: string -> bool, i: nat)
    requires i < |lines| && lines[i].Parsed?
    ensures Repeats(lines, parses, i) <==> RepeatsEarlier(lines, parses, i)
  {
    forall j | 0 <= j < i ensures IsValidAnnotation(lines[j], parses) <==> Sound(lines[j], parses) {
      SoundExactly(lines[j], parses);
    }
  }

  lemma {:induction false} KeepsExactly(lines: seq<Line>, parses: string -> bool, i: nat, r: Record)
    requires i < |lines|
    ensures Keeps(lines, parses, i, r) <==> AcceptedLine(lines, parses, i) && r == RecordOf(lines[i])
  {
    SoundExactly(lines[i], parses);
    if lines[i].Parsed? {
      RepeatsExactly(lines, parses, i);
    }
  }

  /** One of the first n lines puts the record into the accepted ones. */
  ghost predicate KeptWithin(lines: seq<Line>, parses: string -> bool, n: nat, r: Record)
    requires n <= |lines|
  {
    exists i :: 0 <= i < n && Keeps(lines, parses, i, r)
  }

  lemma {:induction false} KeptWithinMore(lines: seq<Line>, parses: string -> bool, n: nat, r: Record)
    requires 0 < n <= |lines|
    ensures KeptWithin(lines, parses, n, r) <==>
              KeptWithin(lines, parses, n - 1, r) || Keeps(lines, parses, n - 1, r)
  {
  }

  /** The accepted records are those of the lines that are kept. */
  lemma {:induction false} AcceptedExactly(lines: seq<Line>, parses: string -> bool, n: nat, r: Record)
    requires n <= |lines|
    ensures r in Accepted(lines, parses, n) <==> KeptWithin(lines, parses, n, r)
  {
    if n > 0 {
      AcceptedExactly(lines, parses, n - 1, r);
      KeptWithinMore(lines, parses, n, r);
      AcceptedStep(lines, parses, n, r);
    }
  }

  lemma {:induction false} AcceptedMore(lines: seq<Line>, parses: string -> bool, n: nat, r: Record)
    requires 0 < n <= |lines|
    ensures r in Accepted(lines, parses, n) <==>
              r in Accepted(lines, parses, n - 1) || (AcceptedLine(lines, parses, n - 1) && r == RecordOf(lines[n - 1]))
  {
  }

  lemma {:induction false} AcceptedStep(lines: seq<Line>, parses: string -> bool, n: nat, r: Record)
    requires 0 < n <= |lines|
    ensures r in Accepted(lines, parses, n) <==>
              r in Accepted(lines, parses, n - 1) || Keeps(lines, parses, n - 1, r)
  {
    AcceptedMore(lines, parses, n, r);
    KeepsExactly(lines, parses, n - 1, r);
  }

  /** Whether a rejected line has the reason: no JSON, one of its faults, or else a repetition. */
  ghost predicate RejectedFor(lines: seq<Line>, parses: string -> bool, i: nat, reason: Reason)
    requires i < |lines|
  {
    match lines[i]
    case BadJson => reason == InvalidJson
    case Parsed(f) =>
      f.schema != "satsa-expert-adjudication/1"
      && (Faulty(f, parses, reason)
          || (reason == DuplicateAnnotation && Faultless(f, parses) && RepeatsEarlier(lines, parses, i)))
    case _ => false
  }

  lemma {:induction false} ReasonsExactly(lines: seq<Line>, parses: string -> bool, i: nat, reason: Reason)
    requires i < |lines| && (lines[i].BadJson? || lines[i].Parsed?) && !AcceptedLine(lines, parses, i)
    ensures reason in ReasonsAt(lines, parses, i) <==> RejectedFor(lines, parses, i, reason)
  {
    if lines[i].Parsed? {
      FaultsReported(lines[i].fields, parses, reason);
      FaultlessValidates(lines[i].fields, parses);
      RepeatsExactly(lines, parses, i);
    }
  }

  /** Line number k is among the rejected with the reason. */
  ghost predicate ReportedFor(rejected: seq<(nat, seq<Reason>)>, k: nat, reason: Reason) {
    exists e :: e in rejected && e.0 == k && reason in e.1
  }

  lemma {:induction false} RejectedBefore(lines: seq<Line>, parses: string -> bool, n: nat, e: (nat, seq<Reason>))
    requires n <= |lines| && e in Rejected(lines, parses, n)
    ensures 1 <= e.0 <= n
  {
    if n > 0 && e in Rejected(lines, parses, n - 1) {
      RejectedBefore(lines, parses, n - 1, e);
    }
  }

  /** Each line is rejected for exactly its reasons, under its number counted from one. */
  lemma {:induction false} RejectedExactly(lines: seq<Line>, parses: string -> bool, n: nat, i: nat, reason: Reason)
    requires i < n <= |lines|
    ensures ReportedFor(Rejected(lines, parses, n), i + 1, reason) <==> RejectedFor(lines, parses, i, reason)
  {
    var before, all := Rejected(lines, parses, n - 1), Rejected(lines, parses, n);
    if i < n - 1 {
      RejectedExactly(lines, parses, n - 1, i, reason);
      assert forall e :: e in before ==> e in all;
      assert forall e :: e in all && e.0 == i + 1 ==> e in before;
    } else {
      forall e | e in before ensures e.0 != i + 1 {
        RejectedBefore(lines, parses, n - 1, e);
      }
      LastRejected(lines, parses, i, reason);
    }
  }

  lemma {:induction false} LastRejected(lines: seq<Line>, parses: string -> bool, i: nat, reason: Reason)
    requires i < |lines| && forall e :: e in Rejected(lines, parses, i) ==> e.0 != i + 1
    ensures ReportedFor(Rejected(lines, parses, i + 1), i + 1, reason) <==> RejectedFor(lines, parses, i, reason)
  {
    if lines[i].Blank? || lines[i].NotObject? || AcceptedLine(lines, parses, i) {
      NotRejectedFor(lines, parses, i, reason);
    } else {
      ReasonsExactly(lines, parses, i, reason);
      var e := (i + 1, ReasonsAt(lines, parses, i));
      assert e in Rejected(lines, parses, i + 1);
    }
  }

  lemma {:induction false} NotRejectedFor(lines: seq<Line>, parses: string -> bool, i: nat, reason: Reason)
    requires i < |lines| && (lines[i].Blank? || lines[i].NotObject? || AcceptedLine(lines, parses, i))
    ensures !RejectedFor(lines, parses, i, reason)
  {
    if lines[i].Parsed? {
      KeepsExactly(lines, parses, i, RecordOf(lines[i]));
    }
  }

  // ---- The consensus ----

  function VotesFor(t: Target, c: string): Record -> bool {
    (r: Record) => r.Annotation? && (r.targetType, r.targetId) == t && r.choice == c
  }

  function Votes(records: seq<Record>, t: Target, c: string): nat {
    CountBy(records, VotesFor(t, c))
  }

  function MarksOn(t: Target): Record -> bool {
    (r: Record) => r.Annotation? && (r.targetType, r.targetId) == t
  }

  /** The label has strictly the most marks on the target. */
  ghost predicate Leads(records: seq<Record>, t: Target, c: string) {
    Votes(records, t, c) > 0 && forall d :: d != c ==> Votes(records, t, d) < Votes(records, t, c)
  }

  predicate Adjudicates(r: Record, t: Target) {
    r.Adjudication? && (r.targetType, r.targetId) == t
  }

  ghost predicate IsAdjudicated(records: seq<Record>, t: Target) {
    exists i :: 0 <= i < |records| && Adjudicates(records[i], t)
  }

  /** Record i is the last adjudication of the target. */
  ghost predicate LastWord(records: seq<Record>, t: Target, i: int) {
    0 <= i < |records| && Adjudicates(records[i], t) && forall j :: i < j < |records| ==> !Adjudicates(records[j], t)
  }

  lemma {:induction false} LabelVotes(records: seq<Record>, t: Target, c: string)
    ensures CountBy(Labels(Marks(records, t)), Is(c)) == Votes(records, t, c)
    ensures |Labels(Marks(records, t))| == CountBy(records, MarksOn(t))
  {
    if records != [] {
      var init, last := records[..|records| - 1], records[|records| - 1];
      LabelVotes(init, t, c);
      if MarkOf(t)(last) {
        assert Labels(Marks(records, t)) == Labels(Marks(init, t)) + [last.choice];
        CountAppend(Labels(Marks(init, t)), last.choice, Is(c));
      } else {
        assert Marks(records, t) == Marks(init, t);
      }
    }
  }

  lemma {:induction false} LabelIsVoted(records: seq<Record>, t: Target, c: string)
    ensures c in Labels(Marks(records, t)) <==> Votes(records, t, c) > 0
  {
    var labels := Labels(Marks(records, t));
    LabelVotes(records, t, c);
    CountBound(labels, Is(c));
    if c in labels {
      var i :| 0 <= i < |labels| && labels[i] == c;
      assert Is(c)(labels[i]);
    }
  }

  lemma {:induction false} LeadsIsMaximum(records: seq<Record>, t: Target, c: string)
    ensures Leads(records, t, c) <==> StrictMaximum(Labels(Marks(records, t)), c)
  {
    var labels := Labels(Marks(records, t));
    forall d
      ensures CountBy(labels, Is(d)) == Votes(records, t, d) && (d in labels <==> Votes(records, t, d) > 0)
    {
      LabelVotes(records, t, d);
      LabelIsVoted(records, t, d);
    }
  }

  lemma {:induction false} LastWordExactly(records: seq<Record>, t: Target)
    ensures LastAdjudication(records, t).None? <==> !IsAdjudicated(records, t)
    ensures forall i :: LastWord(records, t, i) ==> LastAdjudication(records, t) == Some(records[i].choice)
    ensures IsAdjudicated(records, t) ==> exists i :: LastWord(records, t, i)
  {
    if records != [] {
      var n := |records| - 1;
      var init, last := records[..n], records[n];
      LastWordExactly(init, t);
      if Adjudicates(last, t) {
        assert LastWord(records, t, n);
      } else {
        forall i ensures LastWord(records, t, i) <==> LastWord(init, t, i) {
          assert 0 <= i < n ==> init[i] == records[i];
        }
      }
    }
  }

  /** What the report says of a target: the last adjudication if there is one, else the leading label, else nothing. */
  ghost predicate Settles(records: seq<Record>, t: Target, v: Verdict) {
    && v.annotations == CountBy(records, MarksOn(t))
    && (forall c :: c in v.labelCounts <==> Votes(records, t, c) > 0)
    && (forall c :: c in v.labelCounts ==> v.labelCounts[c] == Votes(records, t, c))
    && (if IsAdjudicated(records, t) then
          v.how == Adjudicated && v.outcome.Some?
          && forall i :: LastWord(records, t, i) ==> v.outcome == Some(records[i].choice)
        else
          (forall c :: v.outcome == Some(c) <==> Leads(records, t, c))
          && v.how == if v.outcome.Some? then Majority else Unresolved)
  }

  lemma {:induction false} OutcomeExactly(records: seq<Record>, t: Target)
    requires Marks(records, t) != []
    ensures var v := Decide(LastAdjudication(records, t), Labels(Marks(records, t)));
            if IsAdjudicated(records, t) then
              v.how == Adjudicated && v.outcome.Some?
              && forall i :: LastWord(records, t, i) ==> v.outcome == Some(records[i].choice)
            else
              (forall c :: v.outcome == Some(c) <==> Leads(records, t, c))
              && v.how == if v.outcome.Some? then Majority else Unresolved
  {
    LastWordExactly(records, t);
    forall c ensures MajorityOf(Labels(Marks(records, t))) == Some(c) <==> Leads(records, t, c) {
      LeadsIsMaximum(records, t, c);
      MajorityIsStrictMaximum(Labels(Marks(records, t)), c);
    }
  }

  lemma {:induction false} CountsExactly(records: seq<Record>, t: Target)
    requires Marks(records, t) != []
    ensures var v := Decide(LastAdjudication(records, t), Labels(Marks(records, t)));
            && v.annotations == CountBy(records, MarksOn(t))
            && (forall c :: c in v.labelCounts <==> Votes(records, t, c) > 0)
            && (forall c :: c in v.labelCounts ==> v.labelCounts[c] == Votes(records, t, c))
  {
    LabelVotes(records, t, "");
    forall c
      ensures c in Labels(Marks(records, t)) <==> Votes(records, t, c) > 0
      ensures CountBy(Labels(Marks(records, t)), Is(c)) == Votes(records, t, c)
    {
      LabelIsVoted(records, t, c);
      LabelVotes(records, t, c);
    }
  }

  ghost predicate Annotated(records: seq<Record>, t: Target) {
    exists r :: r in records && MarksOn(t)(r)
  }

  lemma {:induction false} SomeMark(records: seq<Record>, t: Target)
    ensures Marks(records, t) != [] <==> Annotated(records, t)
  {
    var marks := Marks(records, t);
    if marks != [] {
      assert marks[0] in marks;
      assert marks[0] in records && MarksOn(t)(marks[0]);
    }
    if r :| r in records && MarksOn(t)(r) {
      assert MarkOf(t)(r) && r in marks;
    }
  }

  lemma {:induction false} AnnotatedExactly(records: seq<Record>, t: Target)
    ensures t in Consensus(records) <==> Annotated(records, t)
  {
    TargetsAre(records);
    SomeMark(records, t);
  }

  lemma {:induction false} SettledExactly(records: seq<Record>, t: Target)
    requires t in Consensus(records)
    ensures Settles(records, t, Consensus(records)[t])
  {
    TargetsAre(records);
    OutcomeExactly(records, t);
    CountsExactly(records, t);
  }

  /** The consensus has every annotated target and no other, each with its outcome. */
  lemma {:induction false} ConsensusExactly(records: seq<Record>, t: Target)
    ensures t in ReportOf(records).consensus <==> Annotated(records, t)
    ensures t in ReportOf(records).consensus ==> Settles(records, t, ReportOf(records).consensus[t])
  {
    AnnotatedExactly(records, t);
    if t in Consensus(records) {
      SettledExactly(records, t);
    }
  }

  /** The annotated targets that nobody adjudicated and on which no label leads. */
  ghost predicate Open(records: seq<Record>, t: Target) {
    Annotated(records, t) && !IsAdjudicated(records, t) && forall c :: !Leads(records, t, c)
  }

  lemma {:induction false} OpenVerdict(records: seq<Record>, t: Target, v: Verdict)
    requires Settles(records, t, v) && Annotated(records, t)
    ensures v.how == Unresolved <==> Open(records, t)
  {
    if v.outcome.Some? && !IsAdjudicated(records, t) {
      assert Leads(records, t, v.outcome.value);
    }
  }

  lemma {:induction false} OpenExactly(records: seq<Record>, t: Target)
    ensures t in UnresolvedIn(Consensus(records)) <==> Open(records, t)
  {
    AnnotatedExactly(records, t);
    if t in Consensus(records) {
      SettledExactly(records, t);
      OpenVerdict(records, t, Consensus(records)[t]);
    }
  }

  /** The numbers of the report count exactly the annotated and the open targets. */
  lemma {:induction false} NumbersExactly(records: seq<Record>, annotated: set<Target>, open: set<Target>)
    requires forall t :: t in annotated <==> Annotated(records, t)
    requires forall t :: t in open <==> Open(records, t)
    ensures ReportOf(records).targets == |annotated| && ReportOf(records).unresolved == |open|
  {
    forall t
      ensures t in annotated <==> t in Consensus(records)
      ensures t in open <==> t in UnresolvedIn(Consensus(records))
    {
      AnnotatedExactly(records, t);
      OpenExactly(records, t);
    }
    assert annotated == Consensus(records).Keys && open == UnresolvedIn(Consensus(records));
  }

  // ---- The agreement of two annotators ----

  /** The annotator marked the target with the label. */
  ghost predicate Marked(records: seq<Record>, a: string, t: Target, c: string) {
    Annotation(a, t.0, t.1, c) in records
  }

  lemma {:induction false} FirstLabelIs(records: seq<Record>, t: Target, a: string)
    requires OneMark(records)
    ensures forall c :: FirstLabel(records, t, a) == Some(c) <==> Marked(records, a, t, c)
  {
    var marks := Filter(Marks(records, t), By(a));
    forall c ensures FirstLabel(records, t, a) == Some(c) <==> Marked(records, a, t, c) {
      var r := Annotation(a, t.0, t.1, c);
      if Marked(records, a, t, c) {
        assert MarkOf(t)(r) && By(a)(r) && r in marks;
        SameMark(records, marks[0], r);
      }
      if FirstLabel(records, t, a) == Some(c) {
        assert marks[0] in marks && marks[0] == r;
      }
    }
  }

  lemma {:induction false} SameMark(records: seq<Record>, x: Record, y: Record)
    requires OneMark(records) && x in records && y in records && x.Annotation? && y.Annotation?
    requires x.annotator == y.annotator && x.Key() == y.Key()
    ensures x == y
  {
    var i, j :| 0 <= i < |records| && records[i] == x && 0 <= j < |records| && records[j] == y;
  }

  /** The targets that both annotators marked, and those of them that both gave one label. */
  ghost predicate IsShared(records: seq<Record>, a: string, b: string, t: Target) {
    exists c, d :: Marked(records, a, t, c) && Marked(records, b, t, d)
  }

  ghost predicate IsAgreed(records: seq<Record>, a: string, b: string, t: Target) {
    exists c :: Marked(records, a, t, c) && Marked(records, b, t, c)
  }

  lemma {:induction false} PairsAre(records: seq<Record>, a: string, b: string, t: Target)
    requires OneMark(records)
    ensures BothMarked(records, a, b)(t) <==> IsShared(records, a, b, t)
    ensures BothMarked(records, a, b)(t) ==> (Agree()(PairAt(records, a, b)(t)) <==> IsAgreed(records, a, b, t))
  {
    FirstLabelIs(records, t, a);
    FirstLabelIs(records, t, b);
    if BothMarked(records, a, b)(t) {
      assert Marked(records, a, t, FirstLabel(records, t, a).value);
      assert Marked(records, b, t, FirstLabel(records, t, b).value);
    }
  }

  lemma {:induction false} SharedIsAnnotated(records: seq<Record>, a: string, b: string, t: Target)
    requires IsShared(records, a, b, t)
    ensures t in Targets(records)
  {
    TargetsAre(records);
    var c, d :| Marked(records, a, t, c) && Marked(records, b, t, d);
    assert MarkOf(t)(Annotation(a, t.0, t.1, c));
    assert Annotation(a, t.0, t.1, c) in Marks(records, t);
  }

  lemma {:induction false} FilteredSize<T(!new)>(s: seq<T>, p: T -> bool, u: set<T>)
    requires Distinct(s) && forall x :: x in u <==> x in s && p(x)
    ensures CountBy(s, p) == |u|
  {
    CountDistinctIn(s, u);
    CountMonotone(s, p, x => x in u);
    CountMonotone(s, x => x in u, p);
  }

  lemma {:induction false} MappedCount<T(!new), U>(s: seq<T>, p: T -> bool, f: T -> U, q: U -> bool, r: T -> bool)
    requires forall x :: r(x) <==> p(x) && q(f(x))
    ensures CountBy(Sorting.Map(f, Filter(s, p)), q) == CountBy(s, r)
  {
    if s != [] {
      var init, last := s[..|s| - 1], s[|s| - 1];
      MappedCount(init, p, f, q, r);
      if p(last) {
        assert Sorting.Map(f, Filter(s, p)) == Sorting.Map(f, Filter(init, p)) + [f(last)];
        CountAppend(Sorting.Map(f, Filter(init, p)), f(last), q);
      } else {
        assert Filter(s, p) == Filter(init, p);
      }
    }
  }

  function AgreedAt(records: seq<Record>, a: string, b: string): Target -> bool {
    (t: Target) => BothMarked(records, a, b)(t) && Agree()(PairAt(records, a, b)(t))
  }

  lemma {:induction false} SharedExactly(records: seq<Record>, a: string, b: string, t: Target)
    requires OneMark(records)
    ensures IsShared(records, a, b, t) <==> t in Targets(records) && BothMarked(records, a, b)(t)
  {
    PairsAre(records, a, b, t);
    if IsShared(records, a, b, t) {
      SharedIsAnnotated(records, a, b, t);
    }
  }

  lemma {:induction false} AgreedExactly(records: seq<Record>, a: string, b: string, t: Target)
    requires OneMark(records)
    ensures IsAgreed(records, a, b, t) <==> t in Targets(records) && AgreedAt(records, a, b)(t)
  {
    PairsAre(records, a, b, t);
    SharedExactly(records, a, b, t);
    if c :| Marked(records, a, t, c) && Marked(records, b, t, c) {
      assert IsShared(records, a, b, t);
    }
  }

  lemma {:induction false} SharedCount(records: seq<Record>, a: string, b: string, shared: set<Target>)
    requires OneMark(records) && forall t :: t in shared <==> IsShared(records, a, b, t)
    ensures |Shared(records, a, b)| == |shared|
  {
    TargetsAre(records);
    forall t ensures t in shared <==> t in Targets(records) && BothMarked(records, a, b)(t) {
      SharedExactly(records, a, b, t);
    }
    FilteredSize(Targets(records), BothMarked(records, a, b), shared);
  }

  lemma {:induction false} AgreedCount(records: seq<Record>, a: string, b: string, agreed: set<Target>)
    requires OneMark(records) && forall t :: t in agreed <==> IsAgreed(records, a, b, t)
    ensures CountBy(Shared(records, a, b), Agree()) == |agreed|
  {
    TargetsAre(records);
    forall t ensures t in agreed <==> t in Targets(records) && AgreedAt(records, a, b)(t) {
      AgreedExactly(records, a, b, t);
    }
    FilteredSize(Targets(records), AgreedAt(records, a, b), agreed);
    MappedCount(Targets(records), BothMarked(records, a, b), PairAt(records, a, b), Agree(), AgreedAt(records, a, b));
  }

  /**
    * The shared targets of two annotators are those both marked, and the share of them on which they agree is the
    * reported percentage.
    */
  lemma {:induction false} AgreementExactly(records: seq<Record>, a: string, b: string, shared: set<Target>,
                                            agreed: set<Target>)
    requires OneMark(records)
    requires forall t :: t in shared <==> IsShared(records, a, b, t)
    requires forall t :: t in agreed <==> IsAgreed(records, a, b, t)
    ensures AgreementAt(records)((a, b)).Some? <==> shared != {}
    ensures AgreementAt(records)((a, b)).Some? ==>
              var g := AgreementAt(records)((a, b)).value;
              g.sharedTargets == |shared| && g.percentAgreement == |agreed| as real / |shared| as real
  {
    SharedCount(records, a, b, shared);
    AgreedCount(records, a, b, agreed);
    AgreementFrom(Shared(records, a, b), |shared|, |agreed|);
  }

  lemma {:induction false} AgreementFrom(pairs: seq<Pair>, n: nat, m: nat)
    requires |pairs| == n && CountBy(pairs, Agree()) == m
    ensures AgreementOf(pairs).Some? <==> n > 0
    ensures AgreementOf(pairs).Some? ==>
              AgreementOf(pairs).value.sharedTargets == n
              && AgreementOf(pairs).value.percentAgreement == m as real / n as real
  {
  }

  lemma {:induction false} SharedTargets(records: seq<Record>, a: string, b: string) returns (shared: set<Target>)
    requires OneMark(records)
    ensures forall t :: t in shared <==> IsShared(records, a, b, t)
  {
    shared := ElementsOf(Filter(Targets(records), BothMarked(records, a, b)));
    forall t ensures t in shared <==> IsShared(records, a, b, t) {
      SharedExactly(records, a, b, t);
    }
  }

  lemma {:induction false} SomeShared(records: seq<Record>, a: string, b: string)
    requires OneMark(records)
    ensures AgreementAt(records)((a, b)).Some? <==> exists t :: IsShared(records, a, b, t)
  {
    var shared := SharedTargets(records, a, b);
    SharedCount(records, a, b, shared);
    AgreementFrom(Shared(records, a, b), |shared|, CountBy(Shared(records, a, b), Agree()));
    assert shared != {} <==> exists t :: t in shared;
  }

  lemma {:induction false} MarkersAreAnnotators(records: seq<Record>, a: string, t: Target, c: string)
    requires Marked(records, a, t, c)
    ensures a in Annotators(records)
  {
    NamesAre(records, a);
    CountBound(records, By(a));
    var i :| 0 <= i < |records| && records[i] == Annotation(a, t.0, t.1, c);
    assert By(a)(records[i]);
  }

  lemma {:induction false} PairsOrdered(names: seq<string>, a: string, b: string)
    requires TextOrder.Ascending(names) && a in names && b in names
    ensures (a, b) in Pairs(names) <==> TextOrder.Less(a, b)
  {
    if (a, b) in Pairs(names) {
      var i, j :| 0 <= i < j < |names| && (names[i], names[j]) == (a, b);
    }
    if TextOrder.Less(a, b) {
      var i, j :| 0 <= i < |names| && names[i] == a && 0 <= j < |names| && names[j] == b;
      TextOrder.LessTotal(a, b);
      assert i < j;
    }
  }

  /** The report has an entry for two annotators exactly when they are in order and share a target. */
  lemma {:induction false} PairwiseExactly(records: seq<Record>, a: string, b: string)
    requires OneMark(records)
    ensures (a, b) in ReportOf(records).pairwise <==> TextOrder.Less(a, b) && exists t :: IsShared(records, a, b, t)
    ensures (a, b) in ReportOf(records).pairwise ==>
              AgreementAt(records)((a, b)) == Some(ReportOf(records).pairwise[(a, b)])
  {
    var names := Annotators(records);
    TextOrder.SortedSetAscending(Names(records));
    SomeShared(records, a, b);
    if t :| IsShared(records, a, b, t) {
      var c, d :| Marked(records, a, t, c) && Marked(records, b, t, d);
      MarkersAreAnnotators(records, a, t, c);
      MarkersAreAnnotators(records, b, t, d);
      PairsOrdered(names, a, b);
    }
    if (a, b) in Pairs(names) {
      PairsOrdered(names, a, b);
    }
  }
}
