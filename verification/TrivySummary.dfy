/** The annotations of deploy/summarize_trivy.py: lines packed into chunks, and chunks escaped onto one line each. */
module TrivySummary {
  import opened Counting

  type Line = string

  const CHUNK := 3200
  const MAX_ANNOTATIONS := 9

  // ---- Packing lines into chunks ----

  /** The lines, each followed by a newline. */
  function Text(lines: seq<Line>): string {
    if lines == [] then "" else Text(lines[..|lines| - 1]) + lines[|lines| - 1] + "\n"
  }

  function Size(lines: seq<Line>): nat {
    if lines == [] then 0 else Size(lines[..|lines| - 1]) + |lines[|lines| - 1]| + 1
  }

  lemma {:induction false} TextSize(lines: seq<Line>)
    ensures |Text(lines)| == Size(lines)
  {
    if lines != [] {
      TextSize(lines[..|lines| - 1]);
    }
  }

  lemma {:induction false} SizeConcat(a: seq<Line>, b: seq<Line>)
    ensures Size(a + b) == Size(a) + Size(b)
  {
    if b == [] {
      assert a + b == a;
    } else {
      SizeConcat(a, b[..|b| - 1]);
      assert (a + b)[..|a + b| - 1] == a + b[..|b| - 1];
    }
  }

  lemma {:induction false} TextConcat(a: seq<Line>, b: seq<Line>)
    ensures Text(a + b) == Text(a) + Text(b)
  {
    if b == [] {
      assert a + b == a;
    } else {
      TextConcat(a, b[..|b| - 1]);
      assert (a + b)[..|a + b| - 1] == a + b[..|b| - 1];
      assert Text(a + b) == Text(a) + Text(b[..|b| - 1]) + b[|b| - 1] + "\n";
    }
  }

  /** The chunks that are complete, and the lines of the one being filled. */
  datatype Packing = Packing(done: seq<seq<Line>>, current: seq<Line>)

  function Push(p: Packing, line: Line): Packing {
    if Size(p.current) + |line| + 1 > CHUNK then Packing(p.done + [p.current], [line])
    else Packing(p.done, p.current + [line])
  }

  function Pack(lines: seq<Line>): Packing {
    if lines == [] then Packing([], []) else Push(Pack(lines[..|lines| - 1]), lines[|lines| - 1])
  }

  function Groups(lines: seq<Line>): seq<seq<Line>> {
    var p := Pack(lines);
    p.done + if p.current != [] then [p.current] else []
  }

  function Texts(groups: seq<seq<Line>>): (r: seq<string>)
    ensures |r| == |groups| && forall i :: 0 <= i < |groups| ==> r[i] == Text(groups[i])
  {
    if groups == [] then [] else Texts(groups[..|groups| - 1]) + [Text(groups[|groups| - 1])]
  }

  lemma {:induction false} TextsMore(groups: seq<seq<Line>>, g: seq<Line>)
    ensures Texts(groups + [g]) == Texts(groups) + [Text(g)]
  {
    assert (groups + [g])[..|groups|] == groups;
  }

  method MakeChunks(lines: seq<Line>) returns (chunks: seq<string>)
    ensures chunks == Texts(Groups(lines))
  {
    chunks := [];
    var current := "";
    for i := 0 to |lines|
      invariant chunks == Texts(Pack(lines[..i]).done) && current == Text(Pack(lines[..i]).current)
    {
      var line := lines[i];
      ghost var p := Pack(lines[..i]);
      assert lines[..i + 1][..i] == lines[..i];
      TextSize(p.current);
      TextsMore(p.done, p.current);
      assert (p.current + [line])[..|p.current|] == p.current;
      if |current| + |line| + 1 > CHUNK {
        chunks := chunks + [current];
        current := "";
      }
      current := current + line + "\n";
    }
    assert lines[..|lines|] == lines;
    TextsMore(Pack(lines).done, Pack(lines).current);
    if current != "" {
      chunks := chunks + [current];
    }
  }

  function Flatten<T>(groups: seq<seq<T>>): seq<T> {
    if groups == [] then [] else Flatten(groups[..|groups| - 1]) + groups[|groups| - 1]
  }

  lemma {:induction false} FlattenAppend<T>(groups: seq<seq<T>>, g: seq<T>)
    ensures Flatten(groups + [g]) == Flatten(groups) + g
  {
    assert (groups + [g])[..|groups|] == groups;
  }

  /** The lines that a packing holds so far. */
  function Held(p: Packing): seq<Line> {
    Flatten(p.done) + p.current
  }

  lemma {:induction false} PushKeepsLines(p: Packing, line: Line)
    ensures Held(Push(p, line)) == Held(p) + [line]
  {
    FlattenAppend(p.done, p.current);
  }

  lemma {:induction false} PackHolds(lines: seq<Line>)
    ensures Held(Pack(lines)) == lines
  {
    if lines != [] {
      PackHolds(lines[..|lines| - 1]);
      PushKeepsLines(Pack(lines[..|lines| - 1]), lines[|lines| - 1]);
    }
  }

  lemma {:induction false} PackKeepsLines(lines: seq<Line>)
    ensures Flatten(Pack(lines).done) + Pack(lines).current == lines
  {
    PackHolds(lines);
  }

  lemma {:induction false} GroupsKeepLines(lines: seq<Line>)
    ensures Flatten(Groups(lines)) == lines
  {
    var p := Pack(lines);
    PackKeepsLines(lines);
    assert (p.done + [p.current])[..|p.done|] == p.done;
  }

  lemma {:induction false} FlattenTexts(groups: seq<seq<Line>>)
    ensures Flatten(Texts(groups)) == Text(Flatten(groups))
  {
    if groups != [] {
      var n := |groups| - 1;
      FlattenTexts(groups[..n]);
      TextConcat(Flatten(groups[..n]), groups[n]);
      assert Texts(groups)[..n] == Texts(groups[..n]);
    }
  }

  /** Nothing is lost: the chunks in order are the lines in order. */
  lemma {:induction false} ChunksKeepText(lines: seq<Line>)
    ensures Flatten(Texts(Groups(lines))) == Text(lines)
  {
    FlattenTexts(Groups(lines));
    GroupsKeepLines(lines);
  }

  // ---- The size of the chunks ----

  predicate Overlong(line: Line) {
    |line| + 1 > CHUNK
  }

  /** Within the limit, or a single line. */
  predicate Fits(group: seq<Line>) {
    Size(group) <= CHUNK || |group| == 1
  }

  predicate Leading(lines: seq<Line>, done: seq<seq<Line>>, i: int)
    requires 0 <= i < |done|
  {
    done[i] == [] <==> i == 0 && lines != [] && Overlong(lines[0])
  }

  lemma {:induction false} LastIsNotLeading(lines: seq<Line>)
    requires lines != []
    ensures Overlong(lines[0]) ==> Pack(lines).done != []
  {
    if |lines| == 1 {
      assert Pack(lines[..0]) == Packing([], []);
    } else {
      LastIsNotLeading(lines[..|lines| - 1]);
      assert lines[..|lines| - 1][0] == lines[0];
    }
  }

  lemma {:induction false} PackFits(lines: seq<Line>)
    ensures var p := Pack(lines);
            && (p.current == [] <==> lines == []) && (p.current == [] ==> p.done == []) && Fits(p.current)
            && (forall i :: 0 <= i < |p.done| ==> Fits(p.done[i]))
  {
    if lines != [] {
      var n := |lines| - 1;
      PackFits(lines[..n]);
      SizeConcat(Pack(lines[..n]).current, [lines[n]]);
      assert Size([lines[n]]) == |lines[n]| + 1;
    }
  }

  lemma {:induction false} PackLeading(lines: seq<Line>, i: nat)
    requires i < |Pack(lines).done|
    ensures Leading(lines, Pack(lines).done, i)
  {
    var n := |lines| - 1;
    var before := Pack(lines[..n]);
    if n == 0 {
      assert lines[..n] == [];
    } else {
      assert lines[..n][0] == lines[0];
      PackFits(lines[..n]);
      LastIsNotLeading(lines[..n]);
      if i < |before.done| {
        PackLeading(lines[..n], i);
      }
    }
  }

  /** A chunk over the limit is one over-long line; a chunk is empty exactly when it is first and so is such a line. */
  lemma {:induction false} ChunkSizes(lines: seq<Line>, i: nat)
    requires i < |Groups(lines)|
    ensures |Text(Groups(lines)[i])| > CHUNK ==> exists l :: Groups(lines)[i] == [l] && Overlong(l)
    ensures Text(Groups(lines)[i]) == "" <==> i == 0 && lines != [] && Overlong(lines[0])
  {
    var p, group := Pack(lines), Groups(lines)[i];
    PackFits(lines);
    TextSize(group);
    assert Fits(group) && (Size(group) == 0 <==> group == []);
    if Size(group) > CHUNK {
      assert group == [group[0]] && Size(group) == |group[0]| + 1;
    }
    if i < |p.done| {
      PackLeading(lines, i);
    } else {
      assert group == p.current != [];
      LastIsNotLeading(lines);
    }
  }

  // ---- No packing needs fewer chunks ----

  predicate Nonempty(group: seq<Line>) {
    group != []
  }

  /** Another way to cut the lines into consecutive chunks. */
  ghost predicate Division(lines: seq<Line>, division: seq<seq<Line>>) {
    Flatten(division) == lines && forall i :: 0 <= i < |division| ==> division[i] != [] && Fits(division[i])
  }

  /** Of two tails of the same lines, the longer is at least as large. */
  lemma {:induction false} TailSize(a: seq<Line>, b: seq<Line>, c: seq<Line>, d: seq<Line>)
    requires a + b == c + d && |b| <= |d|
    ensures Size(b) <= Size(d)
  {
    var k := |d| - |b|;
    assert d == (a + b)[|c|..] == (a + b)[|c|..|a|] + b by {
      assert d == (c + d)[|c|..];
    }
    SizeConcat((a + b)[|c|..|a|], b);
  }

  /** The chunks with a line in them, the one being filled among them. */
  function Used(p: Packing): nat {
    CountBy(p.done, Nonempty) + if p.current != [] then 1 else 0
  }

  /** A division with the last line taken out. */
  function WithoutLast(division: seq<seq<Line>>): seq<seq<Line>>
    requires division != [] && division[|division| - 1] != []
  {
    var n := |division| - 1;
    if |division[n]| == 1 then division[..n] else division[..n] + [division[n][..|division[n]| - 1]]
  }

  lemma {:induction false} WithoutLastDivides(lines: seq<Line>, division: seq<seq<Line>>)
    requires lines != [] && Division(lines, division)
    ensures division != [] && division[|division| - 1] != []
    ensures division[|division| - 1][|division[|division| - 1]| - 1] == lines[|lines| - 1]
    ensures Division(lines[..|lines| - 1], WithoutLast(division))
  {
    var n, m := |division| - 1, |lines| - 1;
    assert division != [];
    var last, shorter := division[n], WithoutLast(division);
    assert lines == Flatten(division[..n]) + last;
    assert last == last[..|last| - 1] + [last[|last| - 1]];
    assert lines[..m] == Flatten(division[..n]) + last[..|last| - 1];
    if |last| > 1 {
      assert shorter[..n] == division[..n] && shorter[n] == last[..|last| - 1];
      SizeConcat(last[..|last| - 1], [last[|last| - 1]]);
    }
  }

  /** The greedy packing stays ahead: never more chunks, and on a tie no longer a last chunk. */
  lemma {:induction false} StaysAhead(lines: seq<Line>, division: seq<seq<Line>>)
    requires Division(lines, division)
    ensures Used(Pack(lines)) <= |division|
    ensures Used(Pack(lines)) == |division| && lines != [] ==>
              division != [] && |Pack(lines).current| <= |division[|division| - 1]|
  {
    if lines != [] {
      var m, n := |lines| - 1, |division| - 1;
      WithoutLastDivides(lines, division);
      StaysAhead(lines[..m], WithoutLast(division));
      PackFits(lines[..m]);
      PackKeepsLines(lines[..m]);
      UsedAfter(Pack(lines[..m]), lines[m]);
      if |division[n]| > 1 && m > 0 {
        LastHolds(lines, division);
      }
    }
  }

  lemma {:induction false} UsedAfter(p: Packing, line: Line)
    requires p.current == [] ==> p.done == []
    ensures Used(Push(p, line))
            == if Size(p.current) + |line| + 1 > CHUNK || p.current == [] then Used(p) + 1 else Used(p)
  {
    CountAppend(p.done, p.current, Nonempty);
  }

  lemma {:induction false} LastLine(lines: seq<Line>, division: seq<seq<Line>>) returns (shorter: seq<Line>)
    requires lines != [] && Division(lines, division) && division != [] && |division[|division| - 1]| > 1
    ensures division[|division| - 1] == shorter + [lines[|lines| - 1]]
    ensures lines[..|lines| - 1] == Flatten(division[..|division| - 1]) + shorter
  {
    var n := |division| - 1;
    var last := division[n];
    WithoutLastDivides(lines, division);
    shorter := last[..|last| - 1];
    assert lines == Flatten(division[..n]) + last;
  }

  /** A last chunk with more lines than the greedy one shows that the line fits there too. */
  lemma {:induction false} LastHolds(lines: seq<Line>, division: seq<seq<Line>>)
    requires lines != [] && Division(lines, division) && division != []
    requires |division[|division| - 1]| > 1
    ensures var p := Pack(lines[..|lines| - 1]);
            |p.current| < |division[|division| - 1]| ==> Size(p.current) + |lines[|lines| - 1]| + 1 <= CHUNK
  {
    var front, n := lines[..|lines| - 1], |division| - 1;
    var p := Pack(front);
    var shorter := LastLine(lines, division);
    if |p.current| < |division[n]| {
      PackKeepsLines(front);
      TailSize(Flatten(p.done), p.current, Flatten(division[..n]), shorter);
      SizeConcat(shorter, [lines[|lines| - 1]]);
    }
  }

  /** The chunks that hold anything are as few as any division into chunks within the limit or of one line allows. */
  lemma {:induction false} FewestFilled(lines: seq<Line>, division: seq<seq<Line>>)
    requires Division(lines, division)
    ensures CountBy(Groups(lines), Nonempty) <= |division|
  {
    var p := Pack(lines);
    StaysAhead(lines, division);
    CountAppend(p.done, p.current, Nonempty);
    assert p.done + [] == p.done;
  }

  /** The first line is over-long: the loop then starts with a chunk that holds nothing. */
  predicate Spare(lines: seq<Line>) {
    lines != [] && Overlong(lines[0])
  }

  lemma {:induction false} EmptyGroups(lines: seq<Line>, i: nat)
    requires i < |Groups(lines)|
    ensures Groups(lines)[i] == [] <==> i == 0 && Spare(lines)
    ensures Fits(Groups(lines)[i])
  {
    PackFits(lines);
    ChunkSizes(lines, i);
    TextSize(Groups(lines)[i]);
    assert Size(Groups(lines)[i]) == 0 <==> Groups(lines)[i] == [];
  }

  /** The chunks with the empty one, if there is one, taken out. */
  function Filled(lines: seq<Line>): seq<seq<Line>> {
    if Spare(lines) && Groups(lines) != [] then Groups(lines)[1..] else Groups(lines)
  }

  lemma {:induction false} FlattenTail<T>(groups: seq<seq<T>>)
    requires groups != [] && groups[0] == []
    ensures Flatten(groups[1..]) == Flatten(groups)
  {
    var n := |groups| - 1;
    if n > 0 {
      FlattenTail(groups[..n]);
      assert groups[1..][..n - 1] == groups[..n][1..];
    }
  }

  lemma {:induction false} FilledDivides(lines: seq<Line>)
    ensures Division(lines, Filled(lines))
    ensures |Groups(lines)| == |Filled(lines)| + if Spare(lines) then 1 else 0
  {
    GroupsKeepLines(lines);
    forall i | 0 <= i < |Groups(lines)|
      ensures (Groups(lines)[i] == [] <==> i == 0 && Spare(lines)) && Fits(Groups(lines)[i])
    {
      EmptyGroups(lines, i);
    }
    if Spare(lines) {
      LastIsNotLeading(lines);
      FlattenTail(Groups(lines));
    }
  }

  lemma {:induction false} FewestOf(lines: seq<Line>, division: seq<seq<Line>>)
    requires Division(lines, division)
    ensures |Filled(lines)| <= |division|
  {
    FewestFilled(lines, division);
    FilledDivides(lines);
    forall i | 0 <= i < |Filled(lines)| ensures Nonempty(Filled(lines)[i]) {
    }
    CountBound(Filled(lines), Nonempty);
    if Spare(lines) {
      assert Groups(lines) == [Groups(lines)[0]] + Filled(lines);
      CountConcat([Groups(lines)[0]], Filled(lines), Nonempty);
    }
  }

  /** One over-long line makes two chunks, the first of them empty, where one would do. */
  lemma {:induction false} OverlongAlone(line: Line)
    requires Overlong(line)
    ensures Groups([line]) == [[], [line]] && Division([line], [[line]])
  {
    assert [line][..0] == [] && Pack([line]) == Push(Pack([line][..0]), line);
    assert [[line]][..0] == [] && Flatten([[line]]) == Flatten([[line]][..0]) + [line];
  }

  /** The loop gives as few chunks as any division, except that an over-long first line always costs one chunk more. */
  lemma {:induction false} FewestChunks(lines: seq<Line>)
    ensures exists best :: Division(lines, best) && |Groups(lines)| == |best| + if Spare(lines) then 1 else 0
    ensures forall division :: Division(lines, division) ==>
              |Groups(lines)| <= |division| + if Spare(lines) then 1 else 0
    ensures (forall division :: Division(lines, division) ==> |Groups(lines)| <= |division|) <==> !Spare(lines)
  {
    FilledDivides(lines);
    forall division | Division(lines, division) ensures |Filled(lines)| <= |division| {
      FewestOf(lines, division);
    }
  }

  // ---- Escaping ----

  /** str.replace for a pattern of one character. */
  function Replace(s: string, c: char, replacement: string): string {
    if s == "" then "" else (if s[0] == c then replacement else [s[0]]) + Replace(s[1..], c, replacement)
  }

  function Escape(s: string): string {
    Replace(Replace(Replace(s, '%', "%25"), '\r', "%0D"), '\n', "%0A")
  }

  function EncodeChar(c: char): string {
    if c == '%' then "%25" else if c == '\r' then "%0D" else if c == '\n' then "%0A" else [c]
  }

  function Encode(s: string): string {
    if s == "" then "" else EncodeChar(s[0]) + Encode(s[1..])
  }

  lemma {:induction false} ReplaceConcat(s: string, t: string, c: char, replacement: string)
    ensures Replace(s + t, c, replacement) == Replace(s, c, replacement) + Replace(t, c, replacement)
  {
    if s == "" {
      assert s + t == t;
    } else {
      ReplaceConcat(s[1..], t, c, replacement);
      TailConcat(s, t);
      Regroup(if s[0] == c then replacement else [s[0]], Replace(s[1..], c, replacement), Replace(t, c, replacement));
    }
  }

  lemma {:induction false} ReplaceAbsent(s: string, c: char, replacement: string)
    requires c !in s
    ensures Replace(s, c, replacement) == s
  {
    if s != "" {
      ReplaceAbsent(s[1..], c, replacement);
    }
  }

  lemma {:induction false} EscapeChar(c: char)
    ensures Escape([c]) == EncodeChar(c)
  {
    assert [c] == [c] + "";
    ReplaceOne(c, '%', "%25");
    if c == '%' {
      ReplaceAbsent("%25", '\r', "%0D");
      ReplaceAbsent("%25", '\n', "%0A");
    } else {
      ReplaceOne(c, '\r', "%0D");
      if c == '\r' {
        ReplaceAbsent("%0D", '\n', "%0A");
      } else {
        ReplaceOne(c, '\n', "%0A");
      }
    }
  }

  lemma {:induction false} ReplaceOne(c: char, d: char, replacement: string)
    ensures Replace([c], d, replacement) == if c == d then replacement else [c]
  {
    assert [c][1..] == "";
    assert Replace("", d, replacement) == "";
  }

  /** Three replacements one after another are one encoding, character by character. */
  lemma {:induction false} EscapeIsEncode(s: string)
    ensures Escape(s) == Encode(s)
  {
    if s != "" {
      var h, t := [s[0]], s[1..];
      assert s == h + t;
      EscapeIsEncode(t);
      EscapeChar(s[0]);
      ReplaceConcat(h, t, '%', "%25");
      ReplaceConcat(Replace(h, '%', "%25"), Replace(t, '%', "%25"), '\r', "%0D");
      ReplaceConcat(Replace(Replace(h, '%', "%25"), '\r', "%0D"), Replace(Replace(t, '%', "%25"), '\r', "%0D"),
                    '\n', "%0A");
    }
  }

  /** Reading an escaped text back. */
  function Decode(s: string): string {
    if s == "" then ""
    else if s[0] == '%' && |s| >= 3 && s[1] == '2' && s[2] == '5' then "%" + Decode(s[3..])
    else if s[0] == '%' && |s| >= 3 && s[1] == '0' && s[2] == 'D' then "\r" + Decode(s[3..])
    else if s[0] == '%' && |s| >= 3 && s[1] == '0' && s[2] == 'A' then "\n" + Decode(s[3..])
    else [s[0]] + Decode(s[1..])
  }

  lemma {:induction false} DecodeEncode(s: string)
    ensures Decode(Encode(s)) == s
  {
    if s != "" {
      var e, rest := EncodeChar(s[0]), Encode(s[1..]);
      DecodeEncode(s[1..]);
      assert Encode(s) == e + rest;
      assert |e| == 3 ==> (e + rest)[3..] == rest;
      assert |e| == 1 ==> (e + rest)[1..] == rest;
      assert s == [s[0]] + s[1..];
    }
  }

  /** The escape can be undone, so it is injective, and its output is one line. */
  lemma {:induction false} EscapeRoundTrip(s: string)
    ensures Decode(Escape(s)) == s && '\r' !in Escape(s) && '\n' !in Escape(s)
  {
    EscapeIsEncode(s);
    DecodeEncode(s);
    EncodeOneLine(s);
  }

  lemma {:induction false} EncodeOneLine(s: string)
    ensures '\r' !in Encode(s) && '\n' !in Encode(s)
  {
    if s != "" {
      EncodeOneLine(s[1..]);
    }
  }

  lemma {:induction false} EscapeInjective(s: string, t: string)
    requires Escape(s) == Escape(t)
    ensures s == t
  {
    EscapeRoundTrip(s);
    EscapeRoundTrip(t);
  }

  // ---- The annotations ----

  datatype Annotation = NoFindings | Warning(index: nat, of: nat, body: string) | Truncated(more: nat)

  function Warnings(chunks: seq<string>, n: nat): (r: seq<Annotation>)
    requires n <= |chunks|
    ensures |r| == n && forall i :: 0 <= i < n ==> r[i] == Warning(i + 1, |chunks|, Escape(chunks[i]))
  {
    if n == 0 then [] else Warnings(chunks, n - 1) + [Warning(n, |chunks|, Escape(chunks[n - 1]))]
  }

  method EscapeBody(chunk: string) returns (body: string)
    ensures body == Escape(chunk)
  {
    body := Replace(chunk, '%', "%25");
    body := Replace(body, '\r', "%0D");
    body := Replace(body, '\n', "%0A");
  }

  method AddWarnings(head: seq<Annotation>, chunks: seq<string>, shown: nat) returns (out: seq<Annotation>)
    requires shown <= |chunks|
    ensures out == head + Warnings(chunks, shown)
  {
    out := head;
    for i := 0 to shown
      invariant out == head + Warnings(chunks, i)
    {
      var body := EscapeBody(chunks[i]);
      out := out + [Warning(i + 1, |chunks|, body)];
    }
  }

  function Shown(chunks: seq<string>): nat {
    if |chunks| > MAX_ANNOTATIONS then MAX_ANNOTATIONS else |chunks|
  }

  function Annotations(chunks: seq<string>): seq<Annotation> {
    if chunks == [] then [NoFindings]
    else if |chunks| > MAX_ANNOTATIONS then Warnings(chunks, Shown(chunks)) + [Truncated(|chunks| - MAX_ANNOTATIONS)]
    else Warnings(chunks, Shown(chunks))
  }

  lemma {:induction false} AnnotationParts(chunks: seq<string>)
    ensures Annotations(chunks) == (if chunks == [] then [NoFindings] else []) + Warnings(chunks, Shown(chunks))
                                   + if |chunks| > MAX_ANNOTATIONS then [Truncated(|chunks| - MAX_ANNOTATIONS)] else []
  {
    if chunks == [] {
      assert Warnings(chunks, Shown(chunks)) == [];
    }
  }

  method Annotate(lines: seq<Line>) returns (out: seq<Annotation>)
    ensures out == Annotations(Texts(Groups(lines)))
  {
    var chunks := MakeChunks(lines);
    AnnotationParts(chunks);
    out := [];
    if chunks == [] {
      out := [NoFindings];
    }
    out := AddWarnings(out, chunks, Shown(chunks));
    if |chunks| > MAX_ANNOTATIONS {
      out := out + [Truncated(|chunks| - MAX_ANNOTATIONS)];
    }
  }

  /** What a reader of the annotations recovers: their bodies, decoded and in order. */
  function Read(out: seq<Annotation>): string {
    if out == [] then ""
    else Read(out[..|out| - 1]) + if out[|out| - 1].Warning? then Decode(out[|out| - 1].body) else ""
  }

  lemma {:induction false} ReadMore(out: seq<Annotation>, last: Annotation)
    requires last.Warning?
    ensures Read(out + [last]) == Read(out) + Decode(last.body)
  {
    assert (out + [last])[..|out|] == out;
  }

  lemma {:induction false} FlattenMore(chunks: seq<string>, n: nat)
    requires 0 < n <= |chunks|
    ensures Flatten(chunks[..n]) == Flatten(chunks[..n - 1]) + chunks[n - 1]
  {
    assert chunks[..n][..n - 1] == chunks[..n - 1];
  }

  lemma {:induction false} ReadWarnings(chunks: seq<string>, n: nat)
    requires n <= |chunks|
    ensures Read(Warnings(chunks, n)) == Flatten(chunks[..n])
  {
    if n > 0 {
      ReadWarnings(chunks, n - 1);
      ReadMore(Warnings(chunks, n - 1), Warning(n, |chunks|, Escape(chunks[n - 1])));
      EscapeRoundTrip(chunks[n - 1]);
      FlattenMore(chunks, n);
    }
  }

  lemma {:induction false} ReadAnnotations(chunks: seq<string>)
    ensures Read(Annotations(chunks)) == Flatten(chunks[..Shown(chunks)])
  {
    ReadWarnings(chunks, Shown(chunks));
    if |chunks| > MAX_ANNOTATIONS {
      var shown := Warnings(chunks, Shown(chunks));
      assert (shown + [Truncated(|chunks| - MAX_ANNOTATIONS)])[..|shown|] == shown;
    } else if chunks == [] {
      assert Read([NoFindings]) == Read([NoFindings][..0]) + "";
    }
  }

  lemma {:induction false} FlattenGrows(chunks: seq<string>, m: nat, n: nat)
    requires m <= n <= |chunks|
    ensures |Flatten(chunks[..m])| <= |Flatten(chunks[..n])|
    ensures m < n && chunks[m] != "" ==> |Flatten(chunks[..m])| < |Flatten(chunks[..n])|
  {
    if m < n {
      FlattenGrows(chunks, m, n - 1);
      FlattenMore(chunks, n);
    }
  }

  /** Every finding can be read back from the annotations, character by character, exactly when nine chunks suffice. */
  lemma {:induction false} NothingLost(lines: seq<Line>)
    ensures Read(Annotations(Texts(Groups(lines)))) == Text(lines) <==> |Groups(lines)| <= MAX_ANNOTATIONS
  {
    var chunks := Texts(Groups(lines));
    ReadAnnotations(chunks);
    ChunksKeepText(lines);
    assert chunks[..|chunks|] == chunks;
    if |chunks| > MAX_ANNOTATIONS {
      ChunkSizes(lines, MAX_ANNOTATIONS);
      FlattenGrows(chunks, MAX_ANNOTATIONS, |chunks|);
    }
  }

  /** Nine chunks would do, yet findings are lost: exactly when an over-long first line makes ten chunks of nine. */
  lemma {:induction false} SpareChunkLosesText(lines: seq<Line>)
    ensures (exists division :: Division(lines, division) && |division| <= MAX_ANNOTATIONS)
            && Read(Annotations(Texts(Groups(lines)))) != Text(lines)
            <==> Spare(lines) && |Groups(lines)| == MAX_ANNOTATIONS + 1
  {
    NothingLost(lines);
    FewestChunks(lines);
    FilledDivides(lines);
  }

  // ---- What the annotations say ----

  /** How many chunks the annotations show, and how many they say are left out. */
  function ShownIn(out: seq<Annotation>): nat {
    if out == [] then 0 else ShownIn(out[..|out| - 1]) + if out[|out| - 1].Warning? then 1 else 0
  }

  function OmittedIn(out: seq<Annotation>): nat {
    if out == [] then 0 else OmittedIn(out[..|out| - 1]) + if out[|out| - 1].Truncated? then out[|out| - 1].more else 0
  }

  lemma {:induction false} ShownWarnings(chunks: seq<string>, n: nat)
    requires n <= |chunks|
    ensures ShownIn(Warnings(chunks, n)) == n && OmittedIn(Warnings(chunks, n)) == 0
  {
    if n > 0 {
      ShownWarnings(chunks, n - 1);
      OneMoreAnnotation(Warnings(chunks, n - 1), Warning(n, |chunks|, Escape(chunks[n - 1])));
    }
  }

  /** The i-th annotation shows the i-th chunk under its number, and how many chunks there are. */
  predicate Shows(a: Annotation, chunks: seq<string>, i: nat)
    requires i < |chunks|
  {
    a.Warning? && a.index == i + 1 && a.of == |chunks| && Decode(a.body) == chunks[i] && '\n' !in a.body
  }

  lemma {:induction false} AnnotationShows(chunks: seq<string>, i: nat)
    requires i < |chunks| && i < 9
    ensures i < |Annotations(chunks)| && Shows(Annotations(chunks)[i], chunks, i)
  {
    EscapeRoundTrip(chunks[i]);
    assert Annotations(chunks)[i] == Warnings(chunks, Shown(chunks))[i];
  }

  lemma {:induction false} OneMoreAnnotation(out: seq<Annotation>, last: Annotation)
    ensures ShownIn(out + [last]) == ShownIn(out) + if last.Warning? then 1 else 0
    ensures OmittedIn(out + [last]) == OmittedIn(out) + if last.Truncated? then last.more else 0
  {
    assert (out + [last])[..|out|] == out;
  }

  lemma {:induction false} ManyAddUp(chunks: seq<string>)
    requires |chunks| > MAX_ANNOTATIONS
    ensures ShownIn(Annotations(chunks)) == 9 && OmittedIn(Annotations(chunks)) == |chunks| - 9
  {
    ShownWarnings(chunks, MAX_ANNOTATIONS);
    OneMoreAnnotation(Warnings(chunks, MAX_ANNOTATIONS), Truncated(|chunks| - MAX_ANNOTATIONS));
  }

  lemma {:induction false} NoneAddUp()
    ensures ShownIn([NoFindings]) == 0 && OmittedIn([NoFindings]) == 0
  {
    OneMoreAnnotation([], NoFindings);
    assert [] + [NoFindings] == [NoFindings];
  }

  lemma {:induction false} AnnotationsAddUp(chunks: seq<string>)
    ensures ShownIn(Annotations(chunks)) == if |chunks| > 9 then 9 else |chunks|
    ensures OmittedIn(Annotations(chunks)) == if |chunks| > 9 then |chunks| - 9 else 0
  {
    if |chunks| > MAX_ANNOTATIONS {
      ManyAddUp(chunks);
    } else if chunks == [] {
      NoneAddUp();
    } else {
      ShownWarnings(chunks, |chunks|);
    }
  }

  /**
    * Up to nine chunks are shown, in order and each under its number; one more annotation counts the others, so shown
    * and omitted chunks add up. Without chunks the one annotation says so.
    */
  lemma {:induction false} AnnotationsExact(chunks: seq<string>)
    ensures var out := Annotations(chunks);
            && (chunks == [] <==> out == [NoFindings]) && ShownIn(out) + OmittedIn(out) == |chunks|
            && ShownIn(out) == (if |chunks| > 9 then 9 else |chunks|)
            && |out| == (if chunks == [] then 1 else if |chunks| > 9 then 10 else |chunks|)
            && forall i :: 0 <= i < |chunks| && i < 9 ==> Shows(out[i], chunks, i)
  {
    AnnotationsAddUp(chunks);
    forall i | 0 <= i < |chunks| && i < 9 ensures Shows(Annotations(chunks)[i], chunks, i) {
      AnnotationShows(chunks, i);
    }
  }
}
