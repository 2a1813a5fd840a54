// Importing the time stamp log of a job.
module PhaseLog {

  // Interleaved phases are cut into one document per phase occurrence. The one-pass state machine
  // is proved against a splitter that looks at one phase at a time.

  datatype Option<T> = None | Some(value: T)

  // ----- lines -----

  // A row after cutting at commas and stripping; `ts` is absent when the first field is no integer.
  datatype Row = Row(ts: Option<int>, parts: seq<string>)

  datatype Kind = Start | End | Other

  // An event with its phase, and what its message says.
  datatype Line = Line(ts: int, hw: Option<string>, phase: Option<string>, msg: string, kind: Kind)

  function Lower(s: string): string {
    seq(|s|, i requires 0 <= i < |s| => if 'A' <= s[i] <= 'Z' then s[i] + ('a' - 'A') else s[i])
  }

  predicate Contains(s: string, word: string) {
    word <= s || (s != "" && Contains(s[1..], word))
  }

  // A message with both words counts as a start.
  function KindOf(msg: string): Kind {
    if Contains(Lower(msg), "start") then Start
    else if Contains(Lower(msg), "end") then End
    else Other
  }

  function Field(parts: seq<string>, i: nat, default: string): string {
    if i < |parts| then parts[i] else default
  }

  function Dashed(s: string): Option<string> { if s == "-" then None else Some(s) }

  // None for the rows that are skipped.
  function Parse(row: Row): Option<Line> {
    if |row.parts| < 2 || row.ts.None? then None
    else
      var hw := Dashed(row.parts[1]);
      var stripped := if hw.Some? && "HW:" <= hw.value then Some(hw.value[3..]) else hw;
      var msg := Field(row.parts, 3, "");
      Some(Line(row.ts.value, stripped, Dashed(Field(row.parts, 2, "-")), msg, KindOf(msg)))
  }

  // An empty phase name counts as none.
  predicate Phased(line: Line) { line.phase.Some? && line.phase.value != "" }

  predicate OfPhase(line: Line, p: string) { Phased(line) && line.phase.value == p }

  // ----- documents and the importer's dictionaries -----

  datatype Doc = Doc(phase: string, occurrence: nat, startedAt: int, finishedAt: Option<int>, events: seq<Line>)

  type Key = (string, nat)

  const GENERAL := "general"
  const GENERAL_KEY: Key := (GENERAL, 0)

  datatype State = State(counter: map<string, nat>, active: map<string, nat>, docs: map<Key, Doc>, order: seq<Key>)

  const EMPTY := State(map[], map[], map[], [])

  function Count(s: State, p: string): nat { if p in s.counter then s.counter[p] else 0 }

  function Put(s: State, key: Key, doc: Doc): State {
    s.(docs := s.docs[key := doc], order := if key in s.docs then s.order else s.order + [key])
  }

  function Append(doc: Doc, line: Line): Doc { doc.(events := doc.events + [line]) }

  // `active` only names documents that exist.
  predicate ActiveExist(s: State) {
    forall p :: p in s.active ==> (p, s.active[p]) in s.docs
  }

  function Step(s: State, line: Line): (t: State)
    requires ActiveExist(s)
    ensures ActiveExist(t)
  {
    if Phased(line) then
      var p := line.phase.value;
      match line.kind
      case Start =>
        var occ := Count(s, p);
        Put(s, (p, occ), Doc(p, occ, line.ts, None, [line])).(
          counter := s.counter[p := occ + 1], active := s.active[p := occ])
      case End =>
        if p in s.active then
          var key := (p, s.active[p]);
          Put(s, key, Append(s.docs[key], line).(finishedAt := Some(line.ts))).(active := s.active - {p})
        else s
      case Other =>
        if p in s.active then Put(s, (p, s.active[p]), Append(s.docs[(p, s.active[p])], line)) else s
    else
      var doc := if GENERAL_KEY in s.docs then s.docs[GENERAL_KEY] else Doc(GENERAL, 0, line.ts, None, []);
      Put(s, GENERAL_KEY, Append(doc, line))
  }

  function Run(lines: seq<Line>): (s: State)
    ensures ActiveExist(s)
  {
    if lines == [] then EMPTY else Step(Run(lines[..|lines| - 1]), lines[|lines| - 1])
  }

  function Lines(rows: seq<Row>): seq<Line> {
    if rows == [] then []
    else
      var before := Lines(rows[..|rows| - 1]);
      match Parse(rows[|rows| - 1])
      case None => before
      case Some(line) => before + [line]
  }

  // ----- the import loop -----

  class Importer {
    var counter: map<string, nat>
    var active: map<string, nat>
    var docs: map<Key, Doc>
    var order: seq<Key>

    ghost function Value(): State
      reads this
    {
      State(counter, active, docs, order)
    }

    constructor ()
      ensures Value() == EMPTY
    {
      counter, active, docs, order := map[], map[], map[], [];
    }

    method Store(key: Key, doc: Doc)
      modifies this`docs, this`order
      ensures Value() == Put(old(Value()), key, doc)
    {
      if key !in docs { order := order + [key]; }
      docs := docs[key := doc];
    }

    method Take(line: Line)
      requires ActiveExist(Value())
      modifies this
      ensures Value() == Step(old(Value()), line)
    {
      if Phased(line) {
        var p := line.phase.value;
        if line.kind == Start {
          var occ := if p in counter then counter[p] else 0;
          counter := counter[p := occ + 1];
          active := active[p := occ];
          Store((p, occ), Doc(p, occ, line.ts, None, [line]));
        } else if line.kind == End {
          if p in active {
            var key := (p, active[p]);
            var doc := docs[key].(finishedAt := Some(line.ts), events := docs[key].events + [line]);
            Store(key, doc);
            active := active - {p};
          }
        } else if p in active {
          var key := (p, active[p]);
          Store(key, docs[key].(events := docs[key].events + [line]));
        }
      } else {
        if GENERAL_KEY !in docs { Store(GENERAL_KEY, Doc(GENERAL, 0, line.ts, None, [])); }
        Store(GENERAL_KEY, docs[GENERAL_KEY].(events := docs[GENERAL_KEY].events + [line]));
      }
    }

    // The rows after the header.
    method ImportLog(rows: seq<Row>)
      requires Value() == EMPTY
      modifies this
      ensures Value() == Run(Lines(rows))
    {
      for i := 0 to |rows|
        invariant Value() == Run(Lines(rows[..i]))
      {
        assert rows[..i + 1][..i] == rows[..i];
        var line := Parse(rows[i]);
        if line.Some? {
          ghost var all := Lines(rows[..i]) + [line.value];
          assert all[..|all| - 1] == Lines(rows[..i]);
          Take(line.value);
        }
      }
      assert rows[..|rows|] == rows;
    }
  }

  // ----- the reference: one phase at a time -----

  function Only(lines: seq<Line>, p: string): seq<Line> {
    if lines == [] then []
    else
      var before := Only(lines[..|lines| - 1], p);
      if OfPhase(lines[|lines| - 1], p) then before + [lines[|lines| - 1]] else before
  }

  // The first line from i on that starts or ends something.
  function NextMark(lines: seq<Line>, i: nat): (k: nat)
    requires i <= |lines|
    ensures i <= k <= |lines| && (forall j :: i <= j < k ==> lines[j].kind == Other)
    ensures k < |lines| ==> lines[k].kind != Other
    decreases |lines| - i
  {
    if i < |lines| && lines[i].kind == Other then NextMark(lines, i + 1) else i
  }

  // Where the segment opened by a start line ends: behind the first end line, or before the next
  // start line.
  function SegmentEnd(lines: seq<Line>, from: nat): (e: nat)
    requires from < |lines|
    ensures from < e <= |lines|
  {
    var k := NextMark(lines, from + 1);
    if k < |lines| && lines[k].kind == End then k + 1 else k
  }

  function SegmentDoc(lines: seq<Line>, from: nat, p: string, occ: nat): Doc
    requires from < |lines|
  {
    var e := SegmentEnd(lines, from);
    Doc(p, occ, lines[from].ts,
      if e - 1 > from && lines[e - 1].kind == End then Some(lines[e - 1].ts) else None, lines[from..e])
  }

  // The documents of a log with a single phase, from line `from` on.
  function Segments(lines: seq<Line>, from: nat, p: string, occ: nat): seq<Doc>
    requires from <= |lines|
    decreases |lines| - from
  {
    if from == |lines| then []
    else if lines[from].kind == Start then
      [SegmentDoc(lines, from, p, occ)] + Segments(lines, SegmentEnd(lines, from), p, occ + 1)
    else Segments(lines, from + 1, p, occ)
  }

  // ----- the splitter taken one line at a time -----

  predicate Open(docs: seq<Doc>) {
    docs != [] && docs[|docs| - 1].finishedAt.None?
  }

  function Grow(docs: seq<Doc>, line: Line, p: string, occ: nat): seq<Doc> {
    match line.kind
    case Start => docs + [Doc(p, occ + |docs|, line.ts, None, [line])]
    case End =>
      if Open(docs) then docs[|docs| - 1 := Append(docs[|docs| - 1], line).(finishedAt := Some(line.ts))] else docs
    case Other =>
      if Open(docs) then docs[|docs| - 1 := Append(docs[|docs| - 1], line)] else docs
  }

  lemma {:induction false} NextMarkSnoc(lines: seq<Line>, line: Line, i: nat)
    requires i <= |lines|
    ensures NextMark(lines + [line], i)
         == if NextMark(lines, i) < |lines| || line.kind != Other then NextMark(lines, i) else |lines| + 1
    decreases |lines| - i
  {
    var all := lines + [line];
    if i < |lines| {
      assert all[i] == lines[i];
      if lines[i].kind == Other { NextMarkSnoc(lines, line, i + 1); }
    } else {
      assert all[i] == line;
    }
  }

  // What one more line does to the segment at `from`.
  lemma SegmentSnoc(lines: seq<Line>, line: Line, from: nat, p: string, occ: nat)
    requires from < |lines|
    ensures var e, all := SegmentEnd(lines, from), lines + [line];
      var doc, more := SegmentDoc(lines, from, p, occ), SegmentDoc(all, from, p, occ);
      if e < |lines| || doc.finishedAt.Some? || line.kind == Start then
        SegmentEnd(all, from) == e && more == doc
      else
        SegmentEnd(all, from) == e + 1
        && more == (if line.kind == End then Append(doc, line).(finishedAt := Some(line.ts)) else Append(doc, line))
  {
    var e, all := SegmentEnd(lines, from), lines + [line];
    NextMarkSnoc(lines, line, from + 1);
    assert all[from..e] == lines[from..e];
    if e == |lines| {
      assert all[from..e + 1] == lines[from..e] + [line];
    }
  }

  lemma {:induction false} SegmentsSnoc(lines: seq<Line>, line: Line, from: nat, p: string, occ: nat)
    requires from <= |lines|
    ensures Segments(lines + [line], from, p, occ) == Grow(Segments(lines, from, p, occ), line, p, occ)
    decreases |lines| - from
  {
    if from == |lines| {
      LastLineAlone(lines, line, p, occ);
    } else if lines[from].kind != Start {
      SegmentsSnoc(lines, line, from + 1, p, occ);
      assert (lines + [line])[from] == lines[from];
    } else if SegmentEnd(lines, from) < |lines| {
      SegmentsSnoc(lines, line, SegmentEnd(lines, from), p, occ + 1);
      SnocBehindFirst(lines, line, from, p, occ);
    } else {
      SnocOntoFirst(lines, line, from, p, occ);
    }
  }

  // The segment at `from` ends before the new line comes.
  lemma SnocBehindFirst(lines: seq<Line>, line: Line, from: nat, p: string, occ: nat)
    requires from < |lines| && lines[from].kind == Start && SegmentEnd(lines, from) < |lines|
    requires var e := SegmentEnd(lines, from);
      Segments(lines + [line], e, p, occ + 1) == Grow(Segments(lines, e, p, occ + 1), line, p, occ + 1)
    ensures Segments(lines + [line], from, p, occ) == Grow(Segments(lines, from, p, occ), line, p, occ)
  {
    SegmentSnoc(lines, line, from, p, occ);
    LaterDocsExist(lines, from, p, occ);
    assert (lines + [line])[from] == lines[from];
    GrowBehind(SegmentDoc(lines, from, p, occ), Segments(lines, SegmentEnd(lines, from), p, occ + 1), line, p, occ);
  }

  // The segment at `from` reaches the end.
  lemma SnocOntoFirst(lines: seq<Line>, line: Line, from: nat, p: string, occ: nat)
    requires from < |lines| && lines[from].kind == Start && SegmentEnd(lines, from) == |lines|
    ensures Segments(lines + [line], from, p, occ) == Grow(Segments(lines, from, p, occ), line, p, occ)
  {
    SegmentSnoc(lines, line, from, p, occ);
    LastLineAlone(lines, line, p, occ + 1);
    assert (lines + [line])[from] == lines[from];
    assert Segments(lines, |lines|, p, occ + 1) == [];
    assert Segments(lines, from, p, occ) == [SegmentDoc(lines, from, p, occ)];
  }

  lemma LastLineAlone(lines: seq<Line>, line: Line, p: string, occ: nat)
    ensures Segments(lines + [line], |lines|, p, occ)
         == if line.kind == Start then [Doc(p, occ, line.ts, None, [line])] else []
    ensures Segments(lines + [line], |lines| + 1, p, occ) == []
  {
    var all := lines + [line];
    assert all[|lines|] == line && all[|lines|..|all|] == [line];
  }

  lemma GrowBehind(doc: Doc, later: seq<Doc>, line: Line, p: string, occ: nat)
    requires doc.finishedAt.None? ==> later != []
    ensures [doc] + Grow(later, line, p, occ + 1) == Grow([doc] + later, line, p, occ)
  {
    if later == [] { assert [doc] + later == [doc]; }
  }

  // An unfinished segment that stops early is followed by a start line, hence by a document.
  lemma LaterDocsExist(lines: seq<Line>, from: nat, p: string, occ: nat)
    requires from < |lines| && SegmentEnd(lines, from) < |lines|
    ensures SegmentDoc(lines, from, p, occ).finishedAt.None? ==>
      Segments(lines, SegmentEnd(lines, from), p, occ + 1) != []
  {
  }

  // ----- the importer restricted to one phase -----

  ghost predicate Matches(s: State, p: string, docs: seq<Doc>) {
    && Count(s, p) == |docs|
    && (forall i: nat :: (p, i) in s.docs <==> i < |docs|)
    && (forall i: nat :: i < |docs| ==> s.docs[(p, i)] == docs[i])
    && (p in s.active <==> Open(docs))
    && (p in s.active ==> s.active[p] == |docs| - 1)
  }

  // A line of another phase, or of none, leaves this phase's documents alone.
  lemma OtherLineKeeps(s: State, line: Line, p: string, docs: seq<Doc>)
    requires ActiveExist(s) && Matches(s, p, docs) && (p == GENERAL ==> Phased(line)) && p != "" && !OfPhase(line, p)
    ensures Matches(Step(s, line), p, docs)
  {
    var t := Step(s, line);
    forall i: nat ensures (p, i) in t.docs <==> (p, i) in s.docs
      ensures (p, i) in s.docs ==> t.docs[(p, i)] == s.docs[(p, i)]
    {
    }
  }

  lemma OwnLineGrows(s: State, line: Line, p: string, docs: seq<Doc>)
    requires ActiveExist(s) && Matches(s, p, docs) && OfPhase(line, p)
    ensures Matches(Step(s, line), p, Grow(docs, line, p, 0))
  {
    var t, grown := Step(s, line), Grow(docs, line, p, 0);
    var last: nat := if line.kind == Start then |docs| else if docs == [] then 0 else |docs| - 1;
    forall i: nat | i != last
      ensures (p, i) in t.docs <==> (p, i) in s.docs
      ensures (p, i) in s.docs ==> t.docs[(p, i)] == s.docs[(p, i)]
    {
    }
    forall i: nat ensures (p, i) in t.docs <==> i < |grown| {}
    forall i: nat | i < |grown| ensures t.docs[(p, i)] == grown[i] {}
  }

  function Unphased(lines: seq<Line>): (r: seq<Line>)
    ensures forall x :: x in r ==> !Phased(x)
  {
    if lines == [] then []
    else
      var before := Unphased(lines[..|lines| - 1]);
      if Phased(lines[|lines| - 1]) then before else before + [lines[|lines| - 1]]
  }

  // The name of the document for events without a phase is free for a phase if there are none.
  predicate NameIsFree(lines: seq<Line>, p: string) {
    p != "" && (p == GENERAL ==> Unphased(lines) == [])
  }

  // For every phase whose name is free: its documents in the interleaved log are those of the log
  // filtered to that phase.
  lemma {:induction false} DocsOfPhaseAreSegments(lines: seq<Line>, p: string)
    requires NameIsFree(lines, p)
    ensures Matches(Run(lines), p, Segments(Only(lines, p), 0, p, 0))
    decreases |lines|
  {
    if lines != [] {
      var before, line := lines[..|lines| - 1], lines[|lines| - 1];
      DocsOfPhaseAreSegments(before, p);
      if OfPhase(line, p) {
        OwnLineGrows(Run(before), line, p, Segments(Only(before, p), 0, p, 0));
        SegmentsSnoc(Only(before, p), line, 0, p, 0);
      } else {
        OtherLineKeeps(Run(before), line, p, Segments(Only(before, p), 0, p, 0));
      }
    }
  }

  // Interleaving other phases changes nothing: two logs with the same lines of a phase give the
  // same documents for it.
  lemma PhasesAreIndependent(a: seq<Line>, b: seq<Line>, p: string, i: nat)
    requires NameIsFree(a, p) && NameIsFree(b, p) && Only(a, p) == Only(b, p)
    ensures (p, i) in Run(a).docs <==> (p, i) in Run(b).docs
    ensures (p, i) in Run(a).docs ==> Run(a).docs[(p, i)] == Run(b).docs[(p, i)]
  {
    DocsOfPhaseAreSegments(a, p);
    DocsOfPhaseAreSegments(b, p);
  }

  // ----- what the segments are -----

  // Where the segments begin.
  function SegmentStarts(lines: seq<Line>, from: nat): seq<nat>
    requires from <= |lines|
    decreases |lines| - from
  {
    if from == |lines| then []
    else if lines[from].kind == Start then [from] + SegmentStarts(lines, SegmentEnd(lines, from))
    else SegmentStarts(lines, from + 1)
  }

  // The document covers exactly the lines from `at` on, and is properly cut. An unfinished one
  // goes on up to the next start line or the last line.
  predicate DocAt(lines: seq<Line>, doc: Doc, p: string, at: nat, occ: nat) {
    var to := at + |doc.events|;
    doc.phase == p && doc.occurrence == occ && doc.events != []
    && to <= |lines| && doc.events == lines[at..to]
    && doc.startedAt == doc.events[0].ts && WellCut(doc)
    && (doc.finishedAt.None? && to < |lines| ==> lines[to].kind == Start)
  }

  // Starts at a start line, has no other, and ends at its first end line if it has one; it is
  // finished exactly in that case.
  predicate WellCut(doc: Doc)
    requires doc.events != []
  {
    var last := doc.events[|doc.events| - 1];
    doc.events[0].kind == Start
    && (forall k :: 0 < k < |doc.events| - 1 ==> doc.events[k].kind == Other)
    && (|doc.events| > 1 ==> last.kind != Start)
    && (doc.finishedAt.Some? <==> last.kind == End)
    && (doc.finishedAt.Some? ==> doc.finishedAt.value == last.ts)
  }

  lemma SegmentIsWellCut(lines: seq<Line>, from: nat, p: string, occ: nat)
    requires from < |lines| && lines[from].kind == Start
    ensures DocAt(lines, SegmentDoc(lines, from, p, occ), p, from, occ)
  {
    var doc, e := SegmentDoc(lines, from, p, occ), SegmentEnd(lines, from);
    assert forall k :: 0 <= k < |doc.events| ==> doc.events[k] == lines[from + k];
  }

  lemma {:induction false} OneStartPerSegment(lines: seq<Line>, from: nat, p: string, occ: nat)
    requires from <= |lines|
    ensures |Segments(lines, from, p, occ)| == |SegmentStarts(lines, from)|
    decreases |lines| - from
  {
    if from < |lines| {
      if lines[from].kind == Start { OneStartPerSegment(lines, SegmentEnd(lines, from), p, occ + 1); }
      else { OneStartPerSegment(lines, from + 1, p, occ); }
    }
  }

  // Segment i has occurrence number i and is the stretch of lines beginning at start i.
  lemma {:induction false} SegmentIsStretch(lines: seq<Line>, from: nat, p: string, occ: nat, i: nat)
    requires from <= |lines| && i < |Segments(lines, from, p, occ)|
    ensures i < |SegmentStarts(lines, from)| && from <= SegmentStarts(lines, from)[i]
    ensures DocAt(lines, Segments(lines, from, p, occ)[i], p, SegmentStarts(lines, from)[i], occ + i)
    decreases |lines| - from
  {
    OneStartPerSegment(lines, from, p, occ);
    if lines[from].kind == Start {
      if i == 0 {
        SegmentIsWellCut(lines, from, p, occ);
      } else {
        SegmentIsStretch(lines, SegmentEnd(lines, from), p, occ + 1, i - 1);
      }
    } else {
      SegmentIsStretch(lines, from + 1, p, occ, i);
    }
  }

  // A stretch ends before the next one begins.
  lemma {:induction false} StretchesInOrder(lines: seq<Line>, from: nat, p: string, occ: nat, i: nat, j: nat)
    requires from <= |lines| && i < j < |Segments(lines, from, p, occ)|
    ensures j < |SegmentStarts(lines, from)|
    ensures SegmentStarts(lines, from)[i] + |Segments(lines, from, p, occ)[i].events|
         <= SegmentStarts(lines, from)[j]
    decreases |lines| - from
  {
    OneStartPerSegment(lines, from, p, occ);
    if lines[from].kind == Start {
      if i == 0 {
        SegmentIsStretch(lines, SegmentEnd(lines, from), p, occ + 1, j - 1);
      } else {
        StretchesInOrder(lines, SegmentEnd(lines, from), p, occ + 1, i - 1, j - 1);
      }
    } else {
      StretchesInOrder(lines, from + 1, p, occ, i, j);
    }
  }

  lemma {:induction false} EveryStartBeginsADoc(lines: seq<Line>, from: nat, k: nat)
    requires from <= k < |lines| && lines[k].kind == Start
    ensures k in SegmentStarts(lines, from)
    decreases |lines| - from
  {
    if lines[from].kind == Start {
      if k > from { EveryStartBeginsADoc(lines, SegmentEnd(lines, from), k); }
    } else {
      EveryStartBeginsADoc(lines, from + 1, k);
    }
  }

  // All of it for the documents the importer leaves behind for one phase: occurrences are dense
  // from 0, each document is a properly cut stretch of the phase's lines, stretches are disjoint
  // and in order, and every start line begins one.
  lemma PhaseDocsAreStretches(lines: seq<Line>, p: string)
    requires NameIsFree(lines, p)
    ensures var own, at := Only(lines, p), SegmentStarts(Only(lines, p), 0);
      (forall i: nat :: (p, i) in Run(lines).docs <==> i < |at|)
      && (forall i: nat :: i < |at| ==> DocAt(own, Run(lines).docs[(p, i)], p, at[i], i))
      && (forall i: nat, j: nat :: i < j < |at| ==> at[i] + |Run(lines).docs[(p, i)].events| <= at[j])
      && (forall k :: 0 <= k < |own| && own[k].kind == Start ==> k in at)
  {
    var own := Only(lines, p);
    var docs := Segments(own, 0, p, 0);
    DocsOfPhaseAreSegments(lines, p);
    var at := SegmentStarts(own, 0);
    OneStartPerSegment(own, 0, p, 0);
    forall i: nat | i < |docs| ensures DocAt(own, Run(lines).docs[(p, i)], p, at[i], i) {
      SegmentIsStretch(own, 0, p, 0, i);
    }
    forall i: nat, j: nat | i < j < |docs| ensures at[i] + |Run(lines).docs[(p, i)].events| <= at[j] {
      StretchesInOrder(own, 0, p, 0, i, j);
    }
    forall k | 0 <= k < |own| && own[k].kind == Start ensures k in SegmentStarts(own, 0) {
      EveryStartBeginsADoc(own, 0, k);
    }
  }

  // ----- events without a phase -----

  ghost predicate StartsGeneral(lines: seq<Line>) {
    exists k :: 0 <= k < |lines| && OfPhase(lines[k], GENERAL) && lines[k].kind == Start
  }

  // The general document holds exactly the events without a phase, in order, from the first on.
  ghost predicate GeneralIsUnphased(lines: seq<Line>) {
    var s, plain := Run(lines), Unphased(lines);
    (GENERAL_KEY in s.docs <==> plain != [])
    && (GENERAL_KEY in s.docs ==> s.docs[GENERAL_KEY] == Doc(GENERAL, 0, plain[0].ts, None, plain))
  }

  // Once a phase of that name has started, the general document is that phase's.
  ghost predicate GeneralIsTaken(s: State) {
    Count(s, GENERAL) >= 1 && GENERAL_KEY in s.docs
    && s.docs[GENERAL_KEY].events != [] && Phased(s.docs[GENERAL_KEY].events[0])
  }

  lemma {:induction false} GeneralInvariant(lines: seq<Line>)
    ensures StartsGeneral(lines) ==> GeneralIsTaken(Run(lines))
    ensures !StartsGeneral(lines) ==>
      GeneralIsUnphased(lines) && GENERAL !in Run(lines).active && Count(Run(lines), GENERAL) == 0
    decreases |lines|
  {
    if lines != [] {
      var before, line := lines[..|lines| - 1], lines[|lines| - 1];
      GeneralInvariant(before);
      assert lines == before + [line];
      assert StartsGeneral(lines)
        <==> StartsGeneral(before) || (OfPhase(line, GENERAL) && line.kind == Start) by {
        if StartsGeneral(before) {
          var k :| 0 <= k < |before| && OfPhase(before[k], GENERAL) && before[k].kind == Start;
          assert lines[k] == before[k];
        }
        if OfPhase(line, GENERAL) && line.kind == Start { assert lines[|lines| - 1] == line; }
        if StartsGeneral(lines) && !(OfPhase(line, GENERAL) && line.kind == Start) {
          var k :| 0 <= k < |lines| && OfPhase(lines[k], GENERAL) && lines[k].kind == Start;
          assert before[k] == lines[k];
        }
      }
      GeneralStep(Run(before), line);
    }
  }

  lemma GeneralStep(s: State, line: Line)
    requires ActiveExist(s)
    ensures var t := Step(s, line);
      (GeneralIsTaken(s) ==> GeneralIsTaken(t))
      && (Count(s, GENERAL) == 0 && OfPhase(line, GENERAL) && line.kind == Start ==> GeneralIsTaken(t))
      && (GENERAL !in s.active && Count(s, GENERAL) == 0 && !(OfPhase(line, GENERAL) && line.kind == Start) ==>
            GENERAL !in t.active && Count(t, GENERAL) == 0
            && (if Phased(line) then GENERAL_KEY in t.docs <==> GENERAL_KEY in s.docs else GENERAL_KEY in t.docs)
            && (GENERAL_KEY in s.docs && Phased(line) ==> t.docs[GENERAL_KEY] == s.docs[GENERAL_KEY])
            && (!Phased(line) ==>
                  t.docs[GENERAL_KEY]
                  == if GENERAL_KEY in s.docs then Append(s.docs[GENERAL_KEY], line)
                     else Doc(GENERAL, 0, line.ts, None, [line])))
  {
  }

  // Every unphased event lands in the general document, and nothing else does, exactly when no
  // phase named "general" is started.
  lemma GeneralDocIffNameIsFree(lines: seq<Line>)
    ensures GeneralIsUnphased(lines) <==> !StartsGeneral(lines)
  {
    GeneralInvariant(lines);
    if StartsGeneral(lines) {
      var events := Run(lines).docs[GENERAL_KEY].events;
      assert events[0] in events;
      assert events[0] !in Unphased(lines);
    }
  }

  // ----- the order of the documents -----

  ghost predicate ListsDocs(order: seq<Key>, docs: map<Key, Doc>) {
    (forall key :: key in order <==> key in docs)
    && forall i, j :: 0 <= i < j < |order| ==> order[i] != order[j]
  }

  // A step puts at most one document.
  ghost predicate PutsOne(s: State, t: State, key: Key) {
    && t.docs.Keys == s.docs.Keys + {key}
    && t.order == if key in s.docs then s.order else s.order + [key]
  }

  lemma StepPutsOne(s: State, line: Line)
    requires ActiveExist(s)
    ensures (Step(s, line).docs == s.docs && Step(s, line).order == s.order)
         || exists key :: PutsOne(s, Step(s, line), key)
  {
    var t := Step(s, line);
    if !Phased(line) {
      assert PutsOne(s, t, GENERAL_KEY);
    } else if line.kind == Start {
      assert PutsOne(s, t, (line.phase.value, Count(s, line.phase.value)));
    } else if line.phase.value in s.active {
      assert PutsOne(s, t, (line.phase.value, s.active[line.phase.value]));
    }
  }

  lemma PutLists(s: State, t: State, key: Key)
    requires ListsDocs(s.order, s.docs) && PutsOne(s, t, key)
    ensures ListsDocs(t.order, t.docs) && s.order <= t.order
  {
    assert forall k :: k in t.docs <==> k in t.docs.Keys;
  }

  lemma StepLists(s: State, line: Line)
    requires ActiveExist(s) && ListsDocs(s.order, s.docs)
    ensures ListsDocs(Step(s, line).order, Step(s, line).docs) && s.order <= Step(s, line).order
  {
    StepPutsOne(s, line);
    if key :| PutsOne(s, Step(s, line), key) { PutLists(s, Step(s, line), key); }
  }

  // Every document is listed once, and the last line adds its document behind all others.
  lemma {:induction false} DocsInOrderOfCreation(lines: seq<Line>)
    ensures ListsDocs(Run(lines).order, Run(lines).docs)
    ensures lines != [] ==> Run(lines[..|lines| - 1]).order <= Run(lines).order
  {
    if lines != [] {
      DocsInOrderOfCreation(lines[..|lines| - 1]);
      StepLists(Run(lines[..|lines| - 1]), lines[|lines| - 1]);
    }
  }
}
