// What the import of a time stamp log makes of its rows.
module PhaseRows {
  import opened PhaseLog

  // ----- words in a message -----

  // The same letter, the first one in either case.
  predicate SameLetter(c: char, low: char) { c == low || ('A' <= c <= 'Z' && c + ' ' == low) }

  // The word stands at position i, in lower or upper case. Words are in lower case.
  predicate SaysAt(msg: string, i: nat, word: string) {
    i + |word| <= |msg| && forall k :: 0 <= k < |word| ==> SameLetter(msg[i + k], word[k])
  }

  ghost predicate Says(msg: string, word: string) { exists i: nat :: SaysAt(msg, i, word) }

  ghost predicate SaysStart(msg: string) { Says(msg, "start") }

  // A message with both words counts as a start.
  ghost predicate SaysEnd(msg: string) { !Says(msg, "start") && Says(msg, "end") }

  predicate LowerCase(word: string) { forall k :: 0 <= k < |word| ==> 'a' <= word[k] <= 'z' }

  lemma LowerSays(msg: string, i: nat, word: string)
    requires LowerCase(word)
    ensures SaysAt(msg, i, word) <==> i <= |msg| && word <= Lower(msg)[i..]
  {
    if i + |word| <= |msg| {
      var low := Lower(msg);
      forall k | 0 <= k < |word|
        ensures low[i + k] == word[k] <==> SameLetter(msg[i + k], word[k])
      {
      }
      assert forall k :: 0 <= k < |word| ==> low[i..][k] == low[i + k];
    }
  }

  lemma {:induction false} ContainsIff(s: string, word: string)
    ensures Contains(s, word) <==> exists i: nat :: i <= |s| && word <= s[i..]
  {
    assert s[0..] == s;
    if word <= s {
    } else if s != "" {
      ContainsIff(s[1..], word);
      if i: nat :| i <= |s[1..]| && word <= s[1..][i..] {
        assert s[1..][i..] == s[i + 1..];
      }
      if i: nat :| i <= |s| && word <= s[i..] {
        if i > 0 { assert s[1..][i - 1..] == s[i..]; }
      }
    }
  }

  lemma SaysIff(msg: string, word: string)
    requires LowerCase(word)
    ensures Says(msg, word) <==> Contains(Lower(msg), word)
  {
    ContainsIff(Lower(msg), word);
    if i: nat :| SaysAt(msg, i, word) { LowerSays(msg, i, word); }
    if i: nat :| i <= |Lower(msg)| && word <= Lower(msg)[i..] { LowerSays(msg, i, word); }
  }

  // The kind of a line is what its message says.
  lemma KindSays(msg: string)
    ensures KindOf(msg) == Start <==> SaysStart(msg)
    ensures KindOf(msg) == End <==> SaysEnd(msg)
  {
    SaysIff(msg, "start");
    SaysIff(msg, "end");
  }

  // ----- rows -----

  // Rows without a time stamp or a second field are skipped.
  predicate Counts(row: Row) { row.ts.Some? && |row.parts| >= 2 }

  // Missing fields and a dash stand for no phase, as does an empty one.
  predicate HasPhase(row: Row) { Counts(row) && |row.parts| >= 3 && row.parts[2] != "-" && row.parts[2] != "" }

  predicate RowOfPhase(row: Row, p: string) { HasPhase(row) && row.parts[2] == p }

  predicate Plain(row: Row) { Counts(row) && !HasPhase(row) }

  function Message(row: Row): string { if |row.parts| >= 4 then row.parts[3] else "" }

  // The event shows the row: its time stamp and message, and its hardware without the mark.
  predicate Shows(line: Line, row: Row) {
    Counts(row) && line.ts == row.ts.value && line.msg == Message(row) && line.kind == KindOf(Message(row))
    && match line.hw
       case None => row.parts[1] == "-"
       case Some(hw) => row.parts[1] != "-" && row.parts[1] == if "HW:" <= row.parts[1] then "HW:" + hw else hw
  }

  lemma ParsedRow(row: Row)
    ensures Parse(row).Some? <==> Counts(row)
    ensures Counts(row) ==> Shows(Parse(row).value, row)
    ensures Counts(row) ==> (Phased(Parse(row).value) <==> HasPhase(row))
    ensures Counts(row) ==> forall p :: OfPhase(Parse(row).value, p) <==> RowOfPhase(row, p)
  {
  }

  // ----- the rows of one phase -----

  predicate Increasing(at: seq<nat>) { forall i, j :: 0 <= i < j < |at| ==> at[i] < at[j] }

  lemma Appended(at: seq<nat>, n: nat)
    ensures forall k :: k in at + [n] <==> k in at || k == n
  {
    assert (at + [n])[|at|] == n;
  }

  // The places of the rows of a phase.
  function PhaseRows(rows: seq<Row>, p: string): (at: seq<nat>)
    ensures Increasing(at)
    ensures forall i :: 0 <= i < |at| ==> at[i] < |rows| && RowOfPhase(rows[at[i]], p)
    ensures forall k: nat :: k < |rows| && RowOfPhase(rows[k], p) ==> k in at
  {
    if rows == [] then []
    else
      var n := |rows| - 1;
      var before := PhaseRows(rows[..n], p);
      assert forall k: nat :: k < n ==> rows[..n][k] == rows[k];
      if RowOfPhase(rows[n], p) then
        Appended(before, n);
        before + [n]
      else before
  }

  // The places of the rows that belong to no phase.
  function PlainRows(rows: seq<Row>): (at: seq<nat>)
    ensures Increasing(at)
    ensures forall i :: 0 <= i < |at| ==> at[i] < |rows| && Plain(rows[at[i]])
    ensures forall k: nat :: k < |rows| && Plain(rows[k]) ==> k in at
  {
    if rows == [] then []
    else
      var n := |rows| - 1;
      var before := PlainRows(rows[..n]);
      assert forall k: nat :: k < n ==> rows[..n][k] == rows[k];
      if Plain(rows[n]) then
        Appended(before, n);
        before + [n]
      else before
  }

  // The events show the rows at these places, one each.
  predicate ShowAll(events: seq<Line>, rows: seq<Row>, at: seq<nat>) {
    |events| == |at| && forall k :: 0 <= k < |at| ==> at[k] < |rows| && Shows(events[k], rows[at[k]])
  }

  lemma ShowMore(events: seq<Line>, rows: seq<Row>, at: seq<nat>, row: Row)
    requires ShowAll(events, rows, at)
    ensures ShowAll(events, rows + [row], at)
    ensures Counts(row) ==> ShowAll(events + [Parse(row).value], rows + [row], at + [|rows|])
  {
    ParsedRow(row);
  }

  lemma {:induction false} PhaseLinesShowRows(rows: seq<Row>, p: string)
    ensures ShowAll(Only(Lines(rows), p), rows, PhaseRows(rows, p))
  {
    if rows != [] {
      var front, row := rows[..|rows| - 1], rows[|rows| - 1];
      assert rows == front + [row];
      PhaseLinesShowRows(front, p);
      ShowMore(Only(Lines(front), p), front, PhaseRows(front, p), row);
      ParsedRow(row);
      if Counts(row) { OnlySnoc(Lines(front), Parse(row).value, p); }
    }
  }

  lemma OnlySnoc(lines: seq<Line>, line: Line, p: string)
    ensures Only(lines + [line], p) == if OfPhase(line, p) then Only(lines, p) + [line] else Only(lines, p)
    ensures Unphased(lines + [line]) == if Phased(line) then Unphased(lines) else Unphased(lines) + [line]
  {
    assert (lines + [line])[..|lines|] == lines;
  }

  lemma {:induction false} PlainLinesShowRows(rows: seq<Row>)
    ensures ShowAll(Unphased(Lines(rows)), rows, PlainRows(rows))
  {
    if rows != [] {
      var front, row := rows[..|rows| - 1], rows[|rows| - 1];
      assert rows == front + [row];
      PlainLinesShowRows(front);
      ShowMore(Unphased(Lines(front)), front, PlainRows(front), row);
      ParsedRow(row);
      if Counts(row) { OnlySnoc(Lines(front), Parse(row).value, ""); }
    }
  }

  // ----- the documents of a phase -----

  // The first event says start, none of the others does, and only the last may say end, which then
  // finishes the document.
  ghost predicate CutByWords(doc: Doc)
    requires doc.events != []
  {
    var events := doc.events;
    && SaysStart(events[0].msg)
    && (forall k :: 0 < k < |events| ==> !SaysStart(events[k].msg))
    && (forall k :: 0 < k < |events| - 1 ==> !SaysEnd(events[k].msg))
    && doc.finishedAt == (if SaysEnd(events[|events| - 1].msg) then Some(events[|events| - 1].ts) else None)
  }

  // The rows at places own[from], own[from + 1], ... make up this document. An unfinished document
  // goes on up to the next start or the end of the log.
  ghost predicate DocOfRows(rows: seq<Row>, own: seq<nat>, doc: Doc, p: string, occ: nat, from: nat)
    requires forall k :: 0 <= k < |own| ==> own[k] < |rows|
  {
    var events, to := doc.events, from + |doc.events|;
    && doc.phase == p && doc.occurrence == occ
    && events != [] && to <= |own| && ShowAll(events, rows, own[from..to])
    && doc.startedAt == events[0].ts && CutByWords(doc)
    && (doc.finishedAt.None? && to < |own| ==> SaysStart(Message(rows[own[to]])))
  }

  // The documents of a phase after the import: numbered from 0, each made of a stretch of the
  // phase's rows, in order and without overlap, and one for every row that says start.
  ghost predicate PhaseImported(rows: seq<Row>, docs: map<Key, Doc>, p: string, starts: seq<nat>) {
    var own := PhaseRows(rows, p);
    && (forall i: nat :: (p, i) in docs <==> i < |starts|)
    && (forall i: nat :: i < |starts| ==> DocOfRows(rows, own, docs[(p, i)], p, i, starts[i]))
    && (forall i: nat, j: nat :: i < j < |starts| ==> starts[i] + |docs[(p, i)].events| <= starts[j])
    && (forall k: nat :: k < |own| && SaysStart(Message(rows[own[k]])) ==> k in starts)
  }

  // The kind of the event is what its message says.
  ghost predicate SaysItsKind(event: Line) {
    (event.kind == Start <==> SaysStart(event.msg)) && (event.kind == End <==> SaysEnd(event.msg))
  }

  ghost predicate InWords(events: seq<Line>) { forall k :: 0 <= k < |events| ==> SaysItsKind(events[k]) }

  lemma ShownInWords(events: seq<Line>, rows: seq<Row>, at: seq<nat>)
    requires ShowAll(events, rows, at)
    ensures InWords(events)
  {
    forall k | 0 <= k < |events| ensures SaysItsKind(events[k]) {
      assert Shows(events[k], rows[at[k]]);
      KindSays(events[k].msg);
    }
  }

  lemma ShowStretch(lines: seq<Line>, rows: seq<Row>, own: seq<nat>, from: nat, to: nat)
    requires ShowAll(lines, rows, own) && from <= to <= |lines|
    ensures ShowAll(lines[from..to], rows, own[from..to])
  {
    forall k | 0 <= k < to - from ensures Shows(lines[from..to][k], rows[own[from..to][k]]) {
      assert lines[from..to][k] == lines[from + k] && own[from..to][k] == own[from + k];
    }
  }

  lemma WellCutByWords(doc: Doc)
    requires doc.events != [] && WellCut(doc) && InWords(doc.events)
    ensures CutByWords(doc)
  {
  }

  lemma DocAtIsOfRows(rows: seq<Row>, own: seq<nat>, lines: seq<Line>, doc: Doc, p: string, occ: nat, from: nat)
    requires ShowAll(lines, rows, own) && DocAt(lines, doc, p, from, occ)
    ensures DocOfRows(rows, own, doc, p, occ, from)
  {
    var to := from + |doc.events|;
    ShowStretch(lines, rows, own, from, to);
    ShownInWords(doc.events, rows, own[from..to]);
    WellCutByWords(doc);
    if to < |own| {
      assert Shows(lines[to], rows[own[to]]);
      KindSays(Message(rows[own[to]]));
    }
  }

  // What the import makes of the rows of a phase, in the words of their messages.
  lemma PhaseRowsAreImported(rows: seq<Row>, p: string) returns (starts: seq<nat>)
    requires p != "" && (p == GENERAL ==> PlainRows(rows) == [])
    ensures PhaseImported(rows, Run(Lines(rows)).docs, p, starts)
  {
    var lines, own, docs := Only(Lines(rows), p), PhaseRows(rows, p), Run(Lines(rows)).docs;
    PhaseLinesShowRows(rows, p);
    PlainLinesShowRows(rows);
    PhaseDocsAreStretches(Lines(rows), p);
    starts := SegmentStarts(lines, 0);
    forall i: nat | i < |starts| ensures DocOfRows(rows, own, docs[(p, i)], p, i, starts[i]) {
      DocAtIsOfRows(rows, own, lines, docs[(p, i)], p, i, starts[i]);
    }
    forall k: nat | k < |own| && SaysStart(Message(rows[own[k]])) ensures k in starts {
      assert Shows(lines[k], rows[own[k]]);
      KindSays(Message(rows[own[k]]));
      EveryStartBeginsADoc(lines, 0, k);
    }
  }

  // Some row starts a phase named "general".
  ghost predicate GeneralStarts(rows: seq<Row>) {
    exists k: nat :: k < |rows| && RowOfPhase(rows[k], GENERAL) && SaysStart(Message(rows[k]))
  }

  // The general document shows exactly the rows without a phase, and is there if one is.
  ghost predicate PlainRowsAreGeneral(rows: seq<Row>, docs: map<Key, Doc>) {
    var plain := PlainRows(rows);
    && (GENERAL_KEY in docs <==> plain != [])
    && (GENERAL_KEY in docs ==>
          var doc := docs[GENERAL_KEY];
          doc.events != [] && ShowAll(doc.events, rows, plain)
          && doc == Doc(GENERAL, 0, doc.events[0].ts, None, doc.events))
  }

  lemma GeneralStartsInRows(rows: seq<Row>)
    ensures StartsGeneral(Lines(rows)) <==> GeneralStarts(rows)
  {
    var lines, own := Only(Lines(rows), GENERAL), PhaseRows(rows, GENERAL);
    PhaseLinesShowRows(rows, GENERAL);
    OnlyHolds(Lines(rows), GENERAL);
    if StartsGeneral(Lines(rows)) {
      var k :| 0 <= k < |Lines(rows)| && OfPhase(Lines(rows)[k], GENERAL) && Lines(rows)[k].kind == Start;
      assert Lines(rows)[k] in lines;
      var i :| 0 <= i < |lines| && lines[i] == Lines(rows)[k];
      KindSays(Message(rows[own[i]]));
    }
    if k: nat :| k < |rows| && RowOfPhase(rows[k], GENERAL) && SaysStart(Message(rows[k])) {
      assert k in own;
      var i :| 0 <= i < |own| && own[i] == k;
      KindSays(Message(rows[k]));
      assert lines[i] in lines && lines[i].kind == Start;
    }
  }

  lemma {:induction false} OnlyHolds(lines: seq<Line>, p: string)
    ensures forall x :: x in Only(lines, p) <==> x in lines && OfPhase(x, p)
  {
    if lines != [] {
      OnlyHolds(lines[..|lines| - 1], p);
      assert lines == lines[..|lines| - 1] + [lines[|lines| - 1]];
    }
  }

  // Unless a row starts a phase named "general", the rows without a phase make up that document.
  lemma PlainRowsAreImported(rows: seq<Row>)
    ensures !GeneralStarts(rows) ==> PlainRowsAreGeneral(rows, Run(Lines(rows)).docs)
    ensures GeneralStarts(rows) ==> !GeneralIsUnphased(Lines(rows))
  {
    GeneralStartsInRows(rows);
    GeneralDocIffNameIsFree(Lines(rows));
    PlainLinesShowRows(rows);
  }
}
