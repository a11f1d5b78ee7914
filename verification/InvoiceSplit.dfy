/**
 * Dividing an invoice among projects and the general expense
 * (stp-api/src/fiscal-invoices/invoice-split.ts). Every amount is an integer number of cents.
 */
module InvoiceSplit {
  import opened Wrappers

  /** Where a part of an invoice is charged. `General` is the source's `projectId: null`. */
  datatype Destination = General | Project(id: nat)

  datatype SplitLine = SplitLine(destination: Destination, amount: int, note: Option<string>)

  datatype SplitCheck = SplitCheck(ok: bool, sum: int, difference: int)

  // ---------------------------------------------------------------- sums

  function Amounts(lines: seq<SplitLine>): (r: seq<int>)
    ensures |r| == |lines| && forall i :: 0 <= i < |r| ==> r[i] == lines[i].amount
  {
    seq(|lines|, i requires 0 <= i < |lines| => lines[i].amount)
  }

  function Sum(xs: seq<int>): int {
    if xs == [] then 0 else Sum(xs[..|xs| - 1]) + xs[|xs| - 1]
  }

  lemma {:induction false} SumAppend(xs: seq<int>, ys: seq<int>)
    ensures Sum(xs + ys) == Sum(xs) + Sum(ys)
  {
    if ys == [] {
      assert xs + ys == xs;
    } else {
      assert (xs + ys)[..|xs + ys| - 1] == xs + ys[..|ys| - 1];
      SumAppend(xs, ys[..|ys| - 1]);
    }
  }

  /** Changing one entry moves the sum by exactly the change. */
  lemma {:induction false} SumUpdate(xs: seq<int>, i: nat, v: int)
    requires i < |xs|
    ensures Sum(xs[i := v]) == Sum(xs) - xs[i] + v
  {
    var n := |xs| - 1;
    if i == n {
      assert xs[i := v][..n] == xs[..n];
    } else {
      assert xs[i := v][..n] == xs[..n][i := v];
      SumUpdate(xs[..n], i, v);
    }
  }

  function CheckSplit(total: int, amounts: seq<int>): SplitCheck {
    var difference := total - Sum(amounts);
    SplitCheck(difference == 0, Sum(amounts), difference)
  }

  /** What line `index` would have to carry for the split to reach the total. */
  function RemainderFor(total: int, amounts: seq<int>, index: nat): int {
    total - (if index < |amounts| then Sum(amounts[index := 0]) else Sum(amounts))
  }

  /** Putting the remainder on a line makes the split check, and no other amount on that line does. */
  lemma RemainderIsTheOnlyFix(total: int, amounts: seq<int>, index: nat, v: int)
    requires index < |amounts|
    ensures CheckSplit(total, amounts[index := v]).ok <==> v == RemainderFor(total, amounts, index)
  {
    SumUpdate(amounts, index, 0);
    SumUpdate(amounts, index, v);
  }

  /** The difference is what is missing: a split checks when it is zero, and with one more line of it always. */
  lemma DifferenceIsWhatIsMissing(total: int, amounts: seq<int>)
    ensures var check := CheckSplit(total, amounts);
      && check.sum == Sum(amounts) && (check.ok <==> check.difference == 0) && (check.ok <==> Sum(amounts) == total)
      && CheckSplit(total, amounts + [check.difference]).ok
    ensures forall index: nat :: index >= |amounts| ==>
      CheckSplit(total, amounts + [RemainderFor(total, amounts, index)]).ok
  {
    var all := amounts + [total - Sum(amounts)];
    assert all[..|amounts|] == amounts;
  }

  // ---------------------------------------------------------------- merging repeated destinations

  predicate IsSpace(c: char) {
    c == ' ' || '\t' <= c <= '\r' || c == '\U{00A0}' || c == '\U{FEFF}'
  }

  /** The text has nothing to trim at either end. */
  predicate Trimmed(s: string) {
    s == [] || (!IsSpace(s[0]) && !IsSpace(s[|s| - 1]))
  }

  function TrimLeft(s: string): (r: string)
    ensures r == [] || !IsSpace(r[0])
    ensures s != [] && !IsSpace(s[0]) ==> r == s
    ensures s != [] && !IsSpace(s[|s| - 1]) ==> r != [] && r[|r| - 1] == s[|s| - 1]
  {
    if s != [] && IsSpace(s[0]) then TrimLeft(s[1..]) else s
  }

  function TrimRight(s: string): (r: string)
    ensures r == [] || !IsSpace(r[|r| - 1])
    ensures s != [] && !IsSpace(s[|s| - 1]) ==> r == s
    ensures s != [] && !IsSpace(s[0]) ==> r != [] && r[0] == s[0]
  {
    if s != [] && IsSpace(s[|s| - 1]) then TrimRight(s[..|s| - 1]) else s
  }

  function Trim(s: string): (r: string)
    ensures Trimmed(r)
    ensures Trimmed(s) ==> r == s
  {
    TrimRight(TrimLeft(s))
  }

  /** The note as it is kept: trimmed, and absent when nothing is left of it. */
  function CleanNote(note: Option<string>): (r: Option<string>)
    ensures r.Some? ==> r.value != [] && Trimmed(r.value)
  {
    if note.None? || Trim(note.value) == [] then None else Some(Trim(note.value))
  }

  ghost predicate AllSpaces(s: string) {
    forall i :: 0 <= i < |s| ==> IsSpace(s[i])
  }

  lemma {:induction false} LeftIsSpaces(s: string) returns (left: string)
    ensures s == left + TrimLeft(s) && AllSpaces(left)
  {
    left := [];
    if s != [] && IsSpace(s[0]) {
      left := LeftIsSpaces(s[1..]);
      left := [s[0]] + left;
    }
  }

  lemma {:induction false} RightIsSpaces(s: string) returns (right: string)
    ensures s == TrimRight(s) + right && AllSpaces(right)
  {
    right := [];
    if s != [] && IsSpace(s[|s| - 1]) {
      right := RightIsSpaces(s[..|s| - 1]);
      right := right + [s[|s| - 1]];
    }
  }

  /** Only spaces are taken off, and only at the ends; a note is dropped exactly when it has nothing else. */
  lemma NoteWithoutItsSpaces(note: string) returns (left: string, right: string)
    ensures var kept := CleanNote(Some(note));
      && AllSpaces(left) && AllSpaces(right)
      && note == left + (if kept.Some? then kept.value else "") + right
      && (kept.None? <==> AllSpaces(note))
  {
    left := LeftIsSpaces(note);
    right := RightIsSpaces(TrimLeft(note));
    SpacesAround(note, left, Trim(note), right);
  }

  lemma SpacesAround(s: string, left: string, middle: string, right: string)
    requires s == left + (middle + right) && AllSpaces(left) && AllSpaces(right) && Trimmed(middle)
    ensures s == left + middle + right
    ensures middle == [] <==> AllSpaces(s)
  {
    if middle != [] {
      assert s[|left|] == middle[0];
    }
  }

  function Join(notes: seq<string>): string {
    if notes == [] then ""
    else if |notes| == 1 then notes[0]
    else Join(notes[..|notes| - 1]) + "; " + notes[|notes| - 1]
  }

  function JoinedNote(notes: seq<string>): Option<string> {
    if notes == [] then None else Some(Join(notes))
  }

  /** Notes are told one after the other. */
  lemma JoinedReads(notes: seq<string>, last: string)
    ensures JoinedNote([]) == None
    ensures JoinedNote(notes + [last]) == Some(if notes == [] then last else JoinedNote(notes).value + "; " + last)
  {
    assert (notes + [last])[..|notes|] == notes;
  }

  /** The destinations of the lines, each once, in order of first appearance. */
  function Destinations(lines: seq<SplitLine>): seq<Destination> {
    if lines == [] then []
    else
      var before := Destinations(lines[..|lines| - 1]);
      var d := lines[|lines| - 1].destination;
      if d in before then before else before + [d]
  }

  /** What all the lines together send to destination `d`. */
  function AmountTo(lines: seq<SplitLine>, d: Destination): int {
    if lines == [] then 0
    else
      var last := lines[|lines| - 1];
      AmountTo(lines[..|lines| - 1], d) + if last.destination == d then last.amount else 0
  }

  /** The different notes of the lines that go to `d`, in order. */
  function NotesTo(lines: seq<SplitLine>, d: Destination): seq<string> {
    if lines == [] then []
    else
      var before := NotesTo(lines[..|lines| - 1], d);
      var last := lines[|lines| - 1];
      var note := CleanNote(last.note);
      if last.destination == d && note.Some? && note.value !in before then before + [note.value] else before
  }

  /** The note of some line to `d`, without its spaces. */
  ghost predicate NoteOf(lines: seq<SplitLine>, d: Destination, note: string) {
    exists i :: 0 <= i < |lines| && lines[i].destination == d && CleanNote(lines[i].note) == Some(note)
  }

  lemma NoteOfOneMore(lines: seq<SplitLine>, last: SplitLine, d: Destination, note: string)
    ensures NoteOf(lines + [last], d, note) <==>
      NoteOf(lines, d, note) || (last.destination == d && CleanNote(last.note) == Some(note))
  {
    var all := lines + [last];
    if NoteOf(lines, d, note) {
      var i :| 0 <= i < |lines| && lines[i].destination == d && CleanNote(lines[i].note) == Some(note);
      assert all[i] == lines[i];
    }
    assert all[|lines|] == last;
  }

  /** Every different note of the lines to `d` is kept once, and nothing else; a line more only adds at the end. */
  lemma {:induction false} NotesAreThose(lines: seq<SplitLine>, d: Destination, n: nat)
    requires n <= |lines|
    ensures forall note :: note in NotesTo(lines, d) <==> NoteOf(lines, d, note)
    ensures forall i, j :: 0 <= i < j < |NotesTo(lines, d)| ==> NotesTo(lines, d)[i] != NotesTo(lines, d)[j]
    ensures NotesTo(lines[..n], d) <= NotesTo(lines, d)
  {
    if lines == [] {
      assert lines[..n] == lines;
    } else {
      var front := lines[..|lines| - 1];
      NotesAreThose(front, d, if n < |lines| then n else |front|);
      assert lines == front + [lines[|lines| - 1]];
      assert if n < |lines| then front[..n] == lines[..n] else lines[..n] == lines;
      forall note
        ensures note in NotesTo(lines, d) <==> NoteOf(lines, d, note)
      {
        NoteOfOneMore(front, lines[|lines| - 1], d, note);
      }
    }
  }

  function LineTo(lines: seq<SplitLine>, d: Destination): SplitLine {
    SplitLine(d, AmountTo(lines, d), JoinedNote(NotesTo(lines, d)))
  }

  /** The merged split: one line per destination, with all that goes to it. */
  function Merged(lines: seq<SplitLine>): (r: seq<SplitLine>)
    ensures |r| == |Destinations(lines)|
    ensures forall i :: 0 <= i < |r| ==> r[i] == LineTo(lines, Destinations(lines)[i])
  {
    var ds := Destinations(lines);
    seq(|ds|, i requires 0 <= i < |ds| => LineTo(lines, ds[i]))
  }

  datatype Entry = Entry(cents: int, notes: seq<string>)

  /** The insertion-ordered map of entries stands for what the lines read so far send to each destination. */
  ghost predicate Filled(merged: map<Destination, Entry>, order: seq<Destination>, lines: seq<SplitLine>) {
    && order == Destinations(lines)
    && (forall d :: d in merged <==> d in order)
    && (forall d :: d in merged ==> merged[d] == EntryTo(lines, d))
    && (forall d :: d !in merged ==> EntryTo(lines, d) == Entry(0, []))
  }

  function EntryTo(lines: seq<SplitLine>, d: Destination): Entry {
    Entry(AmountTo(lines, d), NotesTo(lines, d))
  }

  /** What one more line does to the entry of its destination. */
  function WithLine(entry: Entry, line: SplitLine): Entry {
    var note := CleanNote(line.note);
    Entry(entry.cents + line.amount,
          if note.Some? && note.value !in entry.notes then entry.notes + [note.value] else entry.notes)
  }

  lemma EntryAfterLine(lines: seq<SplitLine>, line: SplitLine, d: Destination)
    ensures EntryTo(lines + [line], d)
            == if line.destination == d then WithLine(EntryTo(lines, d), line) else EntryTo(lines, d)
  {
    assert (lines + [line])[..|lines|] == lines;
  }

  lemma DestinationsAfterLine(lines: seq<SplitLine>, line: SplitLine)
    ensures var before, d := Destinations(lines), line.destination;
      Destinations(lines + [line]) == if d in before then before else before + [d]
  {
    assert (lines + [line])[..|lines|] == lines;
  }

  lemma FillOneMore(merged: map<Destination, Entry>, order: seq<Destination>, lines: seq<SplitLine>, line: SplitLine)
    requires Filled(merged, order, lines)
    ensures var d := line.destination;
      var entry := if d in merged then merged[d] else Entry(0, []);
      Filled(merged[d := WithLine(entry, line)], if d in merged then order else order + [d], lines + [line])
  {
    var d := line.destination;
    var entry := if d in merged then merged[d] else Entry(0, []);
    var after := merged[d := WithLine(entry, line)];
    DestinationsAfterLine(lines, line);
    forall e
      ensures e in after ==> after[e] == EntryTo(lines + [line], e)
      ensures e !in after ==> EntryTo(lines + [line], e) == Entry(0, [])
    {
      EntryAfterLine(lines, line, e);
    }
  }

  method AddLine(before: Entry, line: SplitLine) returns (entry: Entry)
    ensures entry == WithLine(before, line)
  {
    entry := before.(cents := before.cents + line.amount);
    var note := CleanNote(line.note);
    if note.Some? && note.value !in entry.notes {
      entry := entry.(notes := entry.notes + [note.value]);
    }
  }

  lemma NothingFilled(lines: seq<SplitLine>)
    ensures Filled(map[], [], lines[..0])
  {
    assert lines[..0] == [];
  }

  /** The loop over an insertion-ordered map of entries, keyed by destination. */
  method MergeSplitLines(lines: seq<SplitLine>) returns (r: seq<SplitLine>)
    ensures r == Merged(lines)
  {
    var merged: map<Destination, Entry> := map[];
    var order: seq<Destination> := [];
    NothingFilled(lines);
    for i := 0 to |lines|
      invariant Filled(merged, order, lines[..i])
    {
      var line := lines[i];
      assert lines[..i + 1] == lines[..i] + [line];
      FillOneMore(merged, order, lines[..i], line);
      var entry := if line.destination in merged then merged[line.destination] else Entry(0, []);
      entry := AddLine(entry, line);
      if line.destination !in merged {
        order := order + [line.destination];
      }
      merged := merged[line.destination := entry];
    }
    assert lines[..|lines|] == lines;
    r := LinesFrom(merged, order);
    FilledIsMerged(merged, order, lines);
  }

  function LinesFrom(merged: map<Destination, Entry>, order: seq<Destination>): seq<SplitLine>
    requires forall d :: d in order ==> d in merged
  {
    seq(|order|, i requires 0 <= i < |order| =>
      SplitLine(order[i], merged[order[i]].cents, JoinedNote(merged[order[i]].notes)))
  }

  lemma FilledIsMerged(merged: map<Destination, Entry>, order: seq<Destination>, lines: seq<SplitLine>)
    requires Filled(merged, order, lines)
    ensures LinesFrom(merged, order) == Merged(lines)
  {
    forall i | 0 <= i < |order|
      ensures LinesFrom(merged, order)[i] == LineTo(lines, order[i])
    {
      assert order[i] in order;
    }
  }

  ghost predicate DistinctDestinations(lines: seq<SplitLine>) {
    forall i, j :: 0 <= i < j < |lines| ==> lines[i].destination != lines[j].destination
  }

  ghost predicate CleanNotes(lines: seq<SplitLine>) {
    forall i :: 0 <= i < |lines| ==> CleanNote(lines[i].note) == lines[i].note
  }

  lemma {:induction false} DestinationsAreDistinct(lines: seq<SplitLine>)
    ensures forall i, j :: 0 <= i < j < |Destinations(lines)| ==> Destinations(lines)[i] != Destinations(lines)[j]
    ensures forall d :: d in Destinations(lines) <==> exists i :: 0 <= i < |lines| && lines[i].destination == d
  {
    if lines != [] {
      var front := lines[..|lines| - 1];
      DestinationsAreDistinct(front);
      forall d | d in Destinations(lines)
        ensures exists i :: 0 <= i < |lines| && lines[i].destination == d
      {
        if d in Destinations(front) {
          var i :| 0 <= i < |front| && front[i].destination == d;
          assert lines[i].destination == d;
        } else {
          assert lines[|lines| - 1].destination == d;
        }
      }
      forall i | 0 <= i < |lines|
        ensures lines[i].destination in Destinations(lines)
      {
        if i < |front| {
          assert front[i].destination in Destinations(front);
        }
      }
    }
  }

  /** Destinations keep the order in which they first appear: a line more only adds at the end. */
  lemma {:induction false} DestinationsInOrder(lines: seq<SplitLine>, n: nat)
    requires n <= |lines|
    ensures Destinations(lines[..n]) <= Destinations(lines)
  {
    if n < |lines| {
      var front := lines[..|lines| - 1];
      DestinationsInOrder(front, n);
      assert front[..n] == lines[..n];
    } else {
      assert lines[..n] == lines;
    }
  }

  lemma MergedIsDistinct(lines: seq<SplitLine>)
    ensures DistinctDestinations(Merged(lines))
  {
    DestinationsAreDistinct(lines);
  }

  lemma {:induction false} NothingToStrangers(lines: seq<SplitLine>, d: Destination)
    requires d !in Destinations(lines)
    ensures AmountTo(lines, d) == 0 && NotesTo(lines, d) == []
  {
    if lines != [] {
      NothingToStrangers(lines[..|lines| - 1], d);
    }
  }

  /** What each of these destinations receives, in order. */
  function ShareList(lines: seq<SplitLine>, ds: seq<Destination>): (r: seq<int>)
    ensures |r| == |ds| && forall i :: 0 <= i < |r| ==> r[i] == AmountTo(lines, ds[i])
  {
    seq(|ds|, i requires 0 <= i < |ds| => AmountTo(lines, ds[i]))
  }

  /** Merging neither loses nor invents a cent. */
  lemma {:induction false} MergedKeepsTheSum(lines: seq<SplitLine>)
    ensures Sum(Amounts(Merged(lines))) == Sum(Amounts(lines))
  {
    assert Amounts(Merged(lines)) == ShareList(lines, Destinations(lines));
    SharesAddUp(lines);
  }

  lemma {:induction false} SharesAddUp(lines: seq<SplitLine>)
    ensures Sum(ShareList(lines, Destinations(lines))) == Sum(Amounts(lines))
  {
    if lines != [] {
      var n := |lines| - 1;
      var front, last := lines[..n], lines[n];
      SharesAddUp(front);
      assert Amounts(lines)[..n] == Amounts(front);
      OneMoreLine(front, last);
      assert front + [last] == lines;
    }
  }

  lemma OneMoreLine(front: seq<SplitLine>, last: SplitLine)
    ensures Sum(ShareList(front + [last], Destinations(front + [last]))) ==
      Sum(ShareList(front, Destinations(front))) + last.amount
  {
    var lines := front + [last];
    assert lines[..|lines| - 1] == front;
    var ds := Destinations(front);
    var before, after := ShareList(front, ds), ShareList(lines, Destinations(lines));
    DestinationsAreDistinct(front);
    if last.destination in ds {
      var k :| 0 <= k < |ds| && ds[k] == last.destination;
      assert after == before[k := before[k] + last.amount];
      SumUpdate(before, k, before[k] + last.amount);
    } else {
      NothingToStrangers(front, last.destination);
      assert after[..|before|] == before;
      assert after == before + [last.amount];
    }
  }

  /** Merging leaves a list alone exactly when it has nothing to merge: distinct destinations, clean notes. */
  lemma {:induction false} MergedFixpoint(lines: seq<SplitLine>)
    ensures Merged(lines) == lines <==> DistinctDestinations(lines) && CleanNotes(lines)
  {
    if DistinctDestinations(lines) && CleanNotes(lines) {
      NothingToMerge(lines);
    }
    if Merged(lines) == lines {
      MergedIsDistinct(lines);
      MergedIsClean(lines);
    }
  }

  lemma {:induction false} NothingToMerge(lines: seq<SplitLine>)
    requires DistinctDestinations(lines) && CleanNotes(lines)
    ensures Merged(lines) == lines
  {
    if lines != [] {
      var n := |lines| - 1;
      NothingToMerge(lines[..n]);
      NewDestination(lines[..n], lines[n]);
      assert lines[..n] + [lines[n]] == lines;
    }
  }

  /** A clean line to a destination not seen before is simply added. */
  lemma NewDestination(front: seq<SplitLine>, last: SplitLine)
    requires Merged(front) == front && CleanNote(last.note) == last.note
    requires forall i :: 0 <= i < |front| ==> front[i].destination != last.destination
    ensures Merged(front + [last]) == front + [last]
  {
    var lines := front + [last];
    assert lines[..|lines| - 1] == front;
    DestinationsAreDistinct(front);
    NothingToStrangers(front, last.destination);
    assert Destinations(lines) == Destinations(front) + [last.destination];
    assert Merged(lines)[|front|] == last;
    forall i | 0 <= i < |front|
      ensures Merged(lines)[i] == front[i]
    {
      assert Merged(front)[i] == front[i];
    }
  }

  lemma {:induction false} NotesAreClean(lines: seq<SplitLine>, d: Destination)
    ensures forall i :: 0 <= i < |NotesTo(lines, d)| ==> NotesTo(lines, d)[i] != [] && Trimmed(NotesTo(lines, d)[i])
  {
    if lines != [] {
      NotesAreClean(lines[..|lines| - 1], d);
    }
  }

  lemma {:induction false} JoinIsTrimmed(notes: seq<string>)
    requires notes != []
    requires forall i :: 0 <= i < |notes| ==> notes[i] != [] && Trimmed(notes[i])
    ensures Join(notes) != [] && Trimmed(Join(notes))
  {
    if |notes| > 1 {
      JoinIsTrimmed(notes[..|notes| - 1]);
    }
  }

  lemma {:induction false} MergedIsClean(lines: seq<SplitLine>)
    ensures CleanNotes(Merged(lines))
  {
    forall i | 0 <= i < |Merged(lines)|
      ensures CleanNote(Merged(lines)[i].note) == Merged(lines)[i].note
    {
      var d := Destinations(lines)[i];
      NotesAreClean(lines, d);
      if NotesTo(lines, d) != [] {
        JoinIsTrimmed(NotesTo(lines, d));
      }
    }
  }

  /** Merging twice is merging once, notes included. */
  lemma MergedIsIdempotent(lines: seq<SplitLine>)
    ensures Merged(Merged(lines)) == Merged(lines)
  {
    MergedIsDistinct(lines);
    MergedIsClean(lines);
    MergedFixpoint(Merged(lines));
  }

  // ---------------------------------------------------------------- equal parts

  /** `Math.trunc(n / d)` for a positive divisor: towards zero. */
  function TruncDiv(n: int, d: int): int
    requires d > 0
  {
    if n >= 0 then n / d else -(-n / d)
  }

  function SplitEqually(total: int, parts: int): Result<seq<int>, string> {
    if parts < 1 then Failure("parts must be an integer greater than 0")
    else
      var base := TruncDiv(total, parts);
      var extra := total - base * parts;
      Success(seq(parts, i => base + if i < extra then 1 else 0))
  }

  lemma {:induction false} SumOfSteps(n: nat, base: int, extra: int)
    ensures Sum(seq(n, i => base + if i < extra then 1 else 0)) ==
            n * base + if extra <= 0 then 0 else if extra <= n then extra else n
  {
    var xs := seq(n, i => base + if i < extra then 1 else 0);
    if n > 0 {
      SumOfSteps(n - 1, base, extra);
      assert xs[..n - 1] == seq(n - 1, i => base + if i < extra then 1 else 0);
      assert (n - 1) * base + base == n * base;
    }
  }

  lemma TruncDivBounds(n: int, d: int)
    requires d > 0
    ensures n >= 0 ==> 0 <= n - TruncDiv(n, d) * d < d
    ensures n < 0 ==> -d < n - TruncDiv(n, d) * d <= 0
    ensures n - TruncDiv(n, d) * d == 0 <==> n % d == 0
  {
    if n >= 0 {
      assert n == (n / d) * d + n % d;
    } else {
      var m := -n;
      assert m == (m / d) * d + m % d;
      assert TruncDiv(n, d) * d == -((m / d) * d);
      if m % d == 0 {
        assert n == (-(m / d)) * d;
        MultipleHasNoRest(-(m / d), d);
      } else {
        assert n == (-(m / d) - 1) * d + (d - m % d);
        RestIsUnique(n, -(m / d) - 1, d - m % d, d);
      }
    }
  }

  lemma MulStep(a: int, b: int, d: int)
    requires d > 0
    ensures a < b ==> a * d + d <= b * d
  {
    if a < b {
      var more := b - a - 1;
      assert more * d >= 0;
      assert b * d == (a + 1 + more) * d == a * d + d + more * d;
    }
  }

  lemma SameQuotient(q: int, r: int, q': int, r': int, d: int)
    requires 0 <= r < d && 0 <= r' < d && q * d + r == q' * d + r'
    ensures q == q' && r == r'
  {
    MulStep(q, q', d);
    MulStep(q', q, d);
  }

  lemma RestIsUnique(n: int, q: int, r: int, d: int)
    requires d > 0 && 0 <= r < d && n == q * d + r
    ensures n % d == r && n / d == q
  {
    SameQuotient(q, r, n / d, n % d, d);
  }

  lemma MultipleHasNoRest(q: int, d: int)
    requires d > 0
    ensures (q * d) % d == 0
  {
    RestIsUnique(q * d, q, 0, d);
  }

  /**
   * Equal parts differ by at most one cent, the larger ones first, and add up to the total exactly
   * when the total is not negative or divides evenly: a negative total that does not divide loses
   * its loose cents, because the quotient is truncated towards zero.
   */
  lemma EqualParts(total: int, parts: int)
    requires parts >= 1
    ensures var r := SplitEqually(total, parts);
      && r.Success? && |r.value| == parts
      && (forall i, j :: 0 <= i < j < parts ==> r.value[j] <= r.value[i] <= r.value[j] + 1)
      && (Sum(r.value) == total <==> total >= 0 || total % parts == 0)
  {
    TruncDivBounds(total, parts);
    var base := TruncDiv(total, parts);
    SumOfSteps(parts, base, total - base * parts);
  }

  /** Minus five cents in two parts come to minus four. */
  lemma NegativePartsLoseACent()
    ensures SplitEqually(-5, 2) == Success([-2, -2]) && Sum([-2, -2]) == -4
  {
    assert TruncDiv(-5, 2) == -2;
    assert SplitEqually(-5, 2).value == [-2, -2];
    assert [-2, -2][..1] == [-2];
  }

  // ---------------------------------------------------------------- percentages

  /** `Math.round(n / d)`: to the nearest integer, halves upwards. */
  function RoundDiv(n: int, d: int): (r: int)
    requires d > 0
    ensures 2 * n - d < 2 * (r * d) <= 2 * n + d
  {
    var r := (2 * n + d) / (2 * d);
    assert 2 * n + d == r * (2 * d) + (2 * n + d) % (2 * d);
    assert r * (2 * d) == 2 * (r * d);
    r
  }

  /** 100 %, in basis points. */
  const WHOLE := 10000

  /** Every share rounded to the cent on its own. */
  function RoundedShares(total: int, basisPoints: seq<int>): (r: seq<int>)
    ensures |r| == |basisPoints|
    ensures forall i :: 0 <= i < |r| ==> r[i] == RoundDiv(total * basisPoints[i], WHOLE)
  {
    seq(|basisPoints|, i requires 0 <= i < |basisPoints| => RoundDiv(total * basisPoints[i], WHOLE))
  }

  /** Each share is off by at most half a cent, so `i` of them by at most i/2. */
  lemma {:induction false} DriftBound(total: int, basisPoints: seq<int>, i: nat)
    requires i <= |basisPoints|
    ensures var drift := WHOLE * Sum(RoundedShares(total, basisPoints)[..i]) - total * Sum(basisPoints[..i]);
      -(i * WHOLE) <= 2 * drift <= i * WHOLE
  {
    if i > 0 {
      var shares := RoundedShares(total, basisPoints);
      DriftBound(total, basisPoints, i - 1);
      assert shares[..i][..i - 1] == shares[..i - 1] && basisPoints[..i][..i - 1] == basisPoints[..i - 1];
      Distribute(total, Sum(basisPoints[..i - 1]), basisPoints[i - 1]);
    }
  }

  lemma Distribute(t: int, a: int, b: int)
    ensures t * (a + b) == t * a + t * b
  {
  }

  predicate ValidPercents(basisPoints: seq<int>) {
    basisPoints != [] && (forall i :: 0 <= i < |basisPoints| ==> basisPoints[i] >= 0) && Sum(basisPoints) == WHOLE
  }

  /** The rounded shares, with what they leave on the last line. */
  function PercentShares(total: int, basisPoints: seq<int>): seq<int>
    requires basisPoints != []
  {
    var n := |basisPoints| - 1;
    var shares := RoundedShares(total, basisPoints);
    shares[..n] + [total - Sum(shares[..n])]
  }

  /**
   * The parts add up to the total, every part but the last is within half a cent of its exact share,
   * and the last within half a cent for each of the others.
   */
  lemma PercentParts(total: int, basisPoints: seq<int>)
    requires ValidPercents(basisPoints)
    ensures var r := PercentShares(total, basisPoints);
      var n := |basisPoints| - 1;
      && |r| == n + 1 && Sum(r) == total
      && (forall i :: 0 <= i < n ==> -WHOLE < 2 * (WHOLE * r[i] - total * basisPoints[i]) <= WHOLE)
      && -(n * WHOLE) <= 2 * (WHOLE * r[n] - total * basisPoints[n]) <= n * WHOLE
  {
    var n := |basisPoints| - 1;
    var r := PercentShares(total, basisPoints);
    assert r[..n] == RoundedShares(total, basisPoints)[..n];
    DriftBound(total, basisPoints, n);
    LastError(total, Sum(RoundedShares(total, basisPoints)[..n]), Sum(basisPoints[..n]), basisPoints[n], n * WHOLE);
  }

  lemma LastError(total: int, head: int, headPoints: int, lastPoints: int, bound: int)
    requires headPoints + lastPoints == WHOLE
    requires -bound <= 2 * (WHOLE * head - total * headPoints) <= bound
    ensures -bound <= 2 * (WHOLE * (total - head) - total * lastPoints) <= bound
  {
    Distribute(total, headPoints, lastPoints);
  }

  /** Shares of a total by percentage; the last cell of the rounded shares is overwritten. */
  method SplitByPercent(total: int, basisPoints: seq<int>) returns (r: Result<seq<int>, string>)
    ensures r.Success? <==> ValidPercents(basisPoints)
    ensures r.Success? ==> r.value == PercentShares(total, basisPoints)
  {
    if basisPoints == [] {
      return Failure("at least one percentage is needed");
    }
    if exists i :: 0 <= i < |basisPoints| && basisPoints[i] < 0 {
      return Failure("percentages cannot be negative");
    }
    if Sum(basisPoints) != WHOLE {
      return Failure("percentages must add up to 100%");
    }
    var n := |basisPoints| - 1;
    var shares := RoundedShares(total, basisPoints);
    var cents := new int[|shares|](i requires 0 <= i < |shares| => shares[i]);
    assert cents[..] == shares;
    cents[n] := total - Sum(cents[..n]);
    assert cents[..] == PercentShares(total, basisPoints);
    r := Success(cents[..]);
  }

  // ---------------------------------------------------------------- when the last part is negative

  /** What rounding the share to the cent adds to it, in ten-thousandths of a cent: up from a half, down below. */
  function Excess(total: int, points: int): int {
    var rest := (total * points) % WHOLE;
    if 2 * rest >= WHOLE then WHOLE - rest else -rest
  }

  function Excesses(total: int, basisPoints: seq<int>): (r: seq<int>)
    ensures |r| == |basisPoints| && forall i :: 0 <= i < |r| ==> r[i] == Excess(total, basisPoints[i])
  {
    seq(|basisPoints|, i requires 0 <= i < |basisPoints| => Excess(total, basisPoints[i]))
  }

  lemma ExcessOfRounding(x: int)
    ensures WHOLE * RoundDiv(x, WHOLE) - x == if 2 * (x % WHOLE) >= WHOLE then WHOLE - x % WHOLE else -(x % WHOLE)
  {
  }

  lemma {:induction false} ExcessesAddUp(total: int, basisPoints: seq<int>, i: nat)
    requires i <= |basisPoints|
    ensures Sum(Excesses(total, basisPoints)[..i])
            == WHOLE * Sum(RoundedShares(total, basisPoints)[..i]) - total * Sum(basisPoints[..i])
  {
    if i > 0 {
      var shares, excesses := RoundedShares(total, basisPoints), Excesses(total, basisPoints);
      ExcessesAddUp(total, basisPoints, i - 1);
      assert shares[..i][..i - 1] == shares[..i - 1] && basisPoints[..i][..i - 1] == basisPoints[..i - 1];
      assert excesses[..i][..i - 1] == excesses[..i - 1];
      Distribute(total, Sum(basisPoints[..i - 1]), basisPoints[i - 1]);
      ExcessOfRounding(total * basisPoints[i - 1]);
    }
  }

  /** The last part is not negative exactly when what the others gained by rounding fits in its exact share. */
  lemma LastShareIsNegativeExactlyWhen(total: int, basisPoints: seq<int>)
    requires ValidPercents(basisPoints)
    ensures var n := |basisPoints| - 1;
      PercentShares(total, basisPoints)[n] >= 0 <==> Sum(Excesses(total, basisPoints)[..n]) <= total * basisPoints[n]
  {
    var n := |basisPoints| - 1;
    ExcessesAddUp(total, basisPoints, n);
    RestFits(total, Sum(RoundedShares(total, basisPoints)[..n]), Sum(basisPoints[..n]), basisPoints[n]);
  }

  lemma RestFits(total: int, head: int, headPoints: int, lastPoints: int)
    requires headPoints + lastPoints == WHOLE
    ensures total - head >= 0 <==> WHOLE * head - total * headPoints <= total * lastPoints
  {
    Distribute(total, headPoints, lastPoints);
  }

  /** So it never is between two lines, nor when it is worth half a cent for each of the others. */
  lemma LastShareIsEnough(total: nat, basisPoints: seq<int>)
    requires ValidPercents(basisPoints)
    requires var n := |basisPoints| - 1;
      n <= 1 || 2 * (total * basisPoints[n]) >= n * WHOLE
    ensures PercentShares(total, basisPoints)[|basisPoints| - 1] >= 0
  {
    var n := |basisPoints| - 1;
    PercentParts(total, basisPoints);
    if n == 1 {
      var r := PercentShares(total, basisPoints);
      assert basisPoints[..n] == [basisPoints[0]] && Sum([basisPoints[0]]) == basisPoints[0];
      assert Sum(r[..n]) == r[0] by {
        assert r[..n] == [r[0]];
      }
      ShareOfPart(total, basisPoints[0]);
      assert r[0] == RoundDiv(total * basisPoints[0], WHOLE);
    }
  }

  lemma ShareOfPart(total: nat, points: int)
    requires points <= WHOLE
    ensures RoundDiv(total * points, WHOLE) <= total
  {
    assert total * points <= total * WHOLE by {
      MulMonotone(total, points, WHOLE);
    }
  }

  lemma MulMonotone(t: nat, a: int, b: int)
    requires a <= b
    ensures t * a <= t * b
  {
  }

  /** One cent at 50, 50 and 0 per cent: two halves rounded up leave minus one for a line that was to get nothing. */
  lemma LastShareCanBeNegative()
    ensures ValidPercents([5000, 5000, 0]) && PercentShares(1, [5000, 5000, 0]) == [1, 1, -1]
  {
    var points := [5000, 5000, 0];
    assert points[..2] == [5000, 5000] && [5000, 5000][..1] == [5000];
    assert Sum(points) == Sum([5000, 5000]) == WHOLE;
    assert RoundedShares(1, points)[..2] == [1, 1] && [1, 1][..1] == [1];
    assert Sum([1, 1]) == 2;
  }
}
