/**
 * Taking the first balanced JSON object out of what a model answered (`extractJsonObject` of
 * stp-api/src/fiscal-invoices/invoice-scan.ts), once code fences are stripped.
 */
module JsonExtract {
  import opened Wrappers

  // ---------------------------------------------------------------- the scanner

  function Plus(n: nat, r: Option<nat>): Option<nat> {
    if r.Some? then Some(n + r.value) else None
  }

  /** Where the braces balance reading `t` from `i` on, if they do: one past the closing brace. */
  function ScanFrom(t: string, i: nat, depth: nat, inString: bool): (r: Option<nat>)
    ensures r.Some? ==> i < r.value <= |t|
    decreases |t| - i
  {
    if i >= |t| then None
    else if inString then
      if t[i] == '\\' then ScanFrom(t, i + 2, depth, true) else ScanFrom(t, i + 1, depth, t[i] != '"')
    else if t[i] == '"' then ScanFrom(t, i + 1, depth, true)
    else if t[i] == '{' then ScanFrom(t, i + 1, depth + 1, false)
    else if t[i] == '}' && depth <= 1 then Some(i + 1)
    else ScanFrom(t, i + 1, if t[i] == '}' then depth - 1 else depth, false)
  }

  /**
   * The same over what is left to read: how many characters of `t` are read until the braces balance, starting at
   * `depth`, in or out of a string.
   */
  function Scan(t: string, depth: nat, inString: bool): (r: Option<nat>)
    ensures r.Some? ==> r.value <= |t|
  {
    if t == [] then None
    else if inString then
      if t[0] == '\\' then if |t| == 1 then None else Plus(2, Scan(t[2..], depth, true))
      else Plus(1, Scan(t[1..], depth, t[0] != '"'))
    else if t[0] == '"' then Plus(1, Scan(t[1..], depth, true))
    else if t[0] == '{' then Plus(1, Scan(t[1..], depth + 1, false))
    else if t[0] == '}' && depth <= 1 then Some(1)
    else Plus(1, Scan(t[1..], if t[0] == '}' then depth - 1 else depth, false))
  }

  lemma {:induction false} FromIsScan(t: string, i: nat, depth: nat, inString: bool)
    requires i <= |t|
    ensures ScanFrom(t, i, depth, inString) == Plus(i, Scan(t[i..], depth, inString))
    decreases |t| - i
  {
    if i < |t| {
      var more := t[i..];
      assert more[1..] == t[i + 1..];
      if inString && t[i] == '\\' {
        if i + 2 <= |t| {
          assert more[2..] == t[i + 2..];
          FromIsScan(t, i + 2, depth, true);
        }
      } else if inString {
        FromIsScan(t, i + 1, depth, t[i] != '"');
      } else if t[i] == '"' {
        FromIsScan(t, i + 1, depth, true);
      } else if t[i] == '{' {
        FromIsScan(t, i + 1, depth + 1, false);
      } else if !(t[i] == '}' && depth <= 1) {
        FromIsScan(t, i + 1, if t[i] == '}' then depth - 1 else depth, false);
      }
    }
  }

  function FirstBrace(t: string): Option<nat> {
    if t == [] then None else if t[0] == '{' then Some(0) else Plus(1, FirstBrace(t[1..]))
  }

  lemma {:induction false} FirstBraceFinds(t: string)
    ensures FirstBrace(t).None? <==> '{' !in t
    ensures FirstBrace(t).Some? ==>
      FirstBrace(t).value < |t| && t[FirstBrace(t).value] == '{' && '{' !in t[..FirstBrace(t).value]
  {
    if t != [] && t[0] != '{' {
      FirstBraceFinds(t[1..]);
      assert t == [t[0]] + t[1..];
      if FirstBrace(t).Some? {
        var k := FirstBrace(t[1..]).value;
        assert t[..k + 1] == [t[0]] + t[1..][..k];
      }
    }
  }

  function Extract(cleaned: string): string {
    var start := FirstBrace(cleaned);
    if start.None? || start.value >= |cleaned| then cleaned
    else
      var end := ScanFrom(cleaned, start.value, 0, false);
      if end.Some? then cleaned[start.value..end.value] else cleaned[start.value..]
  }

  method ExtractJsonObject(cleaned: string) returns (r: string)
    ensures r == Extract(cleaned)
  {
    FirstBraceFinds(cleaned);
    var start := IndexOfBrace(cleaned);
    if start == |cleaned| {
      return cleaned;
    }
    var depth: nat, inString := 0, false;
    var i := start;
    while i < |cleaned|
      invariant start <= i && (depth == 0 ==> i == start && !inString)
      invariant ScanFrom(cleaned, start, 0, false) == ScanFrom(cleaned, i, depth, inString)
    {
      var ch := cleaned[i];
      if inString {
        if ch == '\\' {
          i := i + 1;
        } else if ch == '"' {
          inString := false;
        }
      } else if ch == '"' {
        inString := true;
      } else if ch == '{' {
        depth := depth + 1;
      } else if ch == '}' {
        depth := depth - 1;
        if depth == 0 {
          return cleaned[start..i + 1];
        }
      }
      i := i + 1;
    }
    return cleaned[start..];
  }

  /** `indexOf('{')`, with the length for -1. */
  method IndexOfBrace(t: string) returns (k: nat)
    ensures k <= |t| && (k == |t| <==> FirstBrace(t).None?) && (k < |t| ==> FirstBrace(t) == Some(k))
  {
    k := 0;
    assert t[0..] == t;
    while k < |t| && t[k] != '{'
      invariant k <= |t| && FirstBrace(t) == Plus(k, FirstBrace(t[k..]))
    {
      assert t[k..][1..] == t[k + 1..];
      k := k + 1;
    }
  }

  // ---------------------------------------------------------------- JSON texts

  /**
   * One character of a string, or a backslash and the character after it (`\uXXXX` is an escape and four characters).
   */
  datatype Unit = Char(c: char) | Escape(c: char)

  /**
   * JSON texts of sections 2 to 7 of RFC 8259, with the white space they were written with. `Bare` stands for numbers
   * and for true, false and null: any text without quotes or braces will do.
   */
  datatype Json =
    | Bare(text: string)
    | Str(units: seq<Unit>)
    | Arr(items: seq<Element>, space: string)
    | Obj(members: seq<Member>, space: string)

  datatype Element = Element(before: string, value: Json, after: string)

  datatype Member = Member(before: string, name: seq<Unit>, colon: string, element: Element)

  predicate Spaces(s: string) {
    forall i :: 0 <= i < |s| ==> s[i] in {' ', '\t', '\n', '\r'}
  }

  predicate NoMarks(s: string) {
    forall i :: 0 <= i < |s| ==> s[i] != '"' && s[i] != '{' && s[i] != '}'
  }

  predicate ValidUnits(units: seq<Unit>) {
    forall i :: 0 <= i < |units| ==> units[i].Char? ==> units[i].c != '"' && units[i].c != '\\'
  }

  predicate Valid(v: Json) {
    match v
    case Bare(text) => NoMarks(text)
    case Str(units) => ValidUnits(units)
    case Arr(items, space) => Spaces(space) && forall i :: 0 <= i < |items| ==> ValidElement(items[i])
    case Obj(members, space) => Spaces(space) && forall i :: 0 <= i < |members| ==> ValidMember(members[i])
  }

  predicate ValidElement(e: Element) {
    Spaces(e.before) && Valid(e.value) && Spaces(e.after)
  }

  predicate ValidMember(m: Member) {
    Spaces(m.before) && ValidUnits(m.name) && Spaces(m.colon) && ValidElement(m.element)
  }

  // ---------------------------------------------------------------- printing

  function PrintUnits(units: seq<Unit>): string {
    if units == [] then ""
    else (match units[0] case Char(c) => [c] case Escape(c) => ['\\', c]) + PrintUnits(units[1..])
  }

  function PrintString(units: seq<Unit>): string {
    "\"" + PrintUnits(units) + "\""
  }

  function Print(v: Json): string {
    match v
    case Bare(text) => text
    case Str(units) => PrintString(units)
    case Arr(items, space) => "[" + (if items == [] then space else PrintItems(items)) + "]"
    case Obj(members, space) => "{" + (if members == [] then space else PrintMembers(members)) + "}"
  }

  function PrintElement(e: Element): string {
    e.before + Print(e.value) + e.after
  }

  function PrintItems(items: seq<Element>): string {
    if items == [] then ""
    else PrintElement(items[0]) + (if |items| == 1 then "" else ",") + PrintItems(items[1..])
  }

  function PrintMember(m: Member): string {
    m.before + PrintString(m.name) + m.colon + ":" + PrintElement(m.element)
  }

  function PrintMembers(members: seq<Member>): string {
    if members == [] then ""
    else PrintMember(members[0]) + (if |members| == 1 then "" else ",") + PrintMembers(members[1..])
  }

  // ---------------------------------------------------------------- texts the scanner passes over

  /** Inside an object the scanner reads all of it and is where it was, out of any string. */
  ghost predicate Neutral(x: string) {
    forall rest: string, depth: nat :: depth >= 1 ==> Passes(x, rest, depth)
  }

  ghost predicate Passes(x: string, rest: string, depth: nat) {
    Scan(x + rest, depth, false) == Plus(|x|, Scan(rest, depth, false))
  }

  lemma NeutralConcat(x: string, y: string)
    requires Neutral(x) && Neutral(y)
    ensures Neutral(x + y)
  {
    forall rest: string, depth: nat | depth >= 1
      ensures Passes(x + y, rest, depth)
    {
      assert Passes(x, y + rest, depth) && Passes(y, rest, depth);
      assert (x + y) + rest == x + (y + rest);
    }
  }

  lemma {:induction false} NoMarksPass(x: string, rest: string, depth: nat)
    requires NoMarks(x) && depth >= 1
    ensures Passes(x, rest, depth)
  {
    if x == [] {
      assert x + rest == rest;
    } else {
      assert (x + rest)[1..] == x[1..] + rest;
      NoMarksPass(x[1..], rest, depth);
    }
  }

  lemma NoMarksNeutral(x: string)
    requires NoMarks(x)
    ensures Neutral(x)
  {
    forall rest: string, depth: nat | depth >= 1
      ensures Passes(x, rest, depth)
    {
      NoMarksPass(x, rest, depth);
    }
  }

  /** Whatever a string holds, escaped quotes and braces included, it ends at its own closing quote. */
  lemma {:induction false} UnitsPass(units: seq<Unit>, rest: string, depth: nat)
    requires ValidUnits(units)
    ensures Scan(PrintUnits(units) + "\"" + rest, depth, true)
            == Plus(|PrintUnits(units)| + 1, Scan(rest, depth, false))
  {
    var t := PrintUnits(units) + "\"" + rest;
    if units == [] {
      assert t == "\"" + rest;
      assert t[1..] == rest;
    } else {
      var after := PrintUnits(units[1..]) + "\"" + rest;
      UnitsPass(units[1..], rest, depth);
      match units[0]
      case Char(c) =>
        assert t[0] == c && t[1..] == after;
      case Escape(c) =>
        assert t[0] == '\\' && t[2..] == after;
    }
  }

  lemma StringNeutral(units: seq<Unit>)
    requires ValidUnits(units)
    ensures Neutral(PrintString(units))
  {
    forall rest: string, depth: nat | depth >= 1
      ensures Passes(PrintString(units), rest, depth)
    {
      UnitsPass(units, rest, depth);
      assert (PrintString(units) + rest)[1..] == PrintUnits(units) + "\"" + rest;
    }
  }

  lemma BracedNeutral(x: string)
    requires Neutral(x)
    ensures Neutral("{" + x + "}")
  {
    forall rest: string, depth: nat | depth >= 1
      ensures Passes("{" + x + "}", rest, depth)
    {
      BracedPass(x, rest, depth);
    }
  }

  lemma BracedPass(x: string, rest: string, depth: nat)
    requires Neutral(x) && depth >= 1
    ensures Passes("{" + x + "}", rest, depth)
  {
    var t := ("{" + x + "}") + rest;
    assert t[1..] == x + ("}" + rest);
    assert Passes(x, "}" + rest, depth + 1);
    assert ("}" + rest)[1..] == rest;
  }

  /** Every valid value is passed over. */
  lemma {:induction false} ValueNeutral(v: Json)
    requires Valid(v)
    ensures Neutral(Print(v))
    decreases v, 2, 0
  {
    match v
    case Bare(text) => NoMarksNeutral(text);
    case Str(units) => StringNeutral(units);
    case Arr(items, space) =>
      NoMarksNeutral(space);
      ItemsNeutral(v, items);
      var inside := if items == [] then space else PrintItems(items);
      NoMarksNeutral("[");
      NoMarksNeutral("]");
      NeutralConcat("[", inside);
      NeutralConcat("[" + inside, "]");
    case Obj(members, space) =>
      InsideNeutral(v);
      BracedNeutral(Inside(v));
  }

  function Inside(v: Json): string
    requires v.Obj?
  {
    if v.members == [] then v.space else PrintMembers(v.members)
  }

  lemma {:induction false} InsideNeutral(v: Json)
    requires v.Obj? && Valid(v)
    ensures Neutral(Inside(v))
    decreases v, 1, 0
  {
    NoMarksNeutral(v.space);
    MembersNeutral(v, v.members);
  }

  lemma {:induction false} ElementNeutral(e: Element)
    requires ValidElement(e)
    ensures Neutral(PrintElement(e))
    decreases e, 0, 0
  {
    NoMarksNeutral(e.before);
    NoMarksNeutral(e.after);
    ValueNeutral(e.value);
    NeutralConcat(e.before, Print(e.value));
    NeutralConcat(e.before + Print(e.value), e.after);
  }

  lemma {:induction false} ItemsNeutral(v: Json, items: seq<Element>)
    requires forall i :: 0 <= i < |items| ==> items[i] < v && ValidElement(items[i])
    ensures Neutral(PrintItems(items))
    decreases v, 0, |items|
  {
    NoMarksNeutral("");
    NoMarksNeutral(",");
    if items != [] {
      var comma := if |items| == 1 then "" else ",";
      ElementNeutral(items[0]);
      ItemsNeutral(v, items[1..]);
      NeutralConcat(PrintElement(items[0]), comma);
      NeutralConcat(PrintElement(items[0]) + comma, PrintItems(items[1..]));
    }
  }

  lemma {:induction false} MemberNeutral(m: Member)
    requires ValidMember(m)
    ensures Neutral(PrintMember(m))
    decreases m, 0, 0
  {
    NoMarksNeutral(m.before);
    NoMarksNeutral(m.colon);
    NoMarksNeutral(":");
    StringNeutral(m.name);
    ElementNeutral(m.element);
    NeutralConcat(m.before, PrintString(m.name));
    NeutralConcat(m.before + PrintString(m.name), m.colon);
    NeutralConcat(m.before + PrintString(m.name) + m.colon, ":");
    NeutralConcat(m.before + PrintString(m.name) + m.colon + ":", PrintElement(m.element));
  }

  lemma {:induction false} MembersNeutral(v: Json, members: seq<Member>)
    requires forall i :: 0 <= i < |members| ==> members[i] < v && ValidMember(members[i])
    ensures Neutral(PrintMembers(members))
    decreases v, 0, |members|
  {
    NoMarksNeutral("");
    NoMarksNeutral(",");
    if members != [] {
      var comma := if |members| == 1 then "" else ",";
      MemberNeutral(members[0]);
      MembersNeutral(v, members[1..]);
      NeutralConcat(PrintMember(members[0]), comma);
      NeutralConcat(PrintMember(members[0]) + comma, PrintMembers(members[1..]));
    }
  }

  // ---------------------------------------------------------------- the object is found

  lemma {:induction false} FirstBraceSkips(before: string, t: string)
    requires '{' !in before && t != [] && t[0] == '{'
    ensures FirstBrace(before + t) == Some(|before|)
  {
    if before == [] {
      assert before + t == t;
    } else {
      assert (before + t)[1..] == before[1..] + t;
      assert forall i :: 0 <= i < |before[1..]| ==> before[1..][i] == before[i + 1];
      FirstBraceSkips(before[1..], t);
    }
  }

  /**
   * For any text without an opening brace before the object and any text after it, what is extracted is the printed
   * object to the character: braces and escapes inside strings do not count, nor does what follows.
   */
  lemma ExtractsTheObject(before: string, v: Json, after: string)
    requires v.Obj? && Valid(v) && '{' !in before
    ensures Extract(before + Print(v) + after) == Print(v)
  {
    var text, rest := before + Print(v) + after, Print(v) + after;
    assert text == before + rest;
    ExtractAfter(before, rest);
    ObjectScan(v, after);
    assert rest[..|Print(v)|] == Print(v);
  }

  lemma ExtractAfter(before: string, rest: string)
    requires '{' !in before && rest != [] && rest[0] == '{'
    ensures Extract(before + rest)
            == (if Scan(rest, 0, false).Some? then rest[..Scan(rest, 0, false).value] else rest)
  {
    var text := before + rest;
    FirstBraceSkips(before, rest);
    FromIsScan(text, |before|, 0, false);
    assert text[|before|..] == rest;
    var end := Scan(rest, 0, false);
    assert end.Some? ==> text[|before|..|before| + end.value] == rest[..end.value];
  }

  lemma ObjectScan(v: Json, after: string)
    requires v.Obj? && Valid(v)
    ensures Scan(Print(v) + after, 0, false) == Some(|Print(v)|)
  {
    var rest := Print(v) + after;
    InsideNeutral(v);
    assert rest[1..] == Inside(v) + ("}" + after);
    assert Passes(Inside(v), "}" + after, 1);
  }

  /** A text with no opening brace comes back whole. */
  lemma NoObjectNoChange(text: string)
    requires '{' !in text
    ensures Extract(text) == text
  {
    FirstBraceFinds(text);
  }

  /** An object that was cut off comes back from its brace to the end. */
  lemma CutOffObject(before: string, v: Json, n: nat)
    requires v.Obj? && Valid(v) && '{' !in before && 0 < n < |Print(v)|
    ensures Extract(before + Print(v)[..n]) == Print(v)[..n]
  {
    ExtractAfter(before, Print(v)[..n]);
    ObjectScan(v, "");
    assert Print(v) + "" == Print(v);
    ScanOfPrefix(Print(v), n, 0, false);
  }

  /** What is not balanced by the whole text is not balanced by less of it. */
  lemma {:induction false} ScanOfPrefix(t: string, n: nat, depth: nat, inString: bool)
    requires n < |t| && Scan(t, depth, inString) == Some(|t|)
    ensures Scan(t[..n], depth, inString).None?
    decreases |t|
  {
    if n > 0 {
      assert t[..n][0] == t[0];
      assert t[..n][1..] == t[1..][..n - 1];
      if inString && t[0] == '\\' {
        if n > 1 {
          assert t[..n][2..] == t[2..][..n - 2];
          ScanOfPrefix(t[2..], n - 2, depth, true);
        }
      } else if inString {
        ScanOfPrefix(t[1..], n - 1, depth, t[0] != '"');
      } else if t[0] == '"' {
        ScanOfPrefix(t[1..], n - 1, depth, true);
      } else if t[0] == '{' {
        ScanOfPrefix(t[1..], n - 1, depth + 1, false);
      } else if !(t[0] == '}' && depth <= 1) {
        ScanOfPrefix(t[1..], n - 1, if t[0] == '}' then depth - 1 else depth, false);
      }
    }
  }
}
