/**
 * The text of a correlative code and the two ways of finding the next one: the greatest code as text
 * (stp-api/src/costs/acus.service.ts, stp-api/src/fichas/fichas.service.ts) and the greatest number
 * (stp-api/src/costs/materials.service.ts).
 */
module CorrelativeCodes {

  // ---------------------------------------------------------------- numbers as text

  predicate IsDigit(c: char) {
    '0' <= c <= '9'
  }

  predicate AllDigits(s: string) {
    forall i :: 0 <= i < |s| ==> IsDigit(s[i])
  }

  function DigitChar(d: nat): (c: char)
    requires d < 10
    ensures IsDigit(c) && DigitValue(c) == d
  {
    (d + '0' as int) as char
  }

  function DigitValue(c: char): (d: nat)
    requires IsDigit(c)
    ensures d < 10
  {
    c as int - '0' as int
  }

  /** `String(n)`. */
  function Decimal(n: nat): (s: string)
    ensures AllDigits(s) && |s| > 0
  {
    if n < 10 then [DigitChar(n)] else Decimal(n / 10) + [DigitChar(n % 10)]
  }

  function Zeros(k: nat): (s: string)
    ensures |s| == k && AllDigits(s) && forall i :: 0 <= i < k ==> s[i] == '0'
  {
    seq(k, _ => '0')
  }

  /** `s.padStart(width, '0')`. */
  function PadStart(s: string, width: nat): string {
    if |s| >= width then s else Zeros(width - |s|) + s
  }

  /** `parseInt(s, 10)` of a text of digits. */
  function Parse(s: string): nat
    requires AllDigits(s)
  {
    if s == [] then 0 else Parse(s[..|s| - 1]) * 10 + DigitValue(s[|s| - 1])
  }

  function Pow10(w: nat): (p: nat)
    ensures p >= 1
  {
    if w == 0 then 1 else 10 * Pow10(w - 1)
  }

  /** The digits of code number `n`. */
  function Body(n: nat, width: nat): (s: string)
    ensures AllDigits(s) && |s| > 0
  {
    PadStart(Decimal(n), width)
  }

  function Code(prefix: string, n: nat, width: nat): string {
    prefix + Body(n, width)
  }

  lemma {:induction false} ParseDecimal(n: nat)
    ensures Parse(Decimal(n)) == n
  {
    var s := Decimal(n);
    if n < 10 {
      assert s[..|s| - 1] == [];
    } else {
      ParseDecimal(n / 10);
      assert s[..|s| - 1] == Decimal(n / 10);
    }
  }

  lemma {:induction false} LeadingZeros(k: nat, s: string)
    requires AllDigits(s)
    ensures Parse(Zeros(k) + s) == Parse(s)
  {
    var t := Zeros(k) + s;
    if s != [] {
      assert t[..|t| - 1] == Zeros(k) + s[..|s| - 1];
      LeadingZeros(k, s[..|s| - 1]);
    } else if k > 0 {
      assert t[..k - 1] == Zeros(k - 1) + s;
      LeadingZeros(k - 1, s);
    }
  }

  /** A padded code parses back to its number, whatever the width. */
  lemma ParseUndoesPadding(n: nat, width: nat)
    ensures Parse(Body(n, width)) == n
  {
    ParseDecimal(n);
    LeadingZeros(if |Decimal(n)| >= width then 0 else width - |Decimal(n)|, Decimal(n));
  }

  lemma {:induction false} DecimalWidth(n: nat, w: nat)
    requires w >= 1
    ensures |Decimal(n)| <= w <==> n < Pow10(w)
  {
    if n >= 10 && w > 1 {
      DecimalWidth(n / 10, w - 1);
    } else {
      assert Pow10(w) == 10 * Pow10(w - 1);
    }
  }

  /** The digits of a number have no zero in front. */
  lemma {:induction false} NoZeroInFront(n: nat)
    ensures n > 0 ==> Decimal(n)[0] != '0'
    ensures n == 0 ==> Decimal(n) == "0"
  {
    if n >= 10 {
      NoZeroInFront(n / 10);
    }
  }

  /** A code has exactly the width while its number fits, and then not one zero more than its digits. */
  lemma BodyWidth(n: nat, width: nat)
    requires width >= 1
    ensures if n < Pow10(width) then |Body(n, width)| == width else Body(n, width) == Decimal(n)
  {
    DecimalWidth(n, width);
  }

  // ---------------------------------------------------------------- text order

  /** Order of two texts, character by character, as `ORDER BY code` has it for digits. */
  predicate Less(a: string, b: string) {
    b != [] && (a == [] || a[0] < b[0] || (a[0] == b[0] && Less(a[1..], b[1..])))
  }

  lemma {:induction false} LessIsTransitive(a: string, b: string, c: string)
    requires Less(a, b) && Less(b, c)
    ensures Less(a, c)
  {
    if a != [] && a[0] == b[0] && b[0] == c[0] {
      LessIsTransitive(a[1..], b[1..], c[1..]);
    }
  }

  lemma {:induction false} SamePrefix(prefix: string, a: string, b: string)
    ensures Less(prefix + a, prefix + b) <==> Less(a, b)
  {
    if prefix == [] {
      assert prefix + a == a && prefix + b == b;
    } else {
      assert (prefix + a)[1..] == prefix[1..] + a && (prefix + b)[1..] == prefix[1..] + b;
      SamePrefix(prefix[1..], a, b);
    }
  }

  /** Reading from the left: the first digit weighs more than all the others together. */
  lemma {:induction false} ParseFromLeft(s: string)
    requires AllDigits(s) && s != []
    ensures Parse(s) == DigitValue(s[0]) * Pow10(|s| - 1) + Parse(s[1..])
    ensures Parse(s[1..]) < Pow10(|s| - 1)
  {
    var n := |s| - 1;
    if n == 0 {
      assert s[..n] == [] && s[1..] == [];
    } else {
      ParseFromLeft(s[..n]);
      assert s[1..][..n - 1] == s[..n][1..];
      assert s[..n][0] == s[0] && s[1..][n - 1] == s[n];
      OneDigitMore(DigitValue(s[0]), Pow10(n - 1), Parse(s[..n][1..]));
    }
  }

  lemma OneDigitMore(first: nat, p: nat, rest: nat)
    ensures 10 * (first * p + rest) == first * (10 * p) + 10 * rest
  {
  }

  lemma {:induction false} TimesAtMost(x: nat, y: nat, p: nat)
    requires x <= y
    ensures x * p <= y * p
  {
    if x < y {
      TimesAtMost(x, y - 1, p);
      assert y * p == (y - 1) * p + p;
    }
  }

  lemma Weigh(x: nat, y: nat, p: nat, r: nat, t: nat)
    requires r < p && x < y
    ensures x * p + r < y * p + t
  {
    TimesAtMost(x + 1, y, p);
    assert (x + 1) * p == x * p + p;
  }

  lemma {:induction false} SameWidthOrder(a: string, b: string)
    requires AllDigits(a) && AllDigits(b) && |a| == |b|
    ensures Less(a, b) <==> Parse(a) < Parse(b)
  {
    if a != [] {
      ParseFromLeft(a);
      ParseFromLeft(b);
      var x, y, p := DigitValue(a[0]), DigitValue(b[0]), Pow10(|a| - 1);
      if x < y {
        Weigh(x, y, p, Parse(a[1..]), Parse(b[1..]));
      } else if y < x {
        Weigh(y, x, p, Parse(b[1..]), Parse(a[1..]));
      }
      SameWidthOrder(a[1..], b[1..]);
    }
  }

  /** While numbers fit the width, the order of the texts is the order of the numbers. */
  lemma TextOrderIsNumberOrder(prefix: string, m: nat, n: nat, width: nat)
    requires width >= 1 && m < Pow10(width) && n < Pow10(width)
    ensures Less(Code(prefix, m, width), Code(prefix, n, width)) <==> m < n
  {
    SamePrefix(prefix, Body(m, width), Body(n, width));
    DecimalWidth(m, width);
    DecimalWidth(n, width);
    SameWidthOrder(Body(m, width), Body(n, width));
    ParseUndoesPadding(m, width);
    ParseUndoesPadding(n, width);
  }

  // ---------------------------------------------------------------- the greatest text

  /** `ORDER BY code DESC LIMIT 1`. */
  function TextMax(codes: seq<string>): string
    requires codes != []
  {
    var last := codes[|codes| - 1];
    if |codes| == 1 then last
    else
      var before := TextMax(codes[..|codes| - 1]);
      if Less(before, last) then last else before
  }

  lemma {:induction false} TextMaxIsGreatest(codes: seq<string>, c: string)
    requires c in codes
    ensures TextMax(codes) in codes && !Less(TextMax(codes), c)
  {
    var n := |codes| - 1;
    var last := codes[n];
    NotLessThanItself(last);
    if n > 0 {
      var before := TextMax(codes[..n]);
      TextMaxIsGreatest(codes[..n], codes[0]);
      if c in codes[..n] {
        TextMaxIsGreatest(codes[..n], c);
        if Less(before, last) && Less(last, c) {
          LessIsTransitive(before, last, c);
        }
      }
    }
  }

  lemma {:induction false} NotLessThanItself(s: string)
    ensures !Less(s, s)
  {
    if s != [] {
      NotLessThanItself(s[1..]);
    }
  }

  // ---------------------------------------------------------------- the two generators

  /** The codes of the rows numbered `ns`. */
  function Codes(prefix: string, ns: seq<nat>, width: nat): (r: seq<string>)
    ensures |r| == |ns| && forall i :: 0 <= i < |r| ==> r[i] == Code(prefix, ns[i], width)
  {
    seq(|ns|, i requires 0 <= i < |ns| => Code(prefix, ns[i], width))
  }

  function NumberOf(prefix: string, code: string): nat {
    if |code| >= |prefix| && AllDigits(code[|prefix|..]) then Parse(code[|prefix|..]) else 0
  }

  /** One more than the number of the greatest code as text. */
  function NextByText(prefix: string, codes: seq<string>): nat {
    if codes == [] then 1 else NumberOf(prefix, TextMax(codes)) + 1
  }

  function NumericMax(prefix: string, codes: seq<string>): nat {
    if codes == [] then 0
    else
      var before := NumericMax(prefix, codes[..|codes| - 1]);
      var last := NumberOf(prefix, codes[|codes| - 1]);
      if last > before then last else before
  }

  function NextByNumber(prefix: string, codes: seq<string>): nat {
    NumericMax(prefix, codes) + 1
  }

  lemma NumberOfCode(prefix: string, n: nat, width: nat)
    ensures NumberOf(prefix, Code(prefix, n, width)) == n
  {
    assert Code(prefix, n, width)[|prefix|..] == Body(n, width);
    ParseUndoesPadding(n, width);
  }

  lemma {:induction false} NumericMaxBounds(prefix: string, codes: seq<string>, c: string)
    requires c in codes
    ensures NumberOf(prefix, c) <= NumericMax(prefix, codes)
  {
    var n := |codes| - 1;
    if c in codes[..n] {
      NumericMaxBounds(prefix, codes[..n], c);
    }
  }

  lemma {:induction false} NumericMaxIsThere(prefix: string, codes: seq<string>)
    requires codes != []
    ensures exists i :: 0 <= i < |codes| && NumberOf(prefix, codes[i]) == NumericMax(prefix, codes)
  {
    var n := |codes| - 1;
    if n > 0 && NumberOf(prefix, codes[n]) < NumericMax(prefix, codes) {
      NumericMaxIsThere(prefix, codes[..n]);
      var i :| 0 <= i < n && NumberOf(prefix, codes[..n][i]) == NumericMax(prefix, codes[..n]);
      assert codes[i] == codes[..n][i];
    } else {
      assert NumericMax(prefix, codes[..n]) == 0 || n > 0;
      assert NumberOf(prefix, codes[n]) == NumericMax(prefix, codes);
    }
  }

  /** After the prefix the code has digits only. */
  predicate HasNumber(prefix: string, code: string, n: nat) {
    |code| >= |prefix| && AllDigits(code[|prefix|..]) && Parse(code[|prefix|..]) == n
  }

  /** Whatever texts are in the table, the numeric maximum counts those with a number and no other. */
  lemma OthersCountForNothing(prefix: string, codes: seq<string>)
    ensures var next := NextByNumber(prefix, codes);
      && (forall i, n: nat :: 0 <= i < |codes| && HasNumber(prefix, codes[i], n) ==> n < next)
      && (next == 1 || exists i :: 0 <= i < |codes| && HasNumber(prefix, codes[i], next - 1))
  {
    forall i | 0 <= i < |codes|
      ensures NumberOf(prefix, codes[i]) <= NumericMax(prefix, codes)
    {
      NumericMaxBounds(prefix, codes, codes[i]);
    }
    if codes != [] {
      NumericMaxIsThere(prefix, codes);
      var i :| 0 <= i < |codes| && NumberOf(prefix, codes[i]) == NumericMax(prefix, codes);
      assert NumericMax(prefix, codes) > 0 ==> HasNumber(prefix, codes[i], NumericMax(prefix, codes));
    }
  }

  /** The row whose code is the greatest text. */
  lemma TextMaxRow(prefix: string, ns: seq<nat>, width: nat) returns (m: nat)
    requires ns != []
    ensures m in ns && NextByText(prefix, Codes(prefix, ns, width)) == m + 1
    ensures forall n :: n in ns ==> !Less(Code(prefix, m, width), Code(prefix, n, width))
  {
    var codes := Codes(prefix, ns, width);
    TextMaxIsGreatest(codes, codes[0]);
    var i :| 0 <= i < |codes| && codes[i] == TextMax(codes);
    m := ns[i];
    NumberOfCode(prefix, m, width);
    forall n | n in ns
      ensures !Less(Code(prefix, m, width), Code(prefix, n, width))
    {
      var j :| 0 <= j < |ns| && ns[j] == n;
      TextMaxIsGreatest(codes, codes[j]);
    }
  }

  lemma FreshNumberFreshCode(prefix: string, ns: seq<nat>, n: nat, width: nat)
    ensures Code(prefix, n, width) in Codes(prefix, ns, width) <==> n in ns
  {
    var codes := Codes(prefix, ns, width);
    NumberOfCode(prefix, n, width);
    if Code(prefix, n, width) in codes {
      var i :| 0 <= i < |codes| && codes[i] == Code(prefix, n, width);
      NumberOfCode(prefix, ns[i], width);
    }
    if n in ns {
      var i :| 0 <= i < |ns| && ns[i] == n;
      assert codes[i] == Code(prefix, n, width);
    }
  }

  /** While every number fits the width, the text maximum gives a code past every number, so nobody has it. */
  lemma TextNextIsFresh(prefix: string, ns: seq<nat>, width: nat)
    requires width >= 1 && forall n :: n in ns ==> n < Pow10(width)
    ensures var next := NextByText(prefix, Codes(prefix, ns, width));
      && (forall n :: n in ns ==> n < next)
      && Code(prefix, next, width) !in Codes(prefix, ns, width)
      && if ns == [] then next == 1 else next - 1 in ns
  {
    var next := NextByText(prefix, Codes(prefix, ns, width));
    if ns != [] {
      var m := TextMaxRow(prefix, ns, width);
      forall n | n in ns
        ensures n < next
      {
        TextOrderIsNumberOrder(prefix, m, n, width);
      }
    }
    FreshNumberFreshCode(prefix, ns, next, width);
  }

  /** The numeric maximum gives a code nobody has, with no bound on the numbers. */
  lemma NumericNextIsFresh(prefix: string, ns: seq<nat>, width: nat)
    ensures var next := NextByNumber(prefix, Codes(prefix, ns, width));
      && (forall n :: n in ns ==> n < next) && Code(prefix, next, width) !in Codes(prefix, ns, width)
      && if ns == [] then next == 1 else next - 1 in ns
  {
    var codes := Codes(prefix, ns, width);
    if ns != [] {
      NumericMaxIsThere(prefix, codes);
      var i :| 0 <= i < |codes| && NumberOf(prefix, codes[i]) == NumericMax(prefix, codes);
      NumberOfCode(prefix, ns[i], width);
    }
    forall j | 0 <= j < |ns|
      ensures ns[j] <= NumericMax(prefix, codes)
    {
      NumericMaxBounds(prefix, codes, codes[j]);
      NumberOfCode(prefix, ns[j], width);
    }
    FreshNumberFreshCode(prefix, ns, NumericMax(prefix, codes) + 1, width);
  }

  // ---------------------------------------------------------------- where the text order stops working

  /** One creation: the code is generated and inserted; a code already taken is refused by the unique index. */
  function Created(prefix: string, ns: seq<nat>, width: nat): seq<nat> {
    var codes := Codes(prefix, ns, width);
    var next := NextByText(prefix, codes);
    if Code(prefix, next, width) in codes then ns else ns + [next]
  }

  /** The table after `k` creations one after another. */
  function TableAfter(prefix: string, k: nat, width: nat): seq<nat> {
    if k == 0 then [] else Created(prefix, TableAfter(prefix, k - 1, width), width)
  }

  function Capped(k: nat, limit: nat): nat {
    if k < limit then k else limit
  }

  /** The numbers 1 .. n. */
  function Count(n: nat): seq<nat> {
    if n == 0 then [] else Count(n - 1) + [n]
  }

  lemma {:induction false} CountMembers(n: nat)
    ensures forall x: nat :: x in Count(n) <==> 1 <= x <= n
  {
    if n > 0 {
      CountMembers(n - 1);
    }
  }

  lemma {:induction false} EdgeDigits(w: nat)
    requires w >= 1
    ensures Decimal(Pow10(w))[0] == '1'
    ensures Decimal(Pow10(w) - 1)[0] == '9'
  {
    if w == 1 {
      assert Pow10(1) == 10 * Pow10(0) == 10;
      assert Decimal(10) == Decimal(1) + [DigitChar(0)];
    } else {
      EdgeDigits(w - 1);
      var p := Pow10(w - 1);
      assert p >= 10 by {
        assert p == 10 * Pow10(w - 2);
      }
      assert Decimal(10 * p) == Decimal(p) + [DigitChar(0)];
      assert (10 * p - 1) / 10 == p - 1;
      assert Decimal(10 * p - 1) == Decimal(p - 1) + [DigitChar(9)];
    }
  }

  /** As text the first number that does not fit comes before the last one that does. */
  lemma OverflowSortsFirst(prefix: string, w: nat)
    requires w >= 1
    ensures Less(Code(prefix, Pow10(w), w), Code(prefix, Pow10(w) - 1, w))
  {
    EdgeDigits(w);
    DecimalWidth(Pow10(w), w);
    DecimalWidth(Pow10(w) - 1, w);
    DecimalReaches(w);
    SamePrefix(prefix, Body(Pow10(w), w), Body(Pow10(w) - 1, w));
  }

  lemma {:induction false} DecimalReaches(w: nat)
    requires w >= 1
    ensures |Decimal(Pow10(w) - 1)| == w
  {
    var p := Pow10(w - 1);
    if w > 1 {
      DecimalReaches(w - 1);
      assert p == 10 * Pow10(w - 2);
      assert (10 * p - 1) / 10 == p - 1;
    }
  }

  /** With 1 .. 10^w in the table the text maximum is still 10^w - 1, so the code generated is taken. */
  lemma FullTableRepeats(prefix: string, w: nat)
    requires w >= 1
    ensures NextByText(prefix, Codes(prefix, Count(Pow10(w)), w)) == Pow10(w)
  {
    var p := Pow10(w);
    assert p == 10 * Pow10(w - 1);
    CountMembers(p);
    var m := TextMaxRow(prefix, Count(p), w);
    if m < p {
      TextOrderIsNumberOrder(prefix, m, p - 1, w);
    } else {
      OverflowSortsFirst(prefix, w);
    }
  }

  lemma CountNext(prefix: string, n: nat, w: nat)
    requires w >= 1 && n < Pow10(w)
    ensures var codes := Codes(prefix, Count(n), w);
      NextByText(prefix, codes) == n + 1 && Code(prefix, n + 1, w) !in codes
  {
    CountMembers(n);
    TextNextIsFresh(prefix, Count(n), w);
    assert n > 0 ==> n in Count(n);
  }

  lemma CreatedAtTheEnd(prefix: string, n: nat, w: nat)
    requires w >= 1 && n < Pow10(w)
    ensures Created(prefix, Count(n), w) == Count(n + 1)
  {
    CountNext(prefix, n, w);
  }

  lemma NothingCreated(prefix: string, w: nat)
    requires w >= 1
    ensures Created(prefix, Count(Pow10(w)), w) == Count(Pow10(w))
  {
    FullTableRepeats(prefix, w);
    CountMembers(Pow10(w));
    FreshNumberFreshCode(prefix, Count(Pow10(w)), Pow10(w), w);
  }

  lemma OneCreation(prefix: string, k: nat, w: nat)
    requires w >= 1
    ensures Created(prefix, Count(Capped(k, Pow10(w))), w) == Count(Capped(k + 1, Pow10(w)))
  {
    if k < Pow10(w) {
      CreatedAtTheEnd(prefix, k, w);
    } else {
      NothingCreated(prefix, w);
    }
  }

  /** From the first `k` numbers, no more than `limit`, one creation leads to the first `k + 1`. */
  ghost predicate Counts(prefix: string, w: nat, limit: nat, k: nat) {
    Created(prefix, Count(Capped(k, limit)), w) == Count(Capped(k + 1, limit))
  }

  lemma TableStep(prefix: string, w: nat, limit: nat, k: nat)
    requires Counts(prefix, w, limit, k) && TableAfter(prefix, k, w) == Count(Capped(k, limit))
    ensures TableAfter(prefix, k + 1, w) == Count(Capped(k + 1, limit))
  {
  }

  lemma {:induction false} TablesFollow(prefix: string, w: nat, limit: nat, k: nat)
    requires forall j: nat :: Counts(prefix, w, limit, j)
    ensures TableAfter(prefix, k, w) == Count(Capped(k, limit))
  {
    if k > 0 {
      TablesFollow(prefix, w, limit, k - 1);
      TableStep(prefix, w, limit, k - 1);
    }
  }

  lemma TablesAreCounts(prefix: string, k: nat, w: nat)
    requires w >= 1
    ensures TableAfter(prefix, k, w) == Count(Capped(k, Pow10(w)))
  {
    forall j: nat
      ensures Counts(prefix, w, Pow10(w), j)
    {
      OneCreation(prefix, j, w);
    }
    TablesFollow(prefix, w, Pow10(w), k);
  }

  /**
   * Creating one row after another, the text maximum yields a fresh code exactly while fewer than 10^w rows exist;
   * from then on every creation meets the same taken code.
   */
  lemma TextNextWorksUntilTheWidthIsFull(prefix: string, k: nat, w: nat)
    requires w >= 1
    ensures var codes := Codes(prefix, TableAfter(prefix, k, w), w);
      Code(prefix, NextByText(prefix, codes), w) !in codes <==> k < Pow10(w)
  {
    TablesAreCounts(prefix, k, w);
    if k < Pow10(w) {
      CountNext(prefix, k, w);
    } else {
      FullTableRepeats(prefix, w);
      CountMembers(Pow10(w));
      FreshNumberFreshCode(prefix, Count(Pow10(w)), Pow10(w), w);
    }
  }
}
