/**
 * Byte strings: numerals, text at a position, and a template language that is
 * written by `Render` and read back by `Scan`.
 *
 * A byte is a `char`, so a byte string is a Dafny `string`. The template
 * language describes the fixed-layout text AirSane's writers emit: literal
 * text, decimal numbers and free-form lines.
 */
module Text {

  datatype Option<+T> = None | Some(value: T) {
    predicate IsFailure() { None? }
    function PropagateFailure<U>(): Option<U> requires None? { None }
    function Extract(): T requires Some? { value }
  }

  function Concat(parts: seq<string>): string {
    if parts == [] then "" else parts[0] + Concat(parts[1..])
  }

  lemma {:induction false} ConcatAppend(a: seq<string>, b: seq<string>)
    ensures Concat(a + b) == Concat(a) + Concat(b)
  {
    var t := a + b;
    if a == [] {
      assert t == b;
    } else {
      assert t[0] == a[0] && t[1..] == a[1..] + b;
      ConcatAppend(a[1..], b);
      Associative(a[0], Concat(a[1..]), Concat(b));
    }
  }

  lemma Associative(x: string, y: string, z: string)
    ensures x + (y + z) == x + y + z
  {
  }

  lemma ConcatSnoc(a: seq<string>, s: string)
    ensures Concat(a + [s]) == Concat(a) + s
  {
    ConcatAppend(a, [s]);
    assert Concat([s]) == s;
  }

  // ---- numerals ------------------------------------------------------------

  function DigitChar(d: nat): (c: char)
    requires d < 16
    ensures DigitValue(c) == d && c == "0123456789abcdef"[d]
  {
    if d < 10 then '0' + d as char else 'a' + (d - 10) as char
  }

  /** The value of a digit in any base up to 16, and 16 for every other byte. */
  function DigitValue(c: char): (d: nat)
    ensures d <= 16
  {
    if '0' <= c <= '9' then c as int - '0' as int
    else if 'a' <= c <= 'f' then c as int - 'a' as int + 10
    else if 'A' <= c <= 'F' then c as int - 'A' as int + 10
    else 16
  }

  predicate IsDigit(c: char, base: nat) {
    DigitValue(c) < base
  }

  predicate AllDigits(s: string, base: nat) {
    forall i :: 0 <= i < |s| ==> IsDigit(s[i], base)
  }

  function Numeral(n: nat, base: nat): (s: string)
    requires 2 <= base <= 16
    ensures s != "" && AllDigits(s, base)
  {
    if n < base then [DigitChar(n)] else Numeral(n / base, base) + [DigitChar(n % base)]
  }

  function Dec(n: nat): string { Numeral(n, 10) }

  /** The number a digit string denotes. */
  function Eval(s: string, base: nat): nat {
    if s == "" then 0 else Eval(s[..|s| - 1], base) * base + DigitValue(s[|s| - 1])
  }

  lemma {:induction false} EvalNumeral(n: nat, base: nat)
    requires 2 <= base <= 16
    ensures Eval(Numeral(n, base), base) == n
  {
    hide Eval, DigitValue, Numeral;
    NumeralStep(n, base);
    Division(n, base);
    if n >= base {
      EvalNumeral(n / base, base);
      EvalSnoc(Numeral(n / base, base), DigitChar(n % base), base);
    } else {
      EvalSnoc("", DigitChar(n), base);
      assert "" + [DigitChar(n)] == [DigitChar(n)];
    }
  }

  lemma NumeralStep(n: nat, base: nat)
    requires 2 <= base <= 16
    ensures n < base ==> Numeral(n, base) == [DigitChar(n)]
    ensures n >= base ==> Numeral(n, base) == Numeral(n / base, base) + [DigitChar(n % base)]
  {
  }

  lemma Division(n: nat, base: nat)
    requires base >= 2
    ensures n / base * base + n % base == n
    ensures n >= base ==> n / base < n
  {
  }

  lemma EvalSnoc(s: string, c: char, base: nat)
    ensures Eval(s + [c], base) == Eval(s, base) * base + DigitValue(c) && Eval("", base) == 0
  {
    assert (s + [c])[..|s|] == s;
  }

  function Power(base: nat, k: nat): (p: nat)
    ensures base > 0 ==> p > 0
  {
    if k == 0 then 1 else base * Power(base, k - 1)
  }

  /** A string of k digits denotes a number below base^k. */
  lemma {:induction false} EvalBound(s: string, base: nat)
    requires base > 0 && AllDigits(s, base)
    ensures Eval(s, base) < Power(base, |s|)
  {
    if s != "" {
      EvalBound(s[..|s| - 1], base);
      ShiftBelow(Eval(s[..|s| - 1], base), DigitValue(s[|s| - 1]), base, Power(base, |s| - 1));
    }
  }

  lemma ShiftBelow(v: nat, d: nat, base: nat, p: nat)
    requires v < p && d < base
    ensures v * base + d < base * p
  {
    assert v * base <= (p - 1) * base;
  }

  /** The numeral of n has more than k digits exactly when n >= base^k. */
  lemma {:induction false} NumeralWidth(n: nat, base: nat, k: nat)
    requires 2 <= base <= 16 && k >= 1
    ensures |Numeral(n, base)| <= k <==> n < Power(base, k)
  {
    if n < base {
      PowerMonotone(base, k);
    } else if k > 1 {
      NumeralWidth(n / base, base, k - 1);
      DivBelow(n, base, Power(base, k - 1));
    } else {
      assert Power(base, 1) == base * Power(base, 0) == base;
    }
  }

  lemma {:induction false} PowerMonotone(base: nat, k: nat)
    requires base >= 1 && k >= 1
    ensures Power(base, k) >= base
  {
    assert base * Power(base, k - 1) >= base * 1;
  }

  lemma DivBelow(n: nat, base: nat, p: nat)
    requires base > 0
    ensures n / base < p <==> n < base * p
  {
    assert n == base * (n / base) + n % base;
    if n / base < p {
      assert base * (n / base) <= base * (p - 1);
    } else {
      assert base * (n / base) >= base * p;
    }
  }

  function Zeros(k: nat): (s: string)
    ensures |s| == k && forall i :: 0 <= i < k ==> s[i] == '0'
  {
    seq(k, i => '0')
  }

  lemma {:induction false} EvalLeadingZeros(k: nat, s: string, base: nat)
    ensures Eval(Zeros(k) + s, base) == Eval(s, base)
    decreases k + |s|
  {
    var t := Zeros(k) + s;
    if s != "" {
      EvalLeadingZeros(k, s[..|s| - 1], base);
      assert t[..|t| - 1] == Zeros(k) + s[..|s| - 1];
    } else if k > 0 {
      EvalLeadingZeros(k - 1, "", base);
      assert t[..|t| - 1] == Zeros(k - 1) + "";
    } else {
      assert t == s;
    }
  }

  // ---- text at a position --------------------------------------------------

  predicate At(doc: string, p: nat, s: string) {
    p + |s| <= |doc| && doc[p..p + |s|] == s
  }

  lemma AtSplit(doc: string, p: nat, a: string, b: string)
    ensures At(doc, p, a + b) <==> At(doc, p, a) && At(doc, p + |a|, b)
  {
    if p + |a + b| <= |doc| {
      var d := doc[p..p + |a + b|];
      assert d[..|a|] == doc[p..p + |a|];
      assert d[|a|..] == doc[p + |a|..p + |a| + |b|];
      assert d == d[..|a|] + d[|a|..];
      if d == a + b {
        assert d[..|a|] == a && d[|a|..] == b;
      }
    }
  }

  lemma CharAt(doc: string, p: nat, s: string, i: nat)
    requires At(doc, p, s) && i < |s|
    ensures p + i < |doc| && doc[p + i] == s[i]
  {
  }

  lemma AtExtend(doc: string, more: string, p: nat, s: string)
    requires At(doc, p, s)
    ensures At(doc + more, p, s)
  {
    assert (doc + more)[p..p + |s|] == doc[p..p + |s|];
  }

  lemma AtMiddle(a: string, s: string, b: string)
    ensures At(a + s + b, |a|, s)
  {
    assert (a + s + b)[|a|..|a| + |s|] == s;
  }

  /** How many digits start at position p. */
  function DigitRun(doc: string, p: nat, base: nat): (k: nat)
    requires p <= |doc|
    ensures p + k <= |doc| && AllDigits(doc[p..p + k], base)
    decreases |doc| - p
  {
    if p < |doc| && IsDigit(doc[p], base) then
      var k := 1 + DigitRun(doc, p + 1, base);
      assert doc[p..p + k] == [doc[p]] + doc[p + 1..p + k];
      k
    else 0
  }

  lemma {:induction false} DigitRunAt(doc: string, p: nat, s: string, base: nat)
    requires At(doc, p, s) && AllDigits(s, base)
    requires p + |s| < |doc| ==> !IsDigit(doc[p + |s|], base)
    ensures DigitRun(doc, p, base) == |s|
    decreases |s|
  {
    if s != "" {
      assert doc[p] == doc[p..p + |s|][0] == s[0];
      assert doc[p + 1..p + |s|] == doc[p..p + |s|][1..];
      DigitRunAt(doc, p + 1, s[1..], base);
    }
  }

  /** The position just after the next line feed. */
  function LineEnd(doc: string, p: nat): (q: Option<nat>)
    ensures q.Some? ==> p < q.value <= |doc|
    decreases |doc| - p
  {
    if p >= |doc| then None
    else if doc[p] == '\n' then Some(p + 1)
    else LineEnd(doc, p + 1)
  }

  lemma {:induction false} LineEndAt(doc: string, p: nat, s: string)
    requires At(doc, p, s + "\n") && '\n' !in s
    ensures LineEnd(doc, p) == Some(p + |s| + 1)
    decreases |s|
  {
    var t := s + "\n";
    assert doc[p] == doc[p..p + |t|][0] == t[0];
    if s != "" {
      assert s[0] in s;
      assert doc[p + 1..p + |t|] == doc[p..p + |t|][1..] == s[1..] + "\n";
      LineEndAt(doc, p + 1, s[1..]);
    }
  }

  // ---- templates -----------------------------------------------------------

  /** What a writer emits: literal text, a number and the text that ends it, or the rest of a line. */
  datatype Piece = Lit(text: string) | Num(n: nat, stop: string) | Line(content: string)

  /** What a reader expects in the place of each piece. */
  datatype Pattern = PLit(text: string) | PNum(stop: string) | PLine

  function PieceText(p: Piece): string {
    match p
    case Lit(t) => t
    case Num(n, stop) => Dec(n) + stop
    case Line(s) => s + "\n"
  }

  function Render(ps: seq<Piece>): string {
    if ps == [] then "" else PieceText(ps[0]) + Render(ps[1..])
  }

  lemma {:induction false} RenderAppend(a: seq<Piece>, b: seq<Piece>)
    ensures Render(a + b) == Render(a) + Render(b)
  {
    hide PieceText;
    if a == [] {
      assert a + b == b;
    } else {
      RenderAppend(a[1..], b);
      assert (a + b)[1..] == a[1..] + b;
      Associative(PieceText(a[0]), Render(a[1..]), Render(b));
    }
  }

  lemma RenderSnoc(ps: seq<Piece>, p: Piece)
    ensures Render(ps + [p]) == Render(ps) + PieceText(p)
  {
    RenderAppend(ps, [p]);
    RenderOne(p);
  }

  lemma RenderOne(p: Piece)
    ensures Render([p]) == PieceText(p)
  {
    hide PieceText;
    assert Render([p][1..]) == "";
  }

  function PatternOf(p: Piece): Pattern {
    match p
    case Lit(t) => PLit(t)
    case Num(_, stop) => PNum(stop)
    case Line(_) => PLine
  }

  function Patterns(ps: seq<Piece>): (r: seq<Pattern>)
    ensures |r| == |ps| && forall i :: 0 <= i < |ps| ==> r[i] == PatternOf(ps[i])
  {
    seq(|ps|, i requires 0 <= i < |ps| => PatternOf(ps[i]))
  }

  /** What a reader gets from one place: a number, or the content of a line. */
  datatype Field = Field(n: nat, text: string)

  function ValueOf(p: Piece): Field {
    match p
    case Lit(_) => Field(0, "")
    case Num(n, _) => Field(n, "")
    case Line(s) => Field(0, s)
  }

  function Values(ps: seq<Piece>): (r: seq<Field>)
    ensures |r| == |ps| && forall i :: 0 <= i < |ps| ==> r[i] == ValueOf(ps[i])
  {
    seq(|ps|, i requires 0 <= i < |ps| => ValueOf(ps[i]))
  }

  /** Text that cannot extend a number. */
  predicate EndsNumber(s: string) {
    s != "" && !IsDigit(s[0], 10)
  }

  /** Numbers and lines end where they should. */
  predicate Unambiguous(ps: seq<Piece>) {
    forall i :: 0 <= i < |ps| ==> (ps[i].Num? ==> EndsNumber(ps[i].stop)) && (ps[i].Line? ==> '\n' !in ps[i].content)
  }

  /** Reads one piece: what it holds and the position after it. */
  function ReadPiece(doc: string, p: nat, pat: Pattern): Option<(Field, nat)> {
    match pat
    case PLit(t) => if At(doc, p, t) then Some((Field(0, ""), p + |t|)) else None
    case PLine =>
      var q :- LineEnd(doc, p);
      Some((Field(0, doc[p..q - 1]), q))
    case PNum(stop) =>
      var k := if p <= |doc| then DigitRun(doc, p, 10) else 0;
      if k == 0 || !At(doc, p + k, stop) then None
      else Some((Field(Eval(doc[p..p + k], 10), ""), p + k + |stop|))
  }

  /** Reads the pieces one after the other; returns what they hold and the end position. */
  function Scan(doc: string, p: nat, pats: seq<Pattern>): (r: Option<(seq<Field>, nat)>)
    ensures r.Some? ==> |r.value.0| == |pats|
    decreases |pats|
  {
    if pats == [] then Some(([], p))
    else
      var (f, q) :- ReadPiece(doc, p, pats[0]);
      var (fs, r) :- Scan(doc, q, pats[1..]);
      Some(([f] + fs, r))
  }

  lemma ReadNumber(doc: string, p: nat, n: nat, stop: string)
    requires At(doc, p, Dec(n) + stop) && EndsNumber(stop)
    ensures ReadPiece(doc, p, PNum(stop)) == Some((Field(n, ""), p + |Dec(n) + stop|))
  {
    hide Numeral, Eval, DigitRun;
    var q := p + |Dec(n)|;
    AtSplit(doc, p, Dec(n), stop);
    CharAt(doc, q, stop, 0);
    DigitRunAt(doc, p, Dec(n), 10);
    assert doc[p..q] == Dec(n);
    EvalNumeral(n, 10);
  }

  lemma ReadPieceAt(doc: string, p: nat, piece: Piece)
    requires At(doc, p, PieceText(piece)) && Unambiguous([piece])
    ensures ReadPiece(doc, p, PatternOf(piece)) == Some((ValueOf(piece), p + |PieceText(piece)|))
  {
    assert piece == [piece][0];
    match piece {
      case Lit(_) =>
      case Line(s) =>
        LineEndAt(doc, p, s);
        assert doc[p..p + |s|] == (s + "\n")[..|s|] == s;
      case Num(n, stop) => ReadNumber(doc, p, n, stop);
    }
  }

  /** Whatever a template wrote, scanning for its patterns reads the same fields back. */
  lemma {:induction false} ScanRender(doc: string, p: nat, ps: seq<Piece>)
    requires At(doc, p, Render(ps)) && Unambiguous(ps)
    ensures Scan(doc, p, Patterns(ps)) == Some((Values(ps), p + |Render(ps)|))
    decreases |ps|
  {
    hide ReadPiece, At, PieceText, PatternOf, ValueOf, EndsNumber;
    if ps != [] {
      var t, rest := PieceText(ps[0]), ps[1..];
      AtSplit(doc, p, t, Render(rest));
      ReadPieceAt(doc, p, ps[0]);
      ScanRender(doc, p + |t|, rest);
      assert Patterns(ps)[1..] == Patterns(rest);
      assert Values(ps) == [ValueOf(ps[0])] + Values(rest);
    }
  }

  /** A pattern that does not fit what follows a template makes the scan fail. */
  lemma {:induction false} ScanFails(doc: string, p: nat, ps: seq<Piece>, pat: Pattern)
    requires At(doc, p, Render(ps)) && Unambiguous(ps) && ReadPiece(doc, p + |Render(ps)|, pat).None?
    ensures Scan(doc, p, Patterns(ps) + [pat]).None?
    decreases |ps|
  {
    hide ReadPiece, At, PieceText;
    var pats := Patterns(ps) + [pat];
    if ps == [] {
      assert pats == [pat];
    } else {
      var t, rest := PieceText(ps[0]), ps[1..];
      AtSplit(doc, p, t, Render(rest));
      ReadPieceAt(doc, p, ps[0]);
      ScanFails(doc, p + |t|, rest, pat);
      assert pats[1..] == Patterns(rest) + [pat];
    }
  }

  lemma AtNested(doc: string, p: nat, s: string, q: nat, t: string)
    requires At(doc, p, s) && At(s, q, t)
    ensures At(doc, p + q, t)
  {
    assert forall i :: 0 <= i < |t| ==> t[i] == s[q..q + |t|][i] == s[q + i];
    assert forall i :: 0 <= i < |s| ==> s[i] == doc[p..p + |s|][i] == doc[p + i];
  }
}
