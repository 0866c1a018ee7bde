/** The numbers the walker accepts are those of section 6 of RFC 8259 (internal/jsonx/rewrite.go:712-786). */
module JsonNumber {
  import opened Sections
  import opened JsonScan

  /** exp = ("e" / "E") ["-" / "+"] 1*DIGIT */
  datatype Exponent = Exponent(mark: byte, sign: seq<byte>, digits: seq<byte>)

  /** number = ["-"] int ["." 1*DIGIT] [exp] */
  datatype NumberText = NumberText(negative: bool, whole: seq<byte>, fraction: Option<seq<byte>>,
                                   exponent: Option<Exponent>)

  predicate Digits(s: seq<byte>) { forall k :: 0 <= k < |s| ==> IsDigit(s[k]) }

  predicate GoodExponent(e: Exponent) {
    && (e.mark == 0x65 || e.mark == 0x45)
    && (e.sign == [] || e.sign == [PLUS] || e.sign == [MINUS])
    && e.digits != [] && Digits(e.digits)
  }

  predicate GoodNumber(n: NumberText) {
    && n.whole != [] && Digits(n.whole) && (n.whole[0] == ZERO ==> |n.whole| == 1)
    && (n.fraction.Some? ==> n.fraction.value != [] && Digits(n.fraction.value))
    && (n.exponent.Some? ==> GoodExponent(n.exponent.value))
  }

  function ExponentRaw(e: Option<Exponent>): seq<byte> {
    if e.None? then [] else [e.value.mark] + (e.value.sign + e.value.digits)
  }

  function FractionRaw(f: Option<seq<byte>>): seq<byte> { if f.None? then [] else [POINT] + f.value }

  function NumberRaw(n: NumberText): seq<byte> {
    (if n.negative then [MINUS] else []) + (n.whole + (FractionRaw(n.fraction) + ExponentRaw(n.exponent)))
  }

  /** The state after all of s, if the grammar takes it. */
  function Takes(state: NumState, s: seq<byte>): Option<NumState>
    decreases |s|
  {
    if s == [] then Some(state)
    else if NumStep(state, s[0]).None? then None
    else Takes(NumStep(state, s[0]).value, s[1..])
  }

  /** s from state on is the rest of a number. */
  predicate Completes(state: NumState, s: seq<byte>) {
    Takes(state, s).Some? && NumComplete(Takes(state, s).value)
  }

  lemma {:induction false} TakesJoin(state: NumState, a: seq<byte>, b: seq<byte>)
    requires Takes(state, a).Some?
    ensures Takes(state, a + b) == Takes(Takes(state, a).value, b)
    decreases |a|
  {
    if a == [] {
      assert a + b == b;
    } else {
      assert (a + b)[1..] == a[1..] + b;
      TakesJoin(NumStep(state, a[0]).value, a[1..], b);
    }
  }

  /** Digits keep an integer, fraction or exponent going. */
  lemma {:induction false} TakesDigits(state: NumState, s: seq<byte>)
    requires Digits(s) && (state == NumInt || state == NumFrac || state == NumExp)
    ensures Takes(state, s) == Some(state)
    decreases |s|
  {
    if s != [] { TakesDigits(state, s[1..]); }
  }

  lemma TakesFirst(state: NumState, s: seq<byte>, next: NumState)
    requires s != [] && Digits(s)
    requires NumStep(state, s[0]) == Some(next) && (next == NumInt || next == NumFrac || next == NumExp)
    ensures Takes(state, s) == Some(next)
  {
    TakesDigits(next, s[1..]);
  }

  /** An exponent can follow an integer or a fraction, and completes the number. */
  lemma ExponentTaken(state: NumState, e: Option<Exponent>)
    requires state == NumZero || state == NumInt || state == NumFrac
    requires e.Some? ==> GoodExponent(e.value)
    ensures Completes(state, ExponentRaw(e))
  {
    if e.Some? {
      var mark, rest := [e.value.mark], e.value.sign + e.value.digits;
      assert mark[1..] == [];
      assert Takes(state, mark) == Some(NumE);
      TakesJoin(state, mark, rest);
      if e.value.sign == [] {
        assert rest == e.value.digits;
        TakesFirst(NumE, e.value.digits, NumExp);
      } else {
        assert e.value.sign[1..] == [];
        assert Takes(NumE, e.value.sign) == Some(NumESign);
        TakesJoin(NumE, e.value.sign, e.value.digits);
        TakesFirst(NumESign, e.value.digits, NumExp);
      }
    }
  }

  lemma FractionTaken(state: NumState, f: Option<seq<byte>>)
    requires state == NumZero || state == NumInt
    requires f.Some? ==> f.value != [] && Digits(f.value)
    ensures Takes(state, FractionRaw(f)) == Some(if f.Some? then NumFrac else state)
  {
    if f.Some? {
      assert [POINT][1..] == [];
      assert Takes(state, [POINT]) == Some(NumDot);
      TakesJoin(state, [POINT], f.value);
      TakesFirst(NumDot, f.value, NumFrac);
    }
  }

  lemma WholeTaken(state: NumState, s: seq<byte>)
    requires state == NumStart || state == NumSign
    requires s != [] && Digits(s) && (s[0] == ZERO ==> |s| == 1)
    ensures Takes(state, s) == Some(if s[0] == ZERO then NumZero else NumInt)
  {
    if s[0] == ZERO {
      assert s[1..] == [];
    } else {
      TakesFirst(state, s, NumInt);
    }
  }

  /** Every number of the RFC is taken. */
  lemma NumberTaken(n: NumberText)
    requires GoodNumber(n)
    ensures Completes(NumStart, NumberRaw(n))
  {
    var sign := if n.negative then [MINUS] else [];
    var state := if n.negative then NumSign else NumStart;
    var rest := FractionRaw(n.fraction) + ExponentRaw(n.exponent);
    assert [MINUS][1..] == [];
    assert Takes(NumStart, sign) == Some(state);
    TakesJoin(NumStart, sign, n.whole + rest);
    WholeTaken(state, n.whole);
    TakesJoin(state, n.whole, rest);
    var whole := if n.whole[0] == ZERO then NumZero else NumInt;
    FractionTaken(whole, n.fraction);
    TakesJoin(whole, FractionRaw(n.fraction), ExponentRaw(n.exponent));
    ExponentTaken(if n.fraction.Some? then NumFrac else whole, n.exponent);
  }

  lemma CompletesStep(state: NumState, s: seq<byte>)
    requires Completes(state, s)
    ensures s == [] ==> NumComplete(state)
    ensures s != [] ==> NumStep(state, s[0]).Some? && Completes(NumStep(state, s[0]).value, s[1..])
  {}

  lemma Split(s: seq<byte>, a: seq<byte>, b: seq<byte>)
    requires s != [] && s[1..] == a + b
    ensures s == ([s[0]] + a) + b
  {}

  lemma DigitsFirst(c: byte, a: seq<byte>)
    requires IsDigit(c) && Digits(a)
    ensures Digits([c] + a) && [c] + a != [] && ([c] + a)[0] == c
  {}

  /** What completes an exponent is digits. */
  lemma {:induction false} ExpDigits(s: seq<byte>)
    requires Completes(NumExp, s)
    ensures Digits(s)
    decreases |s|
  {
    CompletesStep(NumExp, s);
    if s != [] { ExpDigits(s[1..]); }
  }

  lemma SignedDigits(state: NumState, s: seq<byte>)
    requires Completes(state, s) && (state == NumESign || (state == NumE && s != [] && s[0] != PLUS && s[0] != MINUS))
    ensures s != [] && Digits(s)
  {
    CompletesStep(state, s);
    ExpDigits(s[1..]);
  }

  lemma AfterE(mark: byte, s: seq<byte>) returns (e: Exponent)
    requires Completes(NumE, s) && (mark == 0x65 || mark == 0x45)
    ensures GoodExponent(e) && ExponentRaw(Some(e)) == [mark] + s
  {
    CompletesStep(NumE, s);
    if s[0] == PLUS || s[0] == MINUS {
      e := Exponent(mark, [s[0]], s[1..]);
      SignedDigits(NumESign, s[1..]);
      assert s == [s[0]] + s[1..];
    } else {
      e := Exponent(mark, [], s);
      SignedDigits(NumE, s);
      assert [] + s == s;
    }
  }

  /** What completes a number after its integer or fraction: digits, and perhaps an exponent. */
  lemma {:induction false} AfterFrac(s: seq<byte>) returns (digits: seq<byte>, e: Option<Exponent>)
    requires Completes(NumFrac, s)
    ensures s == digits + ExponentRaw(e) && Digits(digits) && (e.Some? ==> GoodExponent(e.value))
    decreases |s|
  {
    digits, e := [], None;
    CompletesStep(NumFrac, s);
    if s != [] {
      if IsDigit(s[0]) {
        digits, e := AfterFrac(s[1..]);
        hide *;
        Split(s, digits, ExponentRaw(e));
        DigitsFirst(s[0], digits);
        digits := [s[0]] + digits;
      } else {
        var exp := AfterE(s[0], s[1..]);
        e := Some(exp);
        assert s == [s[0]] + s[1..];
      }
    }
  }

  lemma AfterDot(s: seq<byte>) returns (f: seq<byte>, e: Option<Exponent>)
    requires Completes(NumDot, s)
    ensures f != [] && Digits(f) && (e.Some? ==> GoodExponent(e.value)) && s == f + ExponentRaw(e)
  {
    CompletesStep(NumDot, s);
    f, e := AfterFrac(s[1..]);
    hide ExponentRaw, Completes;
    Split(s, f, ExponentRaw(e));
    DigitsFirst(s[0], f);
    f := [s[0]] + f;
  }

  /** The end of a number: perhaps a fraction, and perhaps an exponent. */
  ghost predicate Tail(s: seq<byte>, f: Option<seq<byte>>, e: Option<Exponent>) {
    && s == FractionRaw(f) + ExponentRaw(e)
    && (f.Some? ==> f.value != [] && Digits(f.value)) && (e.Some? ==> GoodExponent(e.value))
  }

  lemma AfterWhole(state: NumState, s: seq<byte>) returns (f: Option<seq<byte>>, e: Option<Exponent>)
    requires (state == NumInt || state == NumZero) && Completes(state, s) && (s != [] ==> !IsDigit(s[0]))
    ensures Tail(s, f, e)
  {
    f, e := None, None;
    CompletesStep(state, s);
    if s != [] {
      if s[0] == POINT {
        var frac, exp := AfterDot(s[1..]);
        f, e := Some(frac), exp;
        Split(s, frac, ExponentRaw(exp));
      } else {
        var exp := AfterE(s[0], s[1..]);
        e := Some(exp);
        assert s == [s[0]] + s[1..];
      }
    }
  }

  lemma {:induction false} AfterInt(state: NumState, s: seq<byte>)
    returns (digits: seq<byte>, f: Option<seq<byte>>, e: Option<Exponent>, tail: seq<byte>)
    requires (state == NumInt || state == NumZero) && Completes(state, s)
    ensures s == digits + tail && Tail(tail, f, e) && Digits(digits) && (state == NumZero ==> digits == [])
    decreases |s|
  {
    CompletesStep(state, s);
    if s != [] && IsDigit(s[0]) {
      digits, f, e, tail := AfterInt(state, s[1..]);
      hide Completes, Tail;
      Split(s, digits, tail);
      DigitsFirst(s[0], digits);
      digits := [s[0]] + digits;
    } else {
      f, e := AfterWhole(state, s);
      digits, tail := [], s;
    }
  }

  lemma AfterSign(state: NumState, s: seq<byte>)
    returns (whole: seq<byte>, f: Option<seq<byte>>, e: Option<Exponent>, tail: seq<byte>)
    requires state == NumSign || (state == NumStart && (s != [] ==> s[0] != MINUS))
    requires Completes(state, s)
    ensures s == whole + tail && Tail(tail, f, e)
    ensures whole != [] && Digits(whole) && (whole[0] == ZERO ==> |whole| == 1)
  {
    CompletesStep(state, s);
    var digits;
    digits, f, e, tail := AfterInt(if s[0] == ZERO then NumZero else NumInt, s[1..]);
    hide Completes, Tail;
    Split(s, digits, tail);
    DigitsFirst(s[0], digits);
    whole := [s[0]] + digits;
  }

  lemma NumberRead(s: seq<byte>) returns (n: NumberText)
    requires Completes(NumStart, s)
    ensures GoodNumber(n) && NumberRaw(n) == s
  {
    CompletesStep(NumStart, s);
    var negative := s[0] == MINUS;
    var whole, f, e, tail := AfterSign(if negative then NumSign else NumStart, if negative then s[1..] else s);
    n := NumberText(negative, whole, f, e);
    assert negative ==> s == [MINUS] + s[1..];
  }

  /**
   * The automaton takes a text as a number exactly when it is a number of section 6 of RFC 8259.
   */
  lemma NumbersExact(s: seq<byte>)
    ensures Completes(NumStart, s) <==> exists n :: GoodNumber(n) && NumberRaw(n) == s
  {
    if Completes(NumStart, s) { var n := NumberRead(s); }
    if n :| GoodNumber(n) && NumberRaw(n) == s { NumberTaken(n); }
  }
}
