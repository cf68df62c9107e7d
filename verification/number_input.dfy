/**
 The keystroke filter of the numeric input field: for a candidate text, the
 field either rejects it (the displayed text and the last emitted number stay
 as they were) or accepts it, displays it, and emits its numeric value rounded
 to the configured number of decimal places.
 */
module NumberInput {
  import opened Numeric

  predicate IsDigit(ch: char) {
    '0' <= ch <= '9'
  }

  predicate AllDigits(s: string) {
    forall i :: 0 <= i < |s| ==> IsDigit(s[i])
  }

  /**
   A decimal numeral as the mask admits it: an optional minus sign, whole
   digits, an optional point and fraction digits. Without a point there are no
   fraction digits (the mask cannot tell them from whole digits).
   */
  datatype Numeral = Numeral(negative: bool, whole: string, hasPoint: bool, fraction: string)
  {
    predicate WellFormed() {
      AllDigits(whole) && AllDigits(fraction) && (!hasPoint ==> fraction == [])
    }
  }

  function Render(n: Numeral): string {
    (if n.negative then "-" else "") + n.whole + (if n.hasPoint then "." else "") + n.fraction
  }

  /** The position of the first decimal point, or the length when there is none. */
  function IndexOfPoint(s: string): (i: nat)
    ensures i <= |s|
    ensures i < |s| ==> s[i] == '.'
    ensures forall j :: 0 <= j < i ==> s[j] != '.'
  {
    if |s| == 0 || s[0] == '.' then 0 else 1 + IndexOfPoint(s[1..])
  }

  function Unsigned(s: string): string {
    if |s| > 0 && s[0] == '-' then s[1..] else s
  }

  /**
   The mask `^-?[0-9]*\.?[0-9]{0,d}$`: after an optional leading minus, digits
   up to the first point, and after it at most `d` further digits and nothing else.
   */
  predicate MatchesMask(s: string, d: nat) {
    UnsignedMatchesMask(Unsigned(s), d)
  }

  /** The mask without its optional minus sign. */
  predicate UnsignedMatchesMask(body: string, d: nat) {
    var i := IndexOfPoint(body);
    AllDigits(body[..i]) && (i == |body| || (AllDigits(body[i + 1..]) && |body| - (i + 1) <= d))
  }

  /** Splits a text into sign, whole digits, point and fraction digits at the first point. */
  function Decompose(s: string): Numeral {
    SplitAtFirstPoint(|s| > 0 && s[0] == '-', Unsigned(s))
  }

  function SplitAtFirstPoint(negative: bool, body: string): Numeral {
    var i := IndexOfPoint(body);
    if i == |body| then Numeral(negative, body, false, [])
    else Numeral(negative, body[..i], true, body[i + 1..])
  }

  function DigitValue(ch: char): (v: nat)
    requires IsDigit(ch)
    ensures v <= 9
  {
    ch as int - '0' as int
  }

  /** The value of a digit string read in base ten (the empty string reads as zero). */
  function DigitsValue(s: string): nat
    requires AllDigits(s)
  {
    if |s| == 0 then 0 else 10 * DigitsValue(s[..|s| - 1]) + DigitValue(s[|s| - 1])
  }

  function NumeralValue(n: Numeral): real
    requires n.WellFormed()
  {
    var magnitude := DigitsValue(n.whole) as real + Unshift(DigitsValue(n.fraction) as real, |n.fraction|);
    if n.negative then -magnitude else magnitude
  }

  /** `parseFloat` on a text the mask has admitted. */
  function ParseFloat(s: string): real
    requires Decompose(s).WellFormed()
  {
    NumeralValue(Decompose(s))
  }

  /** Digits never hold a point, so the first point lies after them. */
  lemma {:induction false} IndexOfPointAfterDigits(w: string, rest: string)
    requires AllDigits(w)
    ensures IndexOfPoint(w + rest) == |w| + IndexOfPoint(rest)
  {
    if |w| > 0 {
      assert (w + rest)[1..] == w[1..] + rest;
      IndexOfPointAfterDigits(w[1..], rest);
    } else {
      assert w + rest == rest;
    }
  }

  lemma NoPointInDigits(w: string)
    requires AllDigits(w)
    ensures IndexOfPoint(w) == |w|
  {
    IndexOfPointAfterDigits(w, []);
    assert w + [] == w;
  }

  /** Reading a masked text as a numeral and writing it back gives the text. */
  lemma DecomposeRender(s: string, d: nat)
    requires MatchesMask(s, d)
    ensures Decompose(s).WellFormed() && |Decompose(s).fraction| <= d
    ensures Render(Decompose(s)) == s
  {
    var negative := |s| > 0 && s[0] == '-';
    SplitRender(negative, Unsigned(s), d);
    SignSplit(s);
  }

  lemma SignSplit(s: string)
    ensures s == (if |s| > 0 && s[0] == '-' then "-" else "") + Unsigned(s)
  {
    if |s| > 0 && s[0] == '-' {
      assert s == [s[0]] + s[1..];
    }
  }

  lemma SplitRender(negative: bool, body: string, d: nat)
    requires UnsignedMatchesMask(body, d)
    ensures SplitAtFirstPoint(negative, body).WellFormed()
    ensures |SplitAtFirstPoint(negative, body).fraction| <= d
    ensures Render(SplitAtFirstPoint(negative, body)) == (if negative then "-" else "") + body
  {
    var i := IndexOfPoint(body);
    var sign: string := if negative then "-" else "";
    if i < |body| {
      assert body == body[..i] + [body[i]] + body[i + 1..];
      assert sign + body[..i] + "." + body[i + 1..] == sign + body;
    } else {
      assert body[..i] == body;
      assert sign + body + "" + "" == sign + body;
    }
  }

  /** Writing a numeral and reading it back gives the numeral, and the text passes the mask. */
  lemma RenderDecompose(n: Numeral)
    requires n.WellFormed()
    ensures Decompose(Render(n)) == n
    ensures MatchesMask(Render(n), |n.fraction|)
  {
    RenderedSign(n);
    SplitRendered(n);
  }

  /** The unsigned part of a numeral's rendering: whole digits, point, fraction. */
  function UnsignedText(n: Numeral): string {
    n.whole + (if n.hasPoint then "." else "") + n.fraction
  }

  lemma RenderedSign(n: Numeral)
    requires n.WellFormed()
    ensures (|Render(n)| > 0 && Render(n)[0] == '-') == n.negative
    ensures Unsigned(Render(n)) == UnsignedText(n)
  {
    var body := UnsignedText(n);
    var s := Render(n);
    assert s == (if n.negative then "-" else "") + body;
    if n.negative {
      assert s[1..] == body;
    } else if |s| > 0 {
      assert s[0] == body[0];
      if |n.whole| > 0 {
        assert IsDigit(n.whole[0]);
      }
    }
  }

  lemma SplitRendered(n: Numeral)
    requires n.WellFormed()
    ensures SplitAtFirstPoint(n.negative, UnsignedText(n)) == n
    ensures UnsignedMatchesMask(UnsignedText(n), |n.fraction|)
  {
    var tail := (if n.hasPoint then "." else "") + n.fraction;
    var body := UnsignedText(n);
    assert body == n.whole + tail;
    IndexOfPointAfterDigits(n.whole, tail);
    if n.hasPoint {
      assert body[..|n.whole|] == n.whole;
      assert body[|n.whole| + 1..] == n.fraction;
    } else {
      assert tail == [];
      assert body == n.whole;
    }
  }

  /** `x / 10^m` lies on the grid of `d >= m` decimal places when `x` is whole. */
  lemma UnshiftOnGrid(k: nat, m: nat, d: nat)
    requires m <= d
    ensures OnGrid(Unshift(k as real, m), d)
  {
    var x := Unshift(k as real, m);
    ShiftUnshift(k as real, m);
    ShiftCompose(x, m, d - m);
    IntFloor(k);
    ShiftInteger(k as real, d - m);
  }

  /** An unsigned numeral with at most `d` fraction digits is a multiple of `10^-d`. */
  lemma NumeralOnGrid(n: Numeral, d: nat)
    requires n.WellFormed() && !n.negative && |n.fraction| <= d
    ensures OnGrid(NumeralValue(n), d)
    ensures NumeralValue(n) >= 0.0
  {
    var w := DigitsValue(n.whole);
    var f := Unshift(DigitsValue(n.fraction) as real, |n.fraction|);
    IntFloor(w);
    IntegerOnGrid(w as real, d);
    UnshiftOnGrid(DigitsValue(n.fraction), |n.fraction|, d);
    OnGridAdd(w as real, f, d);
    UnshiftMonotone(0.0, DigitsValue(n.fraction) as real, |n.fraction|);
    UnshiftZero(|n.fraction|);
  }

  /**
   The numerals the field accepts when `minValue` is not negative: no sign, at
   least one whole digit, at most `d` fraction digits, and no point at all when
   `d` is zero.
   */
  predicate Admissible(n: Numeral, d: nat) {
    && n.WellFormed()
    && !n.negative
    && |n.whole| >= 1
    && |n.fraction| <= d
    && (d == 0 ==> !n.hasPoint)
  }

  datatype Outcome = Reject | Accept(display: string, emitted: real)

  /**
   The change handler: mask check, the empty text clearing the field to zero,
   then the rejections for a leading point, a point when no decimals are
   allowed, a minus sign when negative values are not allowed, and values above
   the maximum or below the minimum; an accepted text is displayed and its
   value emitted, rounded to `decimalPlaces` places.
   */
  function HandleInputChange(candidate: string, minValue: real, maxValue: real, decimalPlaces: nat): (r: Outcome)
    requires minValue >= 0.0
    ensures r.Accept? ==> r.display == candidate
    ensures candidate == [] ==> r == Accept([], 0.0)
    ensures r.Accept? && candidate != [] ==>
              && Admissible(Decompose(candidate), decimalPlaces)
              && Render(Decompose(candidate)) == candidate
              && r.emitted == NumeralValue(Decompose(candidate))
              && minValue <= r.emitted <= maxValue
  {
    if !MatchesMask(candidate, decimalPlaces) then Reject
    else if candidate == [] then Accept([], 0.0)
    else if candidate[0] == '.' then Reject
    else if decimalPlaces == 0 && '.' in candidate then Reject
    else if minValue >= 0.0 && '-' in candidate then Reject
    else
      DecomposeRender(candidate, decimalPlaces);
      var value := ParseFloat(candidate);
      if value > maxValue then Reject
      else if value < minValue then Reject
      else
        AcceptedShape(candidate, decimalPlaces);
        NumeralOnGrid(Decompose(candidate), decimalPlaces);
        ToFixedOnGrid(value, decimalPlaces);
        Accept(candidate, ToFixed(value, decimalPlaces))
  }

  /** A masked, non-empty text without a minus sign, leading point, or (for `d == 0`) any point is admissible. */
  lemma AcceptedShape(s: string, d: nat)
    requires MatchesMask(s, d) && s != [] && s[0] != '.' && '-' !in s
    requires d == 0 ==> '.' !in s
    ensures Admissible(Decompose(s), d)
  {
    DecomposeRender(s, d);
    var n := Decompose(s);
    assert !n.negative;
  }

  /** Every admissible numeral within the bounds is accepted as typed, and its exact value is emitted. */
  lemma AcceptsAdmissible(n: Numeral, minValue: real, maxValue: real, d: nat)
    requires minValue >= 0.0 && Admissible(n, d)
    requires minValue <= NumeralValue(n) <= maxValue
    ensures HandleInputChange(Render(n), minValue, maxValue, d) == Accept(Render(n), NumeralValue(n))
  {
    var s := Render(n);
    RenderDecompose(n);
    MaskWiderFraction(s, |n.fraction|, d);
    RenderedShape(n, d);
  }

  lemma MaskWiderFraction(s: string, d1: nat, d2: nat)
    requires MatchesMask(s, d1) && d1 <= d2
    ensures MatchesMask(s, d2)
  {
  }

  lemma RenderedShape(n: Numeral, d: nat)
    requires Admissible(n, d)
    ensures Render(n) != [] && Render(n)[0] != '.'
    ensures '-' !in Render(n)
    ensures d == 0 ==> '.' !in Render(n)
  {
    var s := Render(n);
    var tail := (if n.hasPoint then "." else "") + n.fraction;
    assert s == n.whole + tail;
    assert s[0] == n.whole[0];
    assert forall i :: 0 <= i < |s| ==> s[i] != '-' by {
      forall i | 0 <= i < |s|
        ensures s[i] != '-'
      {
        if i < |n.whole| {
          assert s[i] == n.whole[i];
        } else if n.hasPoint && i == |n.whole| {
          assert s[i] == '.';
        } else {
          assert s[i] == n.fraction[i - |n.whole| - (if n.hasPoint then 1 else 0)];
        }
      }
    }
    if d == 0 {
      assert s == n.whole;
    }
  }

  /**
   A non-empty text is accepted exactly when it is the writing of an admissible
   numeral whose value lies within the bounds.
   */
  lemma AcceptedIffAdmissible(candidate: string, minValue: real, maxValue: real, d: nat)
    requires minValue >= 0.0 && candidate != []
    ensures HandleInputChange(candidate, minValue, maxValue, d).Accept? <==>
              && Admissible(Decompose(candidate), d)
              && Render(Decompose(candidate)) == candidate
              && minValue <= NumeralValue(Decompose(candidate)) <= maxValue
  {
    var n := Decompose(candidate);
    if Admissible(n, d) && Render(n) == candidate && minValue <= NumeralValue(n) <= maxValue {
      AcceptsAdmissible(n, minValue, maxValue, d);
    }
  }

  /** What the field shows and the number it last emitted. */
  datatype FieldState = FieldState(display: string, lastEmitted: real)

  /** One change event: a rejected candidate leaves the field as it was. */
  function Change(state: FieldState, candidate: string, minValue: real, maxValue: real, d: nat): (next: FieldState)
    requires minValue >= 0.0
    ensures HandleInputChange(candidate, minValue, maxValue, d).Reject? ==> next == state
    ensures HandleInputChange(candidate, minValue, maxValue, d).Accept? ==> next.display == candidate
  {
    match HandleInputChange(candidate, minValue, maxValue, d)
    case Reject => state
    case Accept(text, value) => FieldState(text, value)
  }

  /** Typing: every keystroke offers the displayed text with one more character appended. */
  function TypeText(state: FieldState, keys: string, minValue: real, maxValue: real, d: nat): FieldState
    requires minValue >= 0.0
    decreases |keys|
  {
    if keys == [] then state
    else TypeText(Change(state, state.display + [keys[0]], minValue, maxValue, d), keys[1..], minValue, maxValue, d)
  }

  const Empty: FieldState := FieldState([], 0.0)

  /** Typing two pieces of text one after the other is typing their concatenation. */
  lemma {:induction false} TypeTextAppend(state: FieldState, first: string, second: string, minValue: real, maxValue: real, d: nat)
    requires minValue >= 0.0
    ensures TypeText(state, first + second, minValue, maxValue, d)
            == TypeText(TypeText(state, first, minValue, maxValue, d), second, minValue, maxValue, d)
    decreases |first|
  {
    if first != [] {
      assert (first + second)[0] == first[0];
      assert (first + second)[1..] == first[1..] + second;
      TypeTextAppend(Change(state, state.display + [first[0]], minValue, maxValue, d), first[1..], second, minValue, maxValue, d);
    } else {
      assert first + second == second;
    }
  }

  /** An accepted keystroke moves the field to the typed numeral and its value. */
  lemma TypeAccepted(state: FieldState, key: char, rest: string, n: Numeral, minValue: real, maxValue: real, d: nat)
    requires minValue >= 0.0 && Admissible(n, d) && Render(n) == state.display + [key]
    requires minValue <= NumeralValue(n) <= maxValue
    ensures TypeText(state, [key] + rest, minValue, maxValue, d)
            == TypeText(FieldState(Render(n), NumeralValue(n)), rest, minValue, maxValue, d)
  {
    AcceptsAdmissible(n, minValue, maxValue, d);
    assert ([key] + rest)[1..] == rest;
  }

  /** A rejected keystroke is lost: typing continues from the unchanged field. */
  lemma TypeRejected(state: FieldState, key: char, rest: string, minValue: real, maxValue: real, d: nat)
    requires minValue >= 0.0 && HandleInputChange(state.display + [key], minValue, maxValue, d).Reject?
    ensures TypeText(state, [key] + rest, minValue, maxValue, d) == TypeText(state, rest, minValue, maxValue, d)
  {
    assert ([key] + rest)[1..] == rest;
  }

  lemma RejectsAboveMax(n: Numeral, minValue: real, maxValue: real, d: nat)
    requires minValue >= 0.0 && Admissible(n, d) && NumeralValue(n) > maxValue
    ensures HandleInputChange(Render(n), minValue, maxValue, d).Reject?
  {
    RenderDecompose(n);
    AcceptedIffAdmissible(Render(n), minValue, maxValue, d);
  }

  /**
   The field shows either nothing, having emitted zero, or an admissible
   numeral within the bounds, having emitted exactly its value.
   */
  predicate Consistent(state: FieldState, minValue: real, maxValue: real, d: nat) {
    || state == Empty
    || (&& Admissible(Decompose(state.display), d)
        && Render(Decompose(state.display)) == state.display
        && minValue <= NumeralValue(Decompose(state.display)) <= maxValue
        && state.lastEmitted == NumeralValue(Decompose(state.display)))
  }

  lemma ChangeKeepsConsistent(state: FieldState, candidate: string, minValue: real, maxValue: real, d: nat)
    requires minValue >= 0.0 && Consistent(state, minValue, maxValue, d)
    ensures Consistent(Change(state, candidate, minValue, maxValue, d), minValue, maxValue, d)
  {
  }

  /** Whatever is typed, the field only ever shows what it would accept, and emits what it shows. */
  lemma {:induction false} TypeTextKeepsConsistent(state: FieldState, keys: string, minValue: real, maxValue: real, d: nat)
    requires minValue >= 0.0 && Consistent(state, minValue, maxValue, d)
    ensures Consistent(TypeText(state, keys, minValue, maxValue, d), minValue, maxValue, d)
    decreases |keys|
  {
    if keys != [] {
      var next := Change(state, state.display + [keys[0]], minValue, maxValue, d);
      ChangeKeepsConsistent(state, state.display + [keys[0]], minValue, maxValue, d);
      TypeTextKeepsConsistent(next, keys[1..], minValue, maxValue, d);
    }
  }

  /** Typing "30" with two decimal places and a maximum of 2000.01 shows "30" and emits 30. */
  lemma TypingThirty()
    ensures TypeText(Empty, "30", 0.0, 2000.01, 2) == FieldState("30", 30.0)
  {
    assert "30" == "3" + "0";
    TypeTextAppend(Empty, "3", "0", 0.0, 2000.01, 2);
    TypingThree();
    TypingZeroAfterThree();
  }

  lemma TypingThree()
    ensures TypeText(Empty, "3", 0.0, 2000.01, 2) == FieldState("3", 3.0)
  {
    assert "3" == ['3'] + "";
    TypeAccepted(Empty, '3', "", Numeral(false, "3", false, ""), 0.0, 2000.01, 2);
  }

  lemma TypingZeroAfterThree()
    ensures TypeText(FieldState("3", 3.0), "0", 0.0, 2000.01, 2) == FieldState("30", 30.0)
  {
    assert "0" == ['0'] + "";
    assert DigitsValue("30") == 30 by {
      assert "30"[..1] == "3";
    }
    TypeAccepted(FieldState("3", 3.0), '0', "", Numeral(false, "30", false, ""), 0.0, 2000.01, 2);
  }

  /** Where negative values are not allowed, no text with a minus sign is accepted. */
  lemma RejectsMinus(candidate: string, minValue: real, maxValue: real, d: nat)
    requires minValue >= 0.0 && '-' in candidate
    ensures HandleInputChange(candidate, minValue, maxValue, d).Reject?
  {
  }

  /** Without decimal places, no text with a point is accepted. */
  lemma RejectsPointWithoutDecimals(candidate: string, minValue: real, maxValue: real)
    requires minValue >= 0.0 && '.' in candidate
    ensures HandleInputChange(candidate, minValue, maxValue, 0).Reject?
  {
  }

  /** A leading point is never accepted. */
  lemma RejectsLeadingPoint(candidate: string, minValue: real, maxValue: real, d: nat)
    requires minValue >= 0.0 && candidate != [] && candidate[0] == '.'
    ensures HandleInputChange(candidate, minValue, maxValue, d).Reject?
  {
  }

  lemma TypingFifty()
    ensures TypeText(Empty, "50", 0.0, 2000.01, 2) == FieldState("50", 50.0)
  {
    assert "50" == "5" + "0";
    TypeTextAppend(Empty, "5", "0", 0.0, 2000.01, 2);
    TypingFive();
    TypingZeroAfterFive();
  }

  lemma TypingFive()
    ensures TypeText(Empty, "5", 0.0, 2000.01, 2) == FieldState("5", 5.0)
  {
    assert "5" == ['5'] + "";
    TypeAccepted(Empty, '5', "", Numeral(false, "5", false, ""), 0.0, 2000.01, 2);
  }

  lemma TypingZeroAfterFive()
    ensures TypeText(FieldState("5", 5.0), "0", 0.0, 2000.01, 2) == FieldState("50", 50.0)
  {
    assert "0" == ['0'] + "";
    assert DigitsValue("50") == 50 by {
      assert "50"[..1] == "5";
    }
    TypeAccepted(FieldState("5", 5.0), '0', "", Numeral(false, "50", false, ""), 0.0, 2000.01, 2);
  }

  /** Typing "-50" where negative values are not allowed: the minus is lost. */
  lemma TypingMinusFifty()
    ensures TypeText(Empty, "-50", 0.0, 2000.01, 2) == FieldState("50", 50.0)
  {
    assert "-50" == ['-'] + "50";
    RejectsMinus(Empty.display + ['-'], 0.0, 2000.01, 2);
    TypeRejected(Empty, '-', "50", 0.0, 2000.01, 2);
    TypingFifty();
  }

  lemma TypingFiveWhole()
    ensures TypeText(Empty, "5", 1.0, 100000.0, 0) == FieldState("5", 5.0)
  {
    assert "5" == ['5'] + "";
    TypeAccepted(Empty, '5', "", Numeral(false, "5", false, ""), 1.0, 100000.0, 0);
  }

  lemma TypingFourAfterFive()
    ensures TypeText(FieldState("5", 5.0), "4", 1.0, 100000.0, 0) == FieldState("54", 54.0)
  {
    assert "4" == ['4'] + "";
    assert DigitsValue("54") == 54 by {
      assert "54"[..1] == "5";
    }
    TypeAccepted(FieldState("5", 5.0), '4', "", Numeral(false, "54", false, ""), 1.0, 100000.0, 0);
  }

  lemma TypingPointAfterFive()
    ensures TypeText(FieldState("5", 5.0), ".4", 1.0, 100000.0, 0)
            == TypeText(FieldState("5", 5.0), "4", 1.0, 100000.0, 0)
  {
    assert ".4" == ['.'] + "4";
    RejectsPointWithoutDecimals("5" + ['.'], 1.0, 100000.0);
    TypeRejected(FieldState("5", 5.0), '.', "4", 1.0, 100000.0, 0);
  }

  /** Typing "5.4" into a whole-number field: the point is lost. */
  lemma TypingPointIntoWholeNumberField()
    ensures TypeText(Empty, "5.4", 1.0, 100000.0, 0) == FieldState("54", 54.0)
  {
    assert "5.4" == "5" + ".4";
    TypeTextAppend(Empty, "5", ".4", 1.0, 100000.0, 0);
    TypingFiveWhole();
    TypingPointAfterFive();
    TypingFourAfterFive();
  }

  /** A trailing point is shown, and the whole part is emitted. */
  lemma TypingTrailingPoint()
    ensures TypeText(Empty, "1.", 0.0, 2000.0, 2) == FieldState("1.", 1.0)
  {
    assert "1." == "1" + ".";
    TypeTextAppend(Empty, "1", ".", 0.0, 2000.0, 2);
    TypingOne();
    TypingPointAfterOne();
  }

  lemma TypingOne()
    ensures TypeText(Empty, "1", 0.0, 2000.0, 2) == FieldState("1", 1.0)
  {
    assert "1" == ['1'] + "";
    TypeAccepted(Empty, '1', "", Numeral(false, "1", false, ""), 0.0, 2000.0, 2);
  }

  lemma TypingPointAfterOne()
    ensures TypeText(FieldState("1", 1.0), ".", 0.0, 2000.0, 2) == FieldState("1.", 1.0)
  {
    assert "." == ['.'] + "";
    TypeAccepted(FieldState("1", 1.0), '.', "", Numeral(false, "1", true, ""), 0.0, 2000.0, 2);
  }

  /** Letters never pass the mask. */
  lemma TypingLetters()
    ensures TypeText(Empty, "abc", 0.0, 2000.0, 0) == Empty
  {
    assert "abc" == ['a'] + "bc";
    TypeRejected(Empty, 'a', "bc", 0.0, 2000.0, 0);
    assert "bc" == ['b'] + "c";
    TypeRejected(Empty, 'b', "c", 0.0, 2000.0, 0);
    assert "c" == ['c'] + "";
    TypeRejected(Empty, 'c', "", 0.0, 2000.0, 0);
  }

  /** Pasting a negative amount into an empty field leaves it empty; clearing emits zero. */
  lemma PasteAndClearExamples()
    ensures Change(Empty, "-100", 0.0, 2000.01, 2) == Empty
    ensures Change(FieldState("30", 30.0), "", 0.0, 2000.0, 0) == Empty
  {
  }

  /** With a maximum of 2000.01, typing "2001" stops at "200". */
  lemma TypingAboveMaximum()
    ensures TypeText(FieldState("200", 200.0), "1", 0.0, 2000.01, 2) == FieldState("200", 200.0)
  {
    assert "1" == ['1'] + "";
    assert DigitsValue("2001") == 2001 by {
      assert "2001"[..3] == "200";
      assert "200"[..2] == "20";
      assert "20"[..1] == "2";
    }
    RejectsAboveMax(Numeral(false, "2001", false, ""), 0.0, 2000.01, 2);
    assert Render(Numeral(false, "2001", false, "")) == "200" + ['1'];
    TypeRejected(FieldState("200", 200.0), '1', "", 0.0, 2000.01, 2);
  }

  /** With a maximum of 2000.01, typing "20000" stops at "2000". */
  lemma TypingPastMaximum()
    ensures TypeText(FieldState("2000", 2000.0), "0", 0.0, 2000.01, 2) == FieldState("2000", 2000.0)
  {
    assert "0" == ['0'] + "";
    assert DigitsValue("20000") == 20000 by {
      assert "20000"[..4] == "2000";
      assert "2000"[..3] == "200";
      assert "200"[..2] == "20";
      assert "20"[..1] == "2";
    }
    RejectsAboveMax(Numeral(false, "20000", false, ""), 0.0, 2000.01, 2);
    assert Render(Numeral(false, "20000", false, "")) == "2000" + ['0'];
    TypeRejected(FieldState("2000", 2000.0), '0', "", 0.0, 2000.01, 2);
  }
}
