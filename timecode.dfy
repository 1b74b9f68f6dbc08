/**
 * `parseTimeToSeconds`, the timecode parser, in its two grammars:
 * the lenient one of src/utils/utils.ts (copied verbatim into src/server.ts),
 * where `const [hh = 0, mm = 0, ss = 0]` defaults an absent component to 0,
 * and the strict one of src/server.js, where `const [hh, mm, ss]` leaves an
 * absent component `undefined` and the arithmetic on it yields NaN.
 */
module TimeCode {
  import opened Js

  /** `hh * 3600 + mm * 60 + ss` on JavaScript numbers. */
  function Seconds(hh: Num, mm: Num, ss: Num): Num
  {
    Plus(Plus(Times(hh, 3600), Times(mm, 60)), ss)
  }

  /** Component `k` under the lenient grammar: an absent one is 0. */
  function LenientComponent(parts: seq<string>, k: nat): Num
  {
    if k < |parts| then ToNumber(parts[k]) else Val(0)
  }

  /** Component `k` under the strict grammar: an absent one is `undefined`, which is NaN in arithmetic. */
  function StrictComponent(parts: seq<string>, k: nat): Num
  {
    if k < |parts| then ToNumber(parts[k]) else NaN
  }

  /** The lenient `parseTimeToSeconds`; since components are digit strings, a number it returns is never negative. */
  function ParseLenient(timeStr: string): (n: Num)
    ensures n.Val? ==> n.v >= 0
  {
    var parts := Split(timeStr, ':');
    Seconds(LenientComponent(parts, 0), LenientComponent(parts, 1), LenientComponent(parts, 2))
  }

  /** The strict `parseTimeToSeconds`; since components are digit strings, a number it returns is never negative. */
  function ParseStrict(timeStr: string): (n: Num)
    ensures n.Val? ==> n.v >= 0
  {
    var parts := Split(timeStr, ':');
    Seconds(StrictComponent(parts, 0), StrictComponent(parts, 1), StrictComponent(parts, 2))
  }

  /** Which of the two grammars a handler uses. */
  function Parse(strict: bool, timeStr: string): (n: Num)
    ensures n.Val? ==> n.v >= 0
  {
    if strict then ParseStrict(timeStr) else ParseLenient(timeStr)
  }

  /** How "a:b" splits when neither piece holds a colon. */
  lemma SplitTwo(a: string, b: string)
    requires ':' !in a && ':' !in b
    ensures Split(a + ":" + b, ':') == [a, b]
  {
    SplitWithoutSeparator(a, ':');
    SplitWithoutSeparator(b, ':');
    SplitAround(a, b, ':');
  }

  /** How "h:m:s" splits when the three pieces are digit strings. */
  lemma SplitThree(h: string, m: string, s: string)
    requires IsDigits(h) && IsDigits(m) && IsDigits(s)
    ensures Split(h + ":" + m + ":" + s, ':') == [h, m, s]
  {
    DigitsAvoid(h, ':');
    DigitsAvoid(m, ':');
    DigitsAvoid(s, ':');
    var tail := m + ":" + s;
    SplitTwo(m, s);
    SplitWithoutSeparator(h, ':');
    SplitAround(h, tail, ':');
    assert h + ":" + m + ":" + s == h + [':'] + tail;
  }

  /** Lenient grammar, three numeric components: `hh*3600 + mm*60 + ss`. */
  lemma LenientThreeComponents(h: string, m: string, s: string)
    requires IsDigits(h) && IsDigits(m) && IsDigits(s)
    ensures ParseLenient(h + ":" + m + ":" + s)
         == Val(DigitsValue(h) * 3600 + DigitsValue(m) * 60 + DigitsValue(s))
  {
    SplitThree(h, m, s);
    ThreeDigitComponents(Split(h + ":" + m + ":" + s, ':'), h, m, s);
  }

  /** Three digit-string components give `hh*3600 + mm*60 + ss` under either grammar. */
  lemma ThreeDigitComponents(parts: seq<string>, h: string, m: string, s: string)
    requires parts == [h, m, s] && IsDigits(h) && IsDigits(m) && IsDigits(s)
    ensures Seconds(LenientComponent(parts, 0), LenientComponent(parts, 1), LenientComponent(parts, 2))
         == Seconds(StrictComponent(parts, 0), StrictComponent(parts, 1), StrictComponent(parts, 2))
         == Val(DigitsValue(h) * 3600 + DigitsValue(m) * 60 + DigitsValue(s))
  {
  }

  /** Lenient grammar, missing trailing components: a lone component is hours, two are hours and minutes. */
  lemma LenientMissingComponents(h: string, m: string)
    requires IsDigits(h) && IsDigits(m)
    ensures ParseLenient(h) == Val(DigitsValue(h) * 3600)
    ensures ParseLenient(h + ":" + m) == Val(DigitsValue(h) * 3600 + DigitsValue(m) * 60)
  {
    DigitsAvoid(h, ':');
    DigitsAvoid(m, ':');
    SplitWithoutSeparator(h, ':');
    SplitTwo(h, m);
  }

  /** Lenient grammar: anything after the third component is ignored. */
  lemma LenientIgnoresExtra(t: string, rest: string)
    requires |Split(t, ':')| >= 3
    ensures ParseLenient(t + ":" + rest) == ParseLenient(t)
  {
    SplitAround(t, rest, ':');
    assert t + ":" + rest == t + [':'] + rest;
  }

  /** The arithmetic yields NaN exactly when one of its three operands is NaN. */
  lemma SecondsNaN(hh: Num, mm: Num, ss: Num)
    ensures Seconds(hh, mm, ss).NaN? <==> hh.NaN? || mm.NaN? || ss.NaN?
  {
  }

  /** Lenient grammar: the result is NaN exactly when one of the first three components is not a digit string. */
  lemma LenientNaNIff(timeStr: string)
    ensures ParseLenient(timeStr).NaN?
        <==> exists k :: 0 <= k < 3 && k < |Split(timeStr, ':')| && !IsDigits(Split(timeStr, ':')[k])
  {
    var parts := Split(timeStr, ':');
    SecondsNaN(LenientComponent(parts, 0), LenientComponent(parts, 1), LenientComponent(parts, 2));
    assert ParseLenient(timeStr) == Seconds(LenientComponent(parts, 0), LenientComponent(parts, 1), LenientComponent(parts, 2));
    if ParseLenient(timeStr).NaN? {
      if LenientComponent(parts, 0).NaN? {
        assert 0 < |parts| && !IsDigits(parts[0]);
        assert exists k :: 0 <= k < 3 && k < |Split(timeStr, ':')| && !IsDigits(Split(timeStr, ':')[k]);
      } else if LenientComponent(parts, 1).NaN? {
        assert 1 < |parts| && !IsDigits(parts[1]);
        assert exists k :: 0 <= k < 3 && k < |Split(timeStr, ':')| && !IsDigits(Split(timeStr, ':')[k]);
      } else {
        assert 2 < |parts| && !IsDigits(parts[2]);
        assert exists k :: 0 <= k < 3 && k < |Split(timeStr, ':')| && !IsDigits(Split(timeStr, ':')[k]);
      }
    } else {
      forall k | 0 <= k < 3 && k < |parts|
        ensures IsDigits(parts[k])
      {
        if k == 0 {
          assert LenientComponent(parts, 0).Val?;
        } else if k == 1 {
          assert LenientComponent(parts, 1).Val?;
        } else {
          assert LenientComponent(parts, 2).Val?;
        }
      }
    }
  }

  /** Lenient grammar, worked value: a lone component is hours, so "5" is 18000 s. */
  lemma LenientLoneHours()
    ensures ParseLenient("5") == Val(18000)
  {
    LenientMissingComponents("5", "");
  }

  /** Lenient grammar, worked value: "1:2" is one hour and two minutes, 3720 s. */
  lemma LenientHoursMinutes()
    ensures ParseLenient("1:2") == Val(3720)
  {
    assert DigitsValue("1") == 1 && DigitsValue("2") == 2;
    assert "1:2" == "1" + ":" + "2";
    LenientMissingComponents("1", "2");
  }

  /** Lenient grammar, worked value: the empty string is 0. */
  lemma LenientEmptyString()
    ensures ParseLenient("") == Val(0)
  {
    assert Split("", ':') == [""];
  }

  /** Lenient grammar, worked value: empty components count as 0, so "::" is 0. */
  lemma LenientEmptyComponents()
    ensures ParseLenient("::") == Val(0)
  {
    SplitThree("", "", "");
    assert "::" == "" + ":" + "" + ":" + "";
  }

  /** Lenient grammar, worked value: a non-numeric component makes "1:x" NaN. */
  lemma LenientNaNExample()
    ensures ParseLenient("1:x").NaN?
  {
    SplitTwo("1", "x");
    assert Split("1:x", ':')[1] == "x" && !IsDigits("x");
  }

  /** Strict grammar: fewer than three components always give NaN. */
  lemma StrictNeedsThree(timeStr: string)
    requires |Split(timeStr, ':')| < 3
    ensures ParseStrict(timeStr).NaN?
  {
  }

  /** Strict grammar: with three or more components it agrees with the lenient one. */
  lemma StrictAgreesFromThree(timeStr: string)
    requires |Split(timeStr, ':')| >= 3
    ensures ParseStrict(timeStr) == ParseLenient(timeStr)
  {
  }

  /** Strict grammar, three numeric components: `hh*3600 + mm*60 + ss`; and two components are NaN. */
  lemma StrictComponents(h: string, m: string, s: string)
    requires IsDigits(h) && IsDigits(m) && IsDigits(s)
    ensures ParseStrict(h + ":" + m + ":" + s)
         == Val(DigitsValue(h) * 3600 + DigitsValue(m) * 60 + DigitsValue(s))
    ensures ParseStrict(h + ":" + m).NaN?
    ensures ParseStrict(h).NaN?
  {
    SplitThree(h, m, s);
    DigitsAvoid(h, ':');
    DigitsAvoid(m, ':');
    SplitWithoutSeparator(h, ':');
    SplitTwo(h, m);
  }

  /** Strict grammar: anything after the third component is ignored. */
  lemma StrictIgnoresExtra(t: string, rest: string)
    requires |Split(t, ':')| >= 3
    ensures ParseStrict(t + ":" + rest) == ParseStrict(t)
  {
    SplitAround(t, rest, ':');
    assert t + ":" + rest == t + [':'] + rest;
  }
}
