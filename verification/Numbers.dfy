/** Printing numbers (printnum and the number cases of vprintfmt, lib/printfmt.c) against reading them (strtol,
    lib/string.c). */
module Numbers {
  import opened Types

  predicate Base(b: int) { b == 8 || b == 10 || b == 16 }

  /** "0123456789abcdef"[d]. */
  function DigitChar(d: nat): char
    requires d < 16
  {
    "0123456789abcdef"[d]
  }

  /** The numeral of num. */
  function Digits(num: nat, b: nat): string
    requires Base(b)
  {
    (if num >= b then Digits(num / b, b) else []) + [DigitChar(num % b)]
  }

  function Repeat(c: char, n: int): string
    decreases n
  {
    if n <= 0 then [] else [c] + Repeat(c, n - 1)
  }

  /** The numeral, padded on the left. */
  function Padded(num: nat, b: nat, width: int, padc: char): string
    requires Base(b)
  {
    Repeat(padc, width - |Digits(num, b)|) + Digits(num, b)
  }

  lemma {:induction false} RepeatLength(c: char, n: int)
    ensures |Repeat(c, n)| == if n <= 0 then 0 else n
    ensures forall i :: 0 <= i < |Repeat(c, n)| ==> Repeat(c, n)[i] == c
    decreases n
  {
    if n > 0 { RepeatLength(c, n - 1); }
  }

  lemma {:induction false} RepeatSnoc(c: char, n: int)
    requires n > 0
    ensures Repeat(c, n) == Repeat(c, n - 1) + [c]
    decreases n
  {
    if n > 1 { RepeatSnoc(c, n - 1); }
  }

  /** Exactly max(width, number of digits) characters. */
  lemma PaddedLength(num: nat, b: nat, width: int, padc: char)
    requires Base(b)
    ensures |Padded(num, b, width, padc)| == if width > |Digits(num, b)| then width else |Digits(num, b)|
  {
    RepeatLength(padc, width - |Digits(num, b)|);
  }

  /** Where putch sends characters. */
  class Output {
    var out: string

    method Putch(c: char)
      modifies this
      ensures out == old(out) + [c]
    {
      out := out + [c];
    }

    method PrintNum(num: nat, b: nat, width: int, padc: char)
      requires Base(b)
      modifies this
      ensures out == old(out) + Padded(num, b, width, padc)
      decreases num
    {
      if num >= b {
        PrintNum(num / b, b, width - 1, padc);
      } else {
        Pad(width, padc);
      }
      Putch(DigitChar(num % b));
      PaddedStep(num, b, width, padc);
    }

    /** The loop that prints pad characters before the first digit. */
    method Pad(width: int, padc: char)
      modifies this
      ensures out == old(out) + Repeat(padc, width - 1)
    {
      var w := width - 1;
      ghost var n := 0;
      while w > 0
        invariant n >= 0 && w == width - 1 - n && (w >= 0 || n == 0) && out == old(out) + Repeat(padc, n)
      {
        Putch(padc);
        n, w := n + 1, w - 1;
        RepeatSnoc(padc, n);
      }
    }

    /** %d; the width does not count the sign, and padding follows it. */
    method PrintSigned(num: int, width: int, padc: char)
      modifies this
      ensures out == old(out) + Signed(num, width, padc)
    {
      var n := num;
      if n < 0 {
        Putch('-');
        n := -n;
      }
      PrintNum(n, 10, width, padc);
    }
  }

  function Signed(num: int, width: int, padc: char): string
  {
    if num < 0 then "-" + Padded(-num, 10, width, padc) else Padded(num, 10, width, padc)
  }

  lemma {:induction false} PaddedStep(num: nat, b: nat, width: int, padc: char)
    requires Base(b)
    ensures Padded(num, b, width, padc) ==
            (if num >= b then Padded(num / b, b, width - 1, padc) else Repeat(padc, width - 1)) + [DigitChar(num % b)]
  {
  }

  // ---------- strtol ----------

  /** A 32-bit long, in two's complement. */
  function Long(a: int): int { (a + 0x8000_0000) % 0x1_0000_0000 - 0x8000_0000 }

  /** The terminator follows the string. */
  function At(s: string, i: nat): char { if i < |s| then s[i] else '\0' }

  function DigitOf(c: char): Option<nat>
  {
    if '0' <= c <= '9' then Some(c as int - '0' as int)
    else if 'a' <= c <= 'z' then Some(c as int - 'a' as int + 10)
    else if 'A' <= c <= 'Z' then Some(c as int - 'A' as int + 10)
    else None
  }

  /** A digit of the given base. */
  predicate IsDigit(c: char, b: nat) { DigitOf(c).Some? && DigitOf(c).value < b }

  /** What strtol returns, and the end it stores. */
  datatype Parse = Parse(val: int, end: nat)

  function SkipBlanks(s: string, i: nat): (k: nat)
    requires i <= |s|
    ensures k <= |s|
    decreases |s| - i
  {
    if At(s, i) == ' ' || At(s, i) == '\t' then SkipBlanks(s, i + 1) else i
  }

  function ReadDigits(s: string, i: nat, b: nat, val: int): Parse
    requires i <= |s|
    decreases |s| - i
  {
    if IsDigit(At(s, i), b) then ReadDigits(s, i + 1, b, Long(val * b + DigitOf(At(s, i)).value)) else Parse(val, i)
  }

  /** Past a base prefix, with the base it implies. */
  function Prefix(s: string, i: nat, base: nat): (nat, nat)
    requires i <= |s|
  {
    if (base == 0 || base == 16) && At(s, i) == '0' && At(s, i + 1) == 'x' then (i + 2, 16)
    else if base == 0 && At(s, i) == '0' then (i + 1, 8)
    else (i, if base == 0 then 10 else base)
  }

  function Strtol(s: string, base: nat): Parse
  {
    var i := SkipBlanks(s, 0);
    var neg := At(s, i) == '-';
    var (k, b) := Prefix(s, if At(s, i) == '+' || neg then i + 1 else i, base);
    var p := ReadDigits(s, k, b, 0);
    Parse(if neg then Long(-p.val) else p.val, p.end)
  }

  method StrtolLoop(s: string, base0: nat) returns (val: int, end: nat)
    ensures Parse(val, end) == Strtol(s, base0) && end <= |s|
  {
    var i, neg, base := 0, false, base0;
    while At(s, i) == ' ' || At(s, i) == '\t'
      invariant i <= |s| && SkipBlanks(s, i) == SkipBlanks(s, 0)
      decreases |s| - i
    {
      i := i + 1;
    }
    if At(s, i) == '+' {
      i := i + 1;
    } else if At(s, i) == '-' {
      i, neg := i + 1, true;
    }
    i, base := SkipPrefix(s, i, base);
    val, end := DigitLoop(s, i, base);
    if neg { val := Long(-val); }
  }

  method SkipPrefix(s: string, i: nat, base: nat) returns (k: nat, b: nat)
    requires i <= |s|
    ensures (k, b) == Prefix(s, i, base) && k <= |s|
  {
    k, b := i, base;
    if (base == 0 || base == 16) && At(s, i) == '0' && At(s, i + 1) == 'x' {
      k, b := i + 2, 16;
    } else if base == 0 && At(s, i) == '0' {
      k, b := i + 1, 8;
    } else if base == 0 {
      b := 10;
    }
  }

  method DigitLoop(s: string, start: nat, base: nat) returns (val: int, end: nat)
    requires start <= |s|
    ensures Parse(val, end) == ReadDigits(s, start, base, 0) && end <= |s|
  {
    var i := start;
    val := 0;
    while true
      invariant start <= i <= |s| && ReadDigits(s, i, base, val) == ReadDigits(s, start, base, 0)
      decreases |s| - i
    {
      var dig := DigitOf(At(s, i));
      if dig == None || dig.value >= base { break; }
      i, val := i + 1, Long(val * base + dig.value);
    }
    end := i;
  }

  // ---------- round trips ----------

  /** The number a string of digits stands for. */
  function Eval(ds: string, b: nat): int
  {
    if ds == [] then 0
    else Eval(ds[..|ds| - 1], b) * b + if DigitOf(ds[|ds| - 1]).Some? then DigitOf(ds[|ds| - 1]).value else 0
  }

  predicate AllDigits(ds: string, b: nat) { forall i :: 0 <= i < |ds| ==> IsDigit(ds[i], b) }

  lemma DigitRead(d: nat)
    requires d < 16
    ensures DigitOf(DigitChar(d)) == Some(d)
  {
  }

  lemma DivMod(num: nat, b: nat, e: int)
    requires Base(b) && e == if num >= b then num / b else 0
    ensures e * b + num % b == num
  {
    if b == 8 {} else if b == 10 {} else {}
  }

  lemma {:induction false} EvalDigits(num: nat, b: nat)
    requires Base(b)
    ensures Eval(Digits(num, b), b) == num && AllDigits(Digits(num, b), b)
    decreases num
  {
    var ds := Digits(num, b);
    var init := if num >= b then Digits(num / b, b) else [];
    if num >= b { EvalDigits(num / b, b); }
    assert ds == init + [DigitChar(num % b)];
    EvalSnoc(init, num % b, b);
    DivMod(num, b, Eval(init, b));
  }

  lemma EvalSnoc(ds: string, d: nat, b: nat)
    requires Base(b) && d < b && AllDigits(ds, b)
    ensures Eval(ds + [DigitChar(d)], b) == Eval(ds, b) * b + d && AllDigits(ds + [DigitChar(d)], b)
  {
    DigitRead(d);
    var s := ds + [DigitChar(d)];
    assert s[..|s| - 1] == ds;
  }

  lemma {:induction false} EvalZeros(n: int, ds: string, b: nat)
    ensures Eval(Repeat('0', n) + ds, b) == Eval(ds, b)
    decreases |ds|, if n < 0 then 0 else n
  {
    var s := Repeat('0', n) + ds;
    if ds != [] {
      assert s[..|s| - 1] == Repeat('0', n) + ds[..|ds| - 1];
      EvalZeros(n, ds[..|ds| - 1], b);
    } else if n > 0 {
      RepeatSnoc('0', n);
      assert s[..|s| - 1] == Repeat('0', n - 1) + [];
      EvalZeros(n - 1, [], b);
    }
  }

  lemma LongShift(a: int, k: int)
    ensures Long(a + k * 0x1_0000_0000) == Long(a)
  {
  }

  /** Wrapping at every digit is wrapping once. */
  lemma LongStep(a: int, b: nat, d: nat)
    ensures Long(Long(a) * b + d) == Long(a * b + d)
  {
    var k := (a - Long(a)) / 0x1_0000_0000;
    assert a == Long(a) + k * 0x1_0000_0000;
    assert a * b == Long(a) * b + k * b * 0x1_0000_0000;
    LongShift(Long(a) * b + d, k * b);
  }

  /** The digit loop reads digits up to the first character that is none, whatever came before them. */
  lemma {:induction false} ReadAll(s: string, k: nat, i: nat, e: nat, b: nat)
    requires k <= i <= e <= |s| && AllDigits(s[k..e], b) && !IsDigit(At(s, e), b)
    ensures ReadDigits(s, i, b, Long(Eval(s[k..i], b))) == Parse(Long(Eval(s[k..e], b)), e)
    decreases e - i
  {
    if i < e {
      assert s[k..e][i - k] == s[i];
      var d := DigitOf(s[i]).value;
      assert s[k..i + 1][..i - k] == s[k..i];
      LongStep(Eval(s[k..i], b), b, d);
      ReadAll(s, k, i + 1, e, b);
    }
  }

  /** A digit is no sign, blank or prefix. */
  lemma {:induction false} StartsWithDigit(s: string, k: nat, b: nat)
    requires Base(b) && k < |s| && AllDigits(s[k..], b)
    ensures At(s, k) != '-' && At(s, k) != '+' && At(s, k) != ' ' && At(s, k) != '\t' && At(s, k + 1) != 'x'
  {
    assert IsDigit(s[k..][0], b) && s[k..][0] == s[k];
    assert k + 1 < |s| ==> IsDigit(s[k..][1], b) && s[k..][1] == s[k + 1];
  }

  lemma {:induction false} ZerosAndDigits(b: nat, num: nat, zeros: int)
    requires Base(b)
    ensures var ds := Repeat('0', zeros) + Digits(num, b); ds != [] && AllDigits(ds, b) && Eval(ds, b) == num
  {
    EvalDigits(num, b);
    EvalZeros(zeros, Digits(num, b), b);
    RepeatLength('0', zeros);
    assert DigitOf('0') == Some(0);
  }

  /** What strtol reads from a numeral behind leading zeros. */
  lemma {:induction false} ReadNumeral(s: string, k: nat, b: nat, num: nat, zeros: int)
    requires Base(b) && k <= |s| && s[k..] == Repeat('0', zeros) + Digits(num, b)
    ensures ReadDigits(s, k, b, 0) == Parse(Long(num), |s|)
    ensures At(s, k) != '-' && At(s, k) != '+' && At(s, k) != ' ' && At(s, k) != '\t' && At(s, k + 1) != 'x'
    ensures k < |s|
  {
    ZerosAndDigits(b, num, zeros);
    StartsWithDigit(s, k, b);
    assert Long(Eval(s[k..k], b)) == 0;
    assert s[k..|s|] == s[k..];
    ReadAll(s, k, k, |s|, b);
  }

  lemma {:induction false} SkipRepeat(s: string, i: nat, k: nat)
    requires i <= k <= |s| && (forall j :: i <= j < k ==> s[j] == ' ') && At(s, k) != ' ' && At(s, k) != '	'
    ensures SkipBlanks(s, i) == k
    decreases k - i
  {
    if i < k { SkipRepeat(s, i + 1, k); }
  }

  /** Where the digits, or the zeros before them, start in what printnum emits. */
  lemma {:induction false} PaddedFrom(num: nat, b: nat, width: int, padc: char) returns (k: nat, zeros: int)
    requires Base(b) && (padc == ' ' || padc == '0')
    ensures var s := Padded(num, b, width, padc);
      && k <= |s| && s[k..] == Repeat('0', zeros) + Digits(num, b) && forall j :: 0 <= j < k ==> s[j] == ' '
    ensures k == if padc == ' ' && width > |Digits(num, b)| then width - |Digits(num, b)| else 0
  {
    var n := width - |Digits(num, b)|;
    RepeatLength(padc, n);
    if padc == '0' {
      k, zeros := 0, n;
    } else {
      k, zeros := if n <= 0 then 0 else n, 0;
    }
  }

  /** Unsigned numbers, padded with blanks or zeros to any width: strtol reads to the end of what printnum emits, and
      returns the number reduced to a long, so the number itself exactly when it is below 2^31. */
  lemma {:induction false} RoundTrip(num: nat, b: nat, width: int, padc: char)
    requires (b == 10 || b == 16) && (padc == ' ' || padc == '0')
    ensures var s := Padded(num, b, width, padc); Strtol(s, b) == Parse(Long(num), |s|)
    ensures Strtol(Padded(num, b, width, padc), b).val == num <==> num < 0x8000_0000
  {
    var s := Padded(num, b, width, padc);
    var k, zeros := PaddedFrom(num, b, width, padc);
    ReadNumeral(s, k, b, num, zeros);
    SkipRepeat(s, 0, k);
  }

  /** Negative numbers printed by %d: they read back exactly if zeros, or no padding, follow the sign; blanks stop
      strtol at the sign. */
  lemma {:induction false} NegativeRoundTrip(num: int, width: int, padc: char)
    requires -0x8000_0000 <= num < 0 && (padc == ' ' || padc == '0')
    ensures var s := Signed(num, width, padc);
      if padc == '0' || width <= |Digits(-num, 10)| then Strtol(s, 10) == Parse(num, |s|)
      else Strtol(s, 10) == Parse(0, 1)
  {
    var p := Padded(-num, 10, width, padc);
    var k, zeros := PaddedFrom(-num, 10, width, padc);
    if k == 0 {
      assert p[0..] == p;
      ReadNegative(p, -num, zeros);
    } else {
      MinusBlank(p);
    }
  }

  lemma {:induction false} ReadNegative(p: string, n: nat, zeros: int)
    requires n <= 0x8000_0000 && p == Repeat('0', zeros) + Digits(n, 10)
    ensures Strtol("-" + p, 10) == Parse(-(n as int), |p| + 1)
  {
    var s := "-" + p;
    assert s[1..] == p;
    assert ReadDigits(s, 1, 10, 0) == Parse(Long(n), |s|) && |s| > 1 by { ReadNumeral(s, 1, 10, n, zeros); }
    assert Strtol(s, 10) == Parse(Long(-Long(n)), |s|) by { AfterMinus(s); }
    LongNegative(n);
  }

  lemma LongNegative(n: nat)
    requires n <= 0x8000_0000
    ensures Long(-Long(n)) == -(n as int)
  {
  }

  lemma {:induction false} MinusBlank(p: string)
    requires p != [] && p[0] == ' '
    ensures Strtol("-" + p, 10) == Parse(0, 1)
  {
    AfterMinus("-" + p);
  }

  lemma {:induction false} AfterMinus(s: string)
    requires |s| > 1 && s[0] == '-'
    ensures Strtol(s, 10) == Parse(Long(-ReadDigits(s, 1, 10, 0).val), ReadDigits(s, 1, 10, 0).end)
  {
  }

  /** %d of a number that is not negative, up to the largest long. */
  lemma PositiveRoundTrip(num: nat, width: int, padc: char)
    requires num < 0x8000_0000 && (padc == ' ' || padc == '0')
    ensures var s := Signed(num, width, padc); Strtol(s, 10) == Parse(num, |s|)
  {
    RoundTrip(num, 10, width, padc);
  }

  // ---------- the numeral itself ----------

  /** A lower-case digit. */
  predicate PlainDigit(c: char) { '0' <= c <= '9' || 'a' <= c <= 'f' }

  /** A numeral as one writes it: digits of the base, none of them a leading zero. */
  predicate Plain(ds: string, b: nat)
  {
    && ds != [] && (ds[0] == '0' ==> |ds| == 1) && AllDigits(ds, b)
    && forall i :: 0 <= i < |ds| ==> PlainDigit(ds[i])
  }

  lemma DigitIsPlain(d: nat, b: nat)
    requires Base(b) && d < b
    ensures PlainDigit(DigitChar(d)) && IsDigit(DigitChar(d), b) && (DigitChar(d) == '0' <==> d == 0)
  {
    DigitRead(d);
  }

  lemma {:induction false} PlainSnoc(ds: string, d: nat, b: nat)
    requires Base(b) && d < b && Plain(ds, b) && ds[0] != '0'
    ensures Plain(ds + [DigitChar(d)], b) && (ds + [DigitChar(d)])[0] == ds[0]
  {
    DigitIsPlain(d, b);
  }

  lemma {:induction false} DigitsArePlain(num: nat, b: nat)
    requires Base(b)
    ensures Plain(Digits(num, b), b) && (Digits(num, b)[0] == '0' <==> num == 0)
    decreases num
  {
    if num >= b {
      var q, r := num / b, num % b;
      Remainder(num, b);
      DigitsArePlain(q, b);
      PlainSnoc(Digits(q, b), r, b);
      assert Digits(num, b) == Digits(q, b) + [DigitChar(r)];
    } else {
      SingleDigit(0, num, b);
      DigitIsPlain(num, b);
    }
  }

  lemma Remainder(num: nat, b: nat)
    requires Base(b) && num >= b
    ensures num / b > 0 && num % b < b && num / b < num
  {
    if b == 8 {} else if b == 10 {} else {}
  }

  lemma PlainPrefix(ds: string, b: nat)
    requires Plain(ds, b) && |ds| > 1
    ensures Plain(ds[..|ds| - 1], b)
  {
  }

  lemma {:induction false} PlainIsPositive(ds: string, b: nat)
    requires Base(b) && Plain(ds, b)
    ensures Eval(ds, b) >= 0 && (ds[0] != '0' ==> Eval(ds, b) > 0)
    decreases |ds|
  {
    var init := ds[..|ds| - 1];
    if |ds| > 1 {
      PlainPrefix(ds, b);
      PlainIsPositive(init, b);
      Times(Eval(init, b), b);
    } else {
      assert init == [];
      assert Eval(init, b) * b == 0;
    }
  }

  lemma Times(a: int, b: nat)
    requires Base(b)
    ensures (a > 0 ==> a * b >= b) && (a == 0 ==> a * b == 0)
  {
    if b == 8 {} else if b == 10 {} else {}
  }

  lemma {:induction false} LastDigit(ds: string, b: nat) returns (d: nat)
    requires Base(b) && Plain(ds, b)
    ensures d < b && ds == ds[..|ds| - 1] + [DigitChar(d)] && Eval(ds, b) == Eval(ds[..|ds| - 1], b) * b + d
  {
    var c := ds[|ds| - 1];
    assert IsDigit(c, b) && PlainDigit(c);
    d := DigitOf(c).value;
    assert DigitChar(d) == c;
  }

  lemma InitIsPositive(ds: string, b: nat)
    requires Base(b) && Plain(ds, b) && |ds| > 1
    ensures Plain(ds[..|ds| - 1], b) && Eval(ds[..|ds| - 1], b) > 0
  {
    PlainPrefix(ds, b);
    PlainIsPositive(ds[..|ds| - 1], b);
  }

  lemma {:induction false} LongerNumeral(ds: string, b: nat, init: string, a: int)
    requires Base(b) && Plain(ds, b) && init == ds[..|ds| - 1] && a == Eval(init, b) > 0 && init == Digits(a, b)
    ensures Eval(ds, b) > 0 && ds == Digits(Eval(ds, b), b)
  {
    var d := LastDigit(ds, b);
    assert Eval(ds, b) == a * b + d && ds == init + [DigitChar(d)];
    Unfold(a, d, b);
  }

  lemma {:induction false} OneDigitNumeral(ds: string, b: nat)
    requires Base(b) && Plain(ds, b) && |ds| == 1
    ensures Eval(ds, b) >= 0 && ds == Digits(Eval(ds, b), b)
  {
    var d := LastDigit(ds, b);
    assert ds[..0] == [] && Eval([], b) == 0;
    SingleDigit(0, d, b);
  }

  /** printnum's numeral is the only plain one for its number. */
  lemma {:induction false} NumeralIsUnique(ds: string, b: nat)
    requires Base(b) && Plain(ds, b)
    ensures Eval(ds, b) >= 0 && ds == Digits(Eval(ds, b), b)
    decreases |ds|
  {
    if |ds| > 1 {
      var init := ds[..|ds| - 1];
      InitIsPositive(ds, b);
      NumeralIsUnique(init, b);
      LongerNumeral(ds, b, init, Eval(init, b));
    } else {
      OneDigitNumeral(ds, b);
    }
  }

  lemma SmallMod(d: nat, b: nat)
    requires Base(b) && d < b
    ensures d % b == d
  {
    if b == 8 {} else if b == 10 {} else {}
  }

  lemma {:induction false} SingleDigit(a: int, d: nat, b: nat)
    requires Base(b) && a == 0 && d < b
    ensures a * b + d == d && Digits(d, b) == [DigitChar(d)]
  {
    SmallMod(d, b);
    assert Digits(d, b) == [] + [DigitChar(d)];
  }

  lemma {:induction false} Unfold(a: int, d: nat, b: nat)
    requires Base(b) && a > 0 && d < b
    ensures a * b + d >= b && Digits(a * b + d, b) == Digits(a, b) + [DigitChar(d)]
  {
    Times(a, b);
    Quotient(a, d, b);
  }

  lemma Quotient(a: int, d: nat, b: nat)
    requires Base(b) && a >= 0 && d < b
    ensures (a * b + d) / b == a && (a * b + d) % b == d
  {
    if b == 8 {} else if b == 10 {} else {}
  }

  // ---------- every spelling strtol takes ----------

  predicate Blank(s: string) { forall i :: 0 <= i < |s| ==> s[i] == ' ' || s[i] == '\t' }

  /** Nothing, plus, or minus. */
  predicate IsSign(sign: string) { sign == "" || (|sign| == 1 && (sign[0] == '+' || sign[0] == '-')) }

  predicate Minus(sign: string) { sign != "" && sign[0] == '-' }

  /** With this base argument, a numeral of base b follows this prefix. */
  predicate Prefixed(base: nat, prefix: string, b: nat, num: nat)
  {
    || (prefix == "" && base == b)
    || (prefix == "" && base == 0 && b == 10 && num > 0)
    || (prefix == "0x" && (base == 0 || base == 16) && b == 16)
    || (prefix == "0" && base == 0 && b == 8)
  }

  lemma {:induction false} SkipAll(s: string, i: nat, k: nat)
    requires i <= k <= |s| && (forall j :: i <= j < k ==> s[j] == ' ' || s[j] == '\t') && At(s, k) != ' ' && At(s, k) != '\t'
    ensures SkipBlanks(s, i) == k
    decreases k - i
  {
    if i < k { SkipAll(s, i + 1, k); }
  }

  lemma SliceAt(s: string, k: nat, t: string, i: nat)
    requires k <= |s| && s[k..] == t && i < |t|
    ensures k + i < |s| && s[k + i] == t[i]
  {
    assert s[k..][i] == s[k + i];
  }

  lemma SliceIs(s: string, k: nat, a: string, b: string)
    requires k <= |s| && s[k..] == a + b
    ensures k + |a| + |b| == |s| && s[k..k + |a|] == a
  {
    forall i | 0 <= i < |a| ensures s[k..k + |a|][i] == a[i] { SliceAt(s, k, a + b, i); }
  }

  lemma {:induction false} DigitsAt(s: string, k: nat, ds: string, b: nat, rest: string)
    requires k <= |s| && s[k..] == ds + rest && AllDigits(ds, b) && (rest != "" ==> !IsDigit(rest[0], b))
    ensures k + |ds| + |rest| == |s| && ReadDigits(s, k, b, 0) == Parse(Long(Eval(ds, b)), k + |ds|)
  {
    SliceIs(s, k, ds, rest);
    if rest != "" { SliceAt(s, k, ds + rest, |ds|); }
    ReadWhole(s, k, k + |ds|, b);
  }

  lemma {:induction false} NumeralAt(s: string, k: nat, b: nat, num: nat, rest: string)
    requires Base(b) && k <= |s| && s[k..] == Digits(num, b) + rest && (rest != "" ==> !IsDigit(rest[0], b))
    ensures k + |Digits(num, b)| == |s| - |rest| && ReadDigits(s, k, b, 0) == Parse(Long(num), |s| - |rest|)
  {
    EvalDigits(num, b);
    DigitsAt(s, k, Digits(num, b), b, rest);
  }

  lemma {:induction false} ReadWhole(s: string, k: nat, e: nat, b: nat)
    requires k <= e <= |s| && AllDigits(s[k..e], b) && !IsDigit(At(s, e), b)
    ensures ReadDigits(s, k, b, 0) == Parse(Long(Eval(s[k..e], b)), e)
  {
    assert s[k..k] == "" && Long(0) == 0;
    ReadAll(s, k, k, e, b);
  }

  lemma {:induction false} NumeralStarts(s: string, k: nat, b: nat, num: nat, rest: string)
    requires Base(b) && k <= |s| && s[k..] == Digits(num, b) + rest
    ensures k < |s| && IsDigit(At(s, k), b) && (At(s, k) == '0' <==> num == 0)
    ensures num == 0 ==> At(s, k + 1) == At(rest, 0)
  {
    var ds := Digits(num, b);
    DigitsArePlain(num, b);
    SliceAt(s, k, ds + rest, 0);
    if num == 0 {
      SingleDigit(0, 0, b);
      if rest != "" { SliceAt(s, k, ds + rest, 1); }
    }
  }

  /** Past the prefix strtol finds the numeral's base and first digit. */
  lemma {:induction false} PrefixRead(s: string, j: nat, base: nat, prefix: string, b: nat, num: nat, rest: string)
    requires Base(b) && Prefixed(base, prefix, b, num) && j <= |s| && s[j..] == prefix + (Digits(num, b) + rest)
    requires base == 16 && prefix == "" && num == 0 ==> At(rest, 0) != 'x'
    ensures Prefix(s, j, base) == (j + |prefix|, b)
    ensures j + |prefix| <= |s| && s[j + |prefix|..] == Digits(num, b) + rest
    ensures At(s, j) != ' ' && At(s, j) != '\t' && At(s, j) != '-' && At(s, j) != '+'
  {
    var k := j + |prefix|;
    AfterPrefix(s, j, prefix, Digits(num, b) + rest);
    NumeralStarts(s, k, b, num, rest);
    if prefix != "" { SliceAt(s, j, prefix + (Digits(num, b) + rest), 0); }
    if prefix == "0x" { SliceAt(s, j, prefix + (Digits(num, b) + rest), 1); }
  }

  lemma AfterPrefix(s: string, j: nat, prefix: string, tail: string)
    requires j <= |s| && s[j..] == prefix + tail
    ensures j + |prefix| <= |s| && s[j + |prefix|..] == tail
  {
    assert s[j + |prefix|..] == s[j..][|prefix|..];
  }

  /** Blanks, a sign, a base prefix, a numeral, and anything that is no digit: strtol returns the number, with its sign,
      reduced to a long, and stops behind the numeral. */
  lemma {:induction false} StrtolReads(s: string, blanks: string, sign: string, tail: string, prefix: string, num: nat,
                                       rest: string, base: nat, b: nat)
    requires s == blanks + (sign + tail) && Blank(blanks) && IsSign(sign) && Spells(tail, prefix, num, rest, base, b)
    ensures |rest| <= |s| && Strtol(s, base) == Parse(if Minus(sign) then Long(-Long(num)) else Long(num), |s| - |rest|)
  {
    var j := |blanks| + |sign|;
    Behind(s, blanks, sign, tail);
    TailReads(s, j, tail, prefix, num, rest, base, b);
    WholeReads(s, blanks, sign, tail, j + |prefix|, base, b, Long(num), |s| - |rest|);
  }

  /** A prefix that fits the base argument, a numeral, and a rest that cannot be taken for part of either. */
  ghost predicate Spells(tail: string, prefix: string, num: nat, rest: string, base: nat, b: nat)
  {
    && Base(b) && Prefixed(base, prefix, b, num) && tail == prefix + (Digits(num, b) + rest)
    && (rest != "" ==> !IsDigit(rest[0], b)) && (base == 16 && prefix == "" && num == 0 ==> At(rest, 0) != 'x')
  }

  /** From j on, strtol finds the base, and val in the digits from k to e. */
  predicate Reads(s: string, j: nat, base: nat, k: nat, b: nat, val: int, e: int)
  {
    j <= k <= |s| && Prefix(s, j, base) == (k, b) && 0 <= e && ReadDigits(s, k, b, 0) == Parse(val, e)
  }

  /** Not the start of blanks or a sign. */
  predicate NoLead(tail: string)
  {
    tail != "" && tail[0] != ' ' && tail[0] != '\t' && tail[0] != '-' && tail[0] != '+'
  }

  lemma {:induction false} WholeReads(s: string, blanks: string, sign: string, tail: string, k: nat, base: nat, b: nat,
                                      val: int, e: int)
    requires s == blanks + (sign + tail) && Blank(blanks) && IsSign(sign) && NoLead(tail)
    requires Reads(s, |blanks| + |sign|, base, k, b, val, e)
    ensures e >= 0 && Strtol(s, base) == Parse(if Minus(sign) then Long(-val) else val, e)
  {
    Leading(s, blanks, sign, tail);
    StrtolIs(s, |blanks|, sign, base, k, b);
  }

  lemma Behind(s: string, blanks: string, sign: string, tail: string)
    requires s == blanks + (sign + tail)
    ensures |blanks| + |sign| <= |s| && s[|blanks| + |sign|..] == tail
  {
  }

  lemma {:induction false} TailReads(s: string, j: nat, tail: string, prefix: string, num: nat, rest: string, base: nat, b: nat)
    requires j <= |s| && s[j..] == tail && Spells(tail, prefix, num, rest, base, b)
    ensures Reads(s, j, base, j + |prefix|, b, Long(num), |s| - |rest|) && NoLead(tail)
  {
    PrefixRead(s, j, base, prefix, b, num, rest);
    NumeralAt(s, j + |prefix|, b, num, rest);
    NumeralStarts(s, j + |prefix|, b, num, rest);
    SliceAt(s, j, tail, 0);
  }

  lemma {:induction false} Leading(s: string, blanks: string, sign: string, tail: string)
    requires s == blanks + (sign + tail) && Blank(blanks) && IsSign(sign)
    requires At(tail, 0) != ' ' && At(tail, 0) != '\t' && At(tail, 0) != '-' && At(tail, 0) != '+' && tail != ""
    ensures SkipBlanks(s, 0) == |blanks| && (At(s, |blanks|) == '-' <==> Minus(sign)) && (At(s, |blanks|) == '+' <==> sign != "" && !Minus(sign))
  {
    var i := |blanks|;
    assert s[i] == (sign + tail)[0];
    assert forall x :: 0 <= x < i ==> s[x] == blanks[x];
    SkipAll(s, 0, i);
  }

  lemma {:induction false} StrtolIs(s: string, i: nat, sign: string, base: nat, k: nat, b: nat)
    requires i <= |s| && SkipBlanks(s, 0) == i && IsSign(sign) && i + |sign| <= |s|
    requires (At(s, i) == '-' <==> Minus(sign)) && (At(s, i) == '+' <==> sign != "" && !Minus(sign))
    requires Prefix(s, i + |sign|, base) == (k, b) && k <= |s|
    ensures var p := ReadDigits(s, k, b, 0);
      Strtol(s, base) == Parse(if Minus(sign) then Long(-p.val) else p.val, p.end)
  {
  }
}
