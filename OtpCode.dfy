/**
 * The one-time code text `f"{secrets.randbelow(1000000):06d}"`: the decimal
 * digits of a number below one million, padded on the left with zeros to six
 * characters. The random draw itself is a parameter of the model.
 */
module OtpCode {
  import opened Phone

  const CODE_SPACE := 1000000
  const CODE_WIDTH := 6

  function DigitChar(d: nat): (c: char)
    requires d < 10
    ensures IsDigit(c)
  {
    ('0' as int + d) as char
  }

  function DigitValue(c: char): (d: nat)
    requires IsDigit(c)
    ensures d < 10 && DigitChar(d) == c
  {
    c as int - '0' as int
  }

  /** `str(n)`: the shortest decimal numeral of `n`. */
  function Decimal(n: nat): (s: string)
    ensures |s| >= 1 && AllDigits(s)
  {
    if n < 10 then [DigitChar(n)] else Decimal(n / 10) + [DigitChar(n % 10)]
  }

  /** The number a string of decimal digits denotes. */
  function Value(s: string): nat
    requires AllDigits(s)
  {
    if s == [] then 0 else Value(s[..|s| - 1]) * 10 + DigitValue(s[|s| - 1])
  }

  function Zeros(k: nat): (s: string)
    ensures |s| == k && AllDigits(s)
  {
    if k == 0 then [] else Zeros(k - 1) + ['0']
  }

  /** The `0` fill and width of a `06d` format: left-pad with zeros up to `width` characters. */
  function ZeroPad(s: string, width: nat): (r: string)
    ensures |r| == if |s| >= width then |s| else width
  {
    if |s| >= width then s else Zeros(width - |s|) + s
  }

  function Pow10(k: nat): (p: nat)
    ensures p >= 1
  {
    if k == 0 then 1 else 10 * Pow10(k - 1)
  }

  lemma {:induction false} DecimalValue(n: nat)
    ensures Value(Decimal(n)) == n
  {
    if n >= 10 {
      DecimalValue(n / 10);
      var s := Decimal(n);
      assert s[..|s| - 1] == Decimal(n / 10);
    }
  }

  lemma {:induction false} DecimalLength(n: nat, k: nat)
    requires 1 <= k && n < Pow10(k)
    ensures |Decimal(n)| <= k
  {
    if n >= 10 {
      assert k >= 2;
      assert n / 10 < Pow10(k - 1);
      DecimalLength(n / 10, k - 1);
    }
  }

  lemma {:induction false} ZerosValue(k: nat, s: string)
    requires AllDigits(s)
    ensures AllDigits(Zeros(k) + s) && Value(Zeros(k) + s) == Value(s)
    decreases |s|
  {
    var t := Zeros(k) + s;
    assert AllDigits(t) by {
      forall i | 0 <= i < |t| ensures IsDigit(t[i]) {
        if i < k { assert t[i] == Zeros(k)[i]; } else { assert t[i] == s[i - k]; }
      }
    }
    if s == [] {
      assert t == Zeros(k);
      ZerosOnly(k);
    } else {
      var p := s[..|s| - 1];
      assert t[..|t| - 1] == Zeros(k) + p;
      ZerosValue(k, p);
    }
  }

  lemma {:induction false} ZerosOnly(k: nat)
    ensures Value(Zeros(k)) == 0
  {
    if k > 0 {
      assert Zeros(k)[..k - 1] == Zeros(k - 1);
      ZerosOnly(k - 1);
    }
  }

  /** The code for a draw below one million: six digits that denote the draw. */
  function PadCode(n: nat): (code: string)
    requires n < CODE_SPACE
    ensures |code| == CODE_WIDTH && AllDigits(code) && Value(code) == n
  {
    DecimalLength(n, CODE_WIDTH);
    DecimalValue(n);
    var s := Decimal(n);
    if |s| < CODE_WIDTH then ZerosValue(CODE_WIDTH - |s|, s); ZeroPad(s, CODE_WIDTH) else ZeroPad(s, CODE_WIDTH)
  }

  lemma {:induction false} ValueBound(s: string)
    requires AllDigits(s)
    ensures Value(s) < Pow10(|s|)
  {
    if s != [] {
      ValueBound(s[..|s| - 1]);
    }
  }

  /** Two digit strings of one length that denote the same number are the same string. */
  lemma {:induction false} ValueInjective(s: string, t: string)
    requires AllDigits(s) && AllDigits(t) && |s| == |t|
    requires Value(s) == Value(t)
    ensures s == t
  {
    if s != [] {
      var ps, pt := s[..|s| - 1], t[..|t| - 1];
      var ds, dt := DigitValue(s[|s| - 1]), DigitValue(t[|t| - 1]);
      assert Value(ps) * 10 + ds == Value(pt) * 10 + dt;
      assert ds == dt && Value(ps) == Value(pt);
      ValueInjective(ps, pt);
      assert s == ps + [s[|s| - 1]] && t == pt + [t[|t| - 1]];
    }
  }

  /** Every six-digit string, 000000 to 999999, is the code of exactly one draw. */
  lemma CodeSpaceIsExact(code: string)
    requires |code| == CODE_WIDTH && AllDigits(code)
    ensures Value(code) < CODE_SPACE && PadCode(Value(code)) == code
  {
    ValueBound(code);
    assert Pow10(CODE_WIDTH) == CODE_SPACE;
    ValueInjective(PadCode(Value(code)), code);
  }

  lemma PadCodeExample()
    ensures PadCode(42917) == "042917"
  {
    CodeSpaceIsExact("042917");
    assert Value("042917") == 42917 by {
      assert "042917"[..5] == "04291";
      assert "04291"[..4] == "0429";
      assert "0429"[..3] == "042";
      assert "042"[..2] == "04";
      assert "04"[..1] == "0";
      assert "0"[..0] == "";
    }
  }
}
