/**
 * Phone-number validation: `re.compile(r"^\+?\d{10,14}$").match(phone)`.
 *
 * Two definitions are given. `Matches` follows the regular-expression engine
 * (the optional `+` is tried first and then skipped, the greedy `\d{10,14}`
 * backtracks from 14 digits down to 10, and `$` matches at the very end or just
 * before one final newline). `AcceptedPhone` is the declarative reading. The
 * lemma `MatchesIff` shows they agree. `\d` is read as an ASCII digit.
 */
module Phone {
  import opened Http

  const INVALID_PHONE := Error(400, "Invalid phone number format")
  const MIN_DIGITS := 10
  const MAX_DIGITS := 14

  predicate IsDigit(c: char) { '0' <= c <= '9' }

  predicate AllDigits(s: string) { forall i :: 0 <= i < |s| ==> IsDigit(s[i]) }

  /** An optional leading `+` followed by 10 to 14 digits, and nothing else. */
  predicate PhoneShape(s: string) {
    var body := if |s| > 0 && s[0] == '+' then s[1..] else s;
    MIN_DIGITS <= |body| <= MAX_DIGITS && AllDigits(body)
  }

  /** What the pattern admits: a phone shape, possibly followed by one final newline. */
  predicate AcceptedPhone(s: string) {
    PhoneShape(s) || (|s| > 0 && s[|s| - 1] == '\n' && PhoneShape(s[..|s| - 1]))
  }

  /** Length of the longest run of digits at the start of `s`. */
  function DigitRun(s: string): (n: nat)
    ensures n <= |s|
    ensures AllDigits(s[..n])
    ensures n < |s| ==> !IsDigit(s[n])
  {
    if |s| == 0 || !IsDigit(s[0]) then 0
    else
      var k := DigitRun(s[1..]);
      assert s[..1 + k] == [s[0]] + s[1..][..k];
      1 + k
  }

  /** `$` without MULTILINE: at the end of the string, or before a newline that ends it. */
  predicate AtEnd(s: string, i: nat) {
    i == |s| || (i + 1 == |s| && s[i] == '\n')
  }

  /** `\d{10,k}$` tried greedily at the start of `s`: k digits first, then one fewer, down to 10. */
  predicate TryDigits(s: string, k: nat)
    decreases k
  {
    MIN_DIGITS <= k && ((k <= DigitRun(s) && AtEnd(s, k)) || TryDigits(s, k - 1))
  }

  /** `^\+?` consumes a `+` if there is one; on failure the engine retries without it. */
  predicate Matches(s: string) {
    (|s| > 0 && s[0] == '+' && TryDigits(s[1..], MAX_DIGITS)) || TryDigits(s, MAX_DIGITS)
  }

  /** The backtracking search succeeds exactly when the whole digit run fits the bounds and ends the input. */
  lemma {:induction false} TryDigitsIff(s: string, k: nat)
    ensures TryDigits(s, k) <==> MIN_DIGITS <= DigitRun(s) <= k && AtEnd(s, DigitRun(s))
    decreases k
  {
    var n := DigitRun(s);
    if MIN_DIGITS <= k {
      TryDigitsIff(s, k - 1);
      if k < n {
        // a digit follows the first k digits, so `$` cannot match there
        assert IsDigit(s[..n][k]);
        assert !AtEnd(s, k);
      }
    }
  }

  lemma {:induction false} MatchesIff(s: string)
    ensures Matches(s) <==> AcceptedPhone(s)
  {
    var plus := |s| > 0 && s[0] == '+';
    var body := if plus then s[1..] else s;
    TryDigitsIff(body, MAX_DIGITS);
    if plus {
      assert DigitRun(s) == 0;
      TryDigitsIff(s, MAX_DIGITS);
    } else if |s| > 0 {
      TryDigitsIff(s[1..], MAX_DIGITS);
    }
    var n := DigitRun(body);
    if |s| > 0 && s[|s| - 1] == '\n' {
      var t := s[..|s| - 1];
      var tbody := if |t| > 0 && t[0] == '+' then t[1..] else t;
      if |t| > 0 {
        assert t[0] == s[0];
        assert tbody == body[..|body| - 1];
      }
      // the newline is not a digit, so the run never covers it
      assert !IsDigit(body[|body| - 1]) by { assert body[|body| - 1] == s[|s| - 1]; }
      assert n < |body|;
      if PhoneShape(t) {
        assert body[..|body| - 1] == tbody;
        assert AllDigits(body[..|body| - 1]);
        assert forall i :: 0 <= i < |body| - 1 ==> IsDigit(body[i]) by {
          forall i | 0 <= i < |body| - 1 ensures IsDigit(body[i]) { assert body[..|body| - 1][i] == body[i]; }
        }
        assert n == |body| - 1;
      }
      if Matches(s) {
        assert n + 1 == |body|;
        assert body[..n] == tbody;
      }
      assert !PhoneShape(s);
    } else {
      if PhoneShape(s) {
        assert body[..|body|] == body;
        assert n == |body|;
      }
      if Matches(s) {
        assert n == |body|;
        assert body[..n] == body;
      }
    }
  }

  /** `validate_phone`: the phone is returned unchanged when the pattern admits it. */
  function ValidatePhone(phone: string): (r: Result<string>)
    ensures r.Ok? <==> AcceptedPhone(phone)
    ensures r.Ok? ==> r.value == phone
    ensures r.Err? ==> r.error == INVALID_PHONE
  {
    MatchesIff(phone);
    if Matches(phone) then Ok(phone) else Err(INVALID_PHONE)
  }

  lemma PhoneExamples()
    ensures ValidatePhone("12345") == Err(INVALID_PHONE)
    ensures ValidatePhone("+12025550123") == Ok("+12025550123")
    ensures ValidatePhone("12025550123\n").Ok?
    ensures ValidatePhone("+1202555012a").Err?
  {
    assert !PhoneShape("12345");
    assert PhoneShape("+12025550123");
    assert "12025550123\n"[..11] == "12025550123";
    assert PhoneShape("12025550123");
    assert !IsDigit("+1202555012a"[1..][10]);
  }
}
