/** Validation of capture references in a rule's templates. */
module PackTemplate {

  import opened Numerals

  /** How many digits `t` starts with. */
  function Run(t: string): (n: nat)
    ensures n <= |t| && (forall i :: 0 <= i < n ==> IsDigit(t[i])) && (n < |t| ==> !IsDigit(t[n]))
  {
    if t == "" || !IsDigit(t[0]) then 0 else 1 + Run(t[1..])
  }

  /** The declarative reading: every dollar is doubled, or starts a maximal digit run that does not begin
      with zero and denotes an existing capture. */
  predicate WellFormed(t: string, captures: nat)
    decreases |t|
  {
    if t == "" then true
    else if t[0] != '$' then WellFormed(t[1..], captures)
    else if |t| == 1 then false
    else if t[1] == '$' then WellFormed(t[2..], captures)
    else
      var n := Run(t[1..]);
      n > 0 && t[1] != '0' && Number(t[1..n + 1]) <= captures && WellFormed(t[n + 1..], captures)
  }

  datatype Verdict = Accepted | EndsWithDollar | NotNumeric | Unavailable

  /** The guard `capture > captures/10 || capture == captures/10 && digit > captures%10` rejects exactly
      when the next value would exceed the count, without computing it. */
  lemma GuardIsExact(capture: nat, captures: nat, digit: nat)
    requires digit < 10
    ensures capture > captures / 10 || (capture == captures / 10 && digit > captures % 10)
            <==> capture * 10 + digit > captures
  {
  }

  lemma {:induction false} NumberGrows(s: string, n: nat)
    requires AllDigits(s) && n <= |s|
    ensures Number(s[..n]) <= Number(s)
    decreases |s|
  {
    if n == |s| {
      assert s[..n] == s;
    } else {
      var front := s[..|s| - 1];
      assert front[..n] == s[..n];
      NumberGrows(front, n);
    }
  }

  lemma NumberStep(digits: string, k: nat)
    requires 0 < k <= |digits| && AllDigits(digits)
    ensures Number(digits[..k]) == 10 * Number(digits[..k - 1]) + DigitOf(digits[k - 1])
  {
    assert digits[..k][..k - 1] == digits[..k - 1];
  }

  /** The maximal digit run that starts at `from`. */
  ghost predicate DigitRun(template: string, from: nat, digits: string) {
    && from + |digits| <= |template| && AllDigits(digits) && template[from..from + |digits|] == digits
    && (from + |digits| < |template| ==> !IsDigit(template[from + |digits|]))
  }

  lemma RunIsDigitRun(template: string, from: nat)
    requires from <= |template|
    ensures DigitRun(template, from, template[from..from + Run(template[from..])])
  {
    var rest := template[from..];
    var n := Run(rest);
    assert template[from..from + n] == rest[..n];
    assert from + n < |template| ==> template[from + n] == rest[n];
  }

  /** The inner loop: reads the digit run after position `index`; the running value never exceeds the
      capture count. */
  method ReadDigits(template: string, index: nat, captures: nat, ghost digits: string) returns (ok: bool, last: nat)
    requires index + 1 < |template| && DigitRun(template, index + 1, digits)
    ensures ok <==> Number(digits) <= captures
    ensures ok ==> last == index + |digits|
  {
    var capture := 0;
    last := index;
    while last + 1 < |template| && IsDigit(template[last + 1])
      invariant index <= last <= index + |digits|
      invariant capture == Number(digits[..last - index]) <= captures
      decreases |template| - last
    {
      ghost var k := last + 1 - index;
      assert k <= |digits|;
      assert template[last + 1] == template[index + 1..index + 1 + |digits|][k - 1];
      last := last + 1;
      var digit := DigitOf(template[last]);
      NumberStep(digits, k);
      GuardIsExact(capture, captures, digit);
      if capture > captures / 10 || (capture == captures / 10 && digit > captures % 10) {
        NumberGrows(digits, k);
        return false, last;
      }
      capture := capture * 10 + digit;
    }
    assert digits[..|digits|] == digits;
    ok := true;
  }

  method ReadCapture(template: string, index: nat, captures: nat) returns (ok: bool, last: nat)
    requires index + 1 < |template| && IsDigit(template[index + 1])
    ensures var n := Run(template[index + 1..]);
            && AllDigits(template[index + 1..index + 1 + n])
            && (ok <==> Number(template[index + 1..index + 1 + n]) <= captures)
            && (ok ==> last == index + n)
  {
    ghost var n := Run(template[index + 1..]);
    RunIsDigitRun(template, index + 1);
    ok, last := ReadDigits(template, index, captures, template[index + 1..index + 1 + n]);
  }

  lemma Skip(template: string, index: nat, n: nat)
    requires index + n <= |template|
    ensures template[index..][n..] == template[index + n..]
  {
  }

  /** `validateTransformationTemplate` accepts exactly the well-formed templates. */
  method ValidateTemplate(template: string, captures: nat) returns (v: Verdict)
    ensures v.Accepted? <==> WellFormed(template, captures)
  {
    var index := 0;
    while index < |template|
      invariant 0 <= index <= |template|
      invariant WellFormed(template, captures) <==> WellFormed(template[index..], captures)
    {
      if template[index] != '$' {
        Skip(template, index, 1);
        index := index + 1;
      } else if index + 1 >= |template| {
        return EndsWithDollar;
      } else if template[index + 1] == '$' {
        Skip(template, index, 2);
        index := index + 2;
      } else if template[index + 1] < '1' || template[index + 1] > '9' {
        return NotNumeric;
      } else {
        var ok, last := ReadCapture(template, index, captures);
        Reference(template, index, captures);
        if !ok { return Unavailable; }
        index := last + 1;
      }
    }
    v := Accepted;
  }

  lemma Reference(template: string, index: nat, captures: nat)
    requires index + 1 < |template| && template[index] == '$' && '1' <= template[index + 1] <= '9'
    ensures var n := Run(template[index + 1..]);
            && AllDigits(template[index + 1..index + 1 + n])
            && (WellFormed(template[index..], captures) <==>
            Number(template[index + 1..index + 1 + n]) <= captures && WellFormed(template[index + 1 + n..], captures))
  {
    var rest := template[index..];
    Skip(template, index, 1);
    var n := Run(rest[1..]);
    Skip(template, index, n + 1);
    assert rest[1..n + 1] == template[index + 1..index + 1 + n];
  }
}
