/** The number grammar of section 6 of RFC 8259, and `isJSONNumberLiteral`
    (components/queryengine/params.go), which scans for it. */
module JsonNumber {
  import opened Characters

  predicate AllDigits(s: string) {
    forall i :: 0 <= i < |s| ==> IsDigit(s[i])
  }

  predicate StartsWithDigit(s: string) {
    s != "" && IsDigit(s[0])
  }

  // ---------------------------------------------------------------------- the grammar

  predicate IsMinus(s: string) {
    s == "" || s == "-"
  }

  predicate IsInt(s: string) {
    s != "" && AllDigits(s) && (s[0] == '0' ==> |s| == 1)
  }

  predicate IsFrac(s: string) {
    s == "" || (s[0] == '.' && |s| > 1 && AllDigits(s[1..]))
  }

  predicate IsSign(s: string) {
    s == "" || s == "+" || s == "-"
  }

  ghost predicate IsExp(s: string) {
    s == "" || exists sign, digits ::
      IsSign(sign) && digits != "" && AllDigits(digits) && (s == "e" + sign + digits || s == "E" + sign + digits)
  }

  ghost predicate NumberParts(s: string, minus: string, whole: string, frac: string, exp: string) {
    s == minus + (whole + (frac + exp)) && IsMinus(minus) && IsInt(whole) && IsFrac(frac) && IsExp(exp)
  }

  ghost predicate IsNumber(s: string) {
    exists minus, whole, frac, exp :: NumberParts(s, minus, whole, frac, exp)
  }

  // --------------------------------------------------------- what is left to accept

  function DigitRun(s: string): (n: nat)
    ensures n <= |s|
  {
    if StartsWithDigit(s) then 1 + DigitRun(s[1..]) else 0
  }

  predicate AcceptDigits(s: string) {
    s != "" && DigitRun(s) == |s|
  }

  predicate AcceptExp(s: string) {
    if s == "" then true
    else if s[0] != 'e' && s[0] != 'E' then false
    else if |s| > 1 && (s[1] == '+' || s[1] == '-') then AcceptDigits(s[2..])
    else AcceptDigits(s[1..])
  }

  predicate AcceptFrac(s: string) {
    if s != "" && s[0] == '.' then
      var n := DigitRun(s[1..]);
      n > 0 && AcceptExp(s[1 + n..])
    else AcceptExp(s)
  }

  predicate AcceptInt(s: string) {
    var n := DigitRun(s);
    n > 0 && (n > 1 ==> s[0] != '0') && AcceptFrac(s[n..])
  }

  predicate AcceptNumber(s: string) {
    if s != "" && s[0] == '-' then AcceptInt(s[1..]) else AcceptInt(s)
  }

  // ------------------------------------------------------------------------- the scan

  method SkipDigits(s: string, start: nat) returns (i: nat)
    requires start <= |s|
    ensures start <= i <= |s| && i == start + DigitRun(s[start..])
  {
    i := start;
    while i < |s| && IsDigit(s[i])
      invariant start <= i <= |s|
      invariant i + DigitRun(s[i..]) == start + DigitRun(s[start..])
    {
      i := i + 1;
    }
  }

  /** Accepts exactly the numbers of the grammar. */
  method IsJSONNumberLiteral(s: string) returns (ok: bool)
    ensures ok <==> IsNumber(s)
  {
    hide DigitRun, IsNumber, AcceptNumber, AcceptInt, AcceptFrac, AcceptExp, AcceptDigits;
    AcceptsTheGrammar(s);
    NumberAt(s);
    var i := 0;
    if i < |s| && s[i] == '-' {
      i := i + 1;
    }
    IntAt(s, i);
    var start := i;
    i := SkipDigits(s, start);
    if i == start || (i - start > 1 && s[start] == '0') {
      return false;
    }
    FracAt(s, i);
    if i < |s| && s[i] == '.' {
      i := i + 1;
      start := i;
      i := SkipDigits(s, start);
      if i == start {
        return false;
      }
    }
    assert AcceptNumber(s) == AcceptExp(s[i..]);
    ExpAt(s, i);
    if i < |s| && (s[i] == 'e' || s[i] == 'E') {
      i := i + 1;
      if i < |s| && (s[i] == '+' || s[i] == '-') {
        i := i + 1;
      }
      start := i;
      i := SkipDigits(s, start);
      if i == start {
        return false;
      }
    }
    return i == |s|;
  }

  // What each stage accepts, in terms of offsets.
  lemma NumberAt(s: string)
    ensures AcceptNumber(s) == if 0 < |s| && s[0] == '-' then AcceptInt(s[1..]) else AcceptInt(s[0..])
  {
    assert s[0..] == s;
  }

  lemma IntAt(s: string, i: nat)
    requires i <= |s|
    ensures var n := DigitRun(s[i..]);
      AcceptInt(s[i..]) <==> n > 0 && !(n > 1 && s[i] == '0') && AcceptFrac(s[i + n..])
  {
    hide AcceptFrac;
    assert s[i..][DigitRun(s[i..])..] == s[i + DigitRun(s[i..])..];
  }

  lemma FracAt(s: string, i: nat)
    requires i <= |s|
    ensures AcceptFrac(s[i..]) <==>
      if i < |s| && s[i] == '.' then DigitRun(s[i + 1..]) > 0 && AcceptExp(s[i + 1 + DigitRun(s[i + 1..])..])
      else AcceptExp(s[i..])
  {
    hide AcceptExp;
    if i < |s| {
      assert s[i..][1..] == s[i + 1..];
      var n := DigitRun(s[i + 1..]);
      assert s[i..][1 + n..] == s[i + 1 + n..];
    }
  }

  lemma ExpAt(s: string, i: nat)
    requires i <= |s|
    ensures AcceptExp(s[i..]) <==>
      if i == |s| then true
      else if s[i] != 'e' && s[i] != 'E' then false
      else
        var j := if i + 1 < |s| && (s[i + 1] == '+' || s[i + 1] == '-') then i + 2 else i + 1;
        DigitRun(s[j..]) > 0 && j + DigitRun(s[j..]) == |s|
  {
    hide DigitRun;
    if i < |s| {
      assert s[i..][1..] == s[i + 1..];
      assert i + 1 < |s| ==> s[i..][2..] == s[i + 2..];
    }
  }

  // ------------------------------------------------------------- the scan is the grammar

  lemma {:induction false} DigitRunIs(digits: string, k: string)
    requires AllDigits(digits) && !StartsWithDigit(k)
    ensures DigitRun(digits + k) == |digits|
  {
    if digits == "" {
      assert digits + k == k;
    } else {
      assert (digits + k)[1..] == digits[1..] + k;
      DigitRunIs(digits[1..], k);
    }
  }

  lemma {:induction false} DigitRunSplits(s: string)
    ensures AllDigits(s[..DigitRun(s)]) && !StartsWithDigit(s[DigitRun(s)..])
  {
    if StartsWithDigit(s) {
      DigitRunSplits(s[1..]);
      var n := DigitRun(s);
      assert s[1..][n - 1..] == s[n..];
      assert s[..n] == [s[0]] + s[1..][..n - 1];
    }
  }

  lemma DigitsAccepted(s: string)
    ensures AcceptDigits(s) <==> s != "" && AllDigits(s)
  {
    hide DigitRun;
    DigitRunSplits(s);
    assert s[..|s|] == s;
    if AllDigits(s) {
      DigitRunIs(s, "");
      assert s + "" == s;
    }
  }

  lemma ExpAccepted(s: string)
    ensures AcceptExp(s) <==> IsExp(s)
  {
    hide AcceptDigits;
    if s != "" && (s[0] == 'e' || s[0] == 'E') {
      var sign := if |s| > 1 && (s[1] == '+' || s[1] == '-') then [s[1]] else "";
      var digits := s[1 + |sign|..];
      DigitsAccepted(digits);
      assert s == [s[0]] + sign + digits;
      if AcceptExp(s) {
        assert IsSign(sign) && (s == "e" + sign + digits || s == "E" + sign + digits);
      }
      if IsExp(s) {
        ExpIsAccepted(s);
      }
    }
  }

  lemma ExpIsAccepted(s: string)
    requires IsExp(s)
    ensures AcceptExp(s)
  {
    hide AcceptDigits;
    if s != "" {
      var sign, digits :| IsSign(sign) && digits != "" && AllDigits(digits)
        && (s == "e" + sign + digits || s == "E" + sign + digits);
      DigitsAccepted(digits);
      assert s[1 + |sign|..] == digits;
      assert sign == "" ==> s[1] == digits[0];
      assert sign != "" ==> s[1] == sign[0];
    }
  }

  lemma ExpStart(exp: string)
    requires IsExp(exp)
    ensures !StartsWithDigit(exp) && (exp != "" ==> exp[0] != '.')
  {
  }

  lemma FracAccepted(s: string)
    ensures AcceptFrac(s) <==> exists frac, exp :: s == frac + exp && IsFrac(frac) && IsExp(exp)
  {
    hide DigitRun, AcceptExp, IsExp;
    if AcceptFrac(s) {
      var n := if s != "" && s[0] == '.' then 1 + DigitRun(s[1..]) else 0;
      FracFound(s, n);
    }
    forall frac, exp | s == frac + exp && IsFrac(frac) && IsExp(exp)
      ensures AcceptFrac(s)
    {
      FracIsAccepted(frac, exp);
    }
  }

  lemma FracFound(s: string, n: nat)
    requires AcceptFrac(s)
    requires n == if s != "" && s[0] == '.' then 1 + DigitRun(s[1..]) else 0
    ensures n <= |s| && s == s[..n] + s[n..] && IsFrac(s[..n]) && IsExp(s[n..])
  {
    hide DigitRun, AcceptExp, IsExp;
    if n > 0 {
      DigitRunSplits(s[1..]);
      assert s[..n][1..] == s[1..][..n - 1];
    }
    assert s == s[..n] + s[n..];
    ExpAccepted(s[n..]);
  }

  lemma FracIsAccepted(frac: string, exp: string)
    requires IsFrac(frac) && IsExp(exp)
    ensures AcceptFrac(frac + exp)
  {
    hide DigitRun, AcceptExp, IsExp;
    ExpAccepted(exp);
    ExpStart(exp);
    if frac == "" {
      assert frac + exp == exp;
    } else {
      DigitRunIs(frac[1..], exp);
      assert (frac + exp)[1..] == frac[1..] + exp;
      assert (frac + exp)[|frac|..] == exp;
    }
  }

  lemma IntFound(s: string)
    requires AcceptInt(s)
    ensures exists whole, frac, exp :: NumberParts(s, "", whole, frac, exp)
  {
    hide DigitRun, AcceptFrac, IsExp;
    var n := DigitRun(s);
    DigitRunSplits(s);
    FracAccepted(s[n..]);
    var frac, exp :| s[n..] == frac + exp && IsFrac(frac) && IsExp(exp);
    assert s == "" + (s[..n] + (frac + exp));
    assert NumberParts(s, "", s[..n], frac, exp);
  }

  lemma IntIsAccepted(whole: string, frac: string, exp: string)
    requires IsInt(whole) && IsFrac(frac) && IsExp(exp)
    ensures AcceptInt(whole + (frac + exp)) && IsDigit((whole + (frac + exp))[0])
  {
    hide DigitRun, AcceptFrac, IsExp;
    ExpStart(exp);
    assert frac == "" ==> frac + exp == exp;
    DigitRunIs(whole, frac + exp);
    FracAccepted(frac + exp);
    assert (whole + (frac + exp))[|whole|..] == frac + exp;
  }

  lemma AcceptsTheGrammar(s: string)
    ensures AcceptNumber(s) <==> IsNumber(s)
  {
    hide AcceptInt, IsInt, IsFrac, IsExp;
    if AcceptNumber(s) {
      var minus := if s != "" && s[0] == '-' then "-" else "";
      var t := s[|minus|..];
      assert s == minus + t;
      IntFound(t);
      var whole, frac, exp :| NumberParts(t, "", whole, frac, exp);
      assert t == whole + (frac + exp);
      assert NumberParts(s, minus, whole, frac, exp);
    }
    if IsNumber(s) {
      var minus, whole, frac, exp :| NumberParts(s, minus, whole, frac, exp);
      IntIsAccepted(whole, frac, exp);
      assert s[|minus|..] == whole + (frac + exp);
    }
  }
}
