/** The CPF and CNPJ value objects (internal/domain/value_object/cpf.go and
    cnpj.go): a Brazilian taxpayer number kept as its digits only, validated
    by length, a ban on all-equal digits and two modulo-11 check digits, and
    printed with the usual mask. Digits are the ASCII digits '0'..'9'. */
module ValueObject {
  import opened Errx
  import opened Text

  // ---------- digitsOnly ----------

  /** The digits of s, in order; everything else is dropped. */
  function DigitsOnly(s: string): (r: string)
    ensures AllDigits(r) && |r| <= |s|
  {
    if s == [] then []
    else DigitsOnly(s[..|s| - 1]) + (if IsDigit(s[|s| - 1]) then [s[|s| - 1]] else [])
  }

  /** digitsOnly's loop over the input. */
  method StripToDigits(s: string) returns (out: string)
    ensures out == DigitsOnly(s)
  {
    out := [];
    var i := 0;
    while i < |s|
      invariant 0 <= i <= |s|
      invariant out == DigitsOnly(s[..i])
    {
      assert s[..i + 1][..i] == s[..i];
      if IsDigit(s[i]) {
        out := out + [s[i]];
      }
      i := i + 1;
    }
    assert s[..i] == s;
  }

  lemma {:induction false} DigitsOnlyAppend(a: string, b: string)
    ensures DigitsOnly(a + b) == DigitsOnly(a) + DigitsOnly(b)
    decreases |b|
  {
    if b != [] {
      var n := |b| - 1;
      assert (a + b)[..|a + b| - 1] == a + b[..n];
      assert (a + b)[|a + b| - 1] == b[n];
      var last := if IsDigit(b[n]) then [b[n]] else [];
      assert DigitsOnly(a + b) == DigitsOnly(a + b[..n]) + last;
      assert DigitsOnly(b) == DigitsOnly(b[..n]) + last;
      DigitsOnlyAppend(a, b[..n]);
    } else {
      assert a + b == a;
    }
  }

  /** Digits followed by a separator contribute just the digits. */
  lemma DigitsThenSeparator(acc: string, digits: string, sep: char)
    requires AllDigits(digits) && !IsDigit(sep)
    ensures DigitsOnly(acc + digits + [sep]) == DigitsOnly(acc) + digits
  {
    DigitsOnlyAppend(acc + digits, [sep]);
    DigitsOnlyAppend(acc, digits);
    DigitsOnlyOfDigits(digits);
    assert DigitsOnly([sep]) == [];
  }

  /** A string of digits is kept whole, so digitsOnly is idempotent. */
  lemma {:induction false} DigitsOnlyOfDigits(s: string)
    requires AllDigits(s)
    ensures DigitsOnly(s) == s
    decreases |s|
  {
    if s != [] {
      DigitsOnlyOfDigits(s[..|s| - 1]);
    }
  }

  /** A character survives exactly when it is a digit of the input. */
  lemma {:induction false} DigitsOnlyMembers(s: string, c: char)
    ensures c in DigitsOnly(s) <==> c in s && IsDigit(c)
    decreases |s|
  {
    if s != [] {
      var n := |s| - 1;
      DigitsOnlyMembers(s[..n], c);
      assert s == s[..n] + [s[n]];
    }
  }

  /** A digit string with no separators. */
  type DigitString = s: string | AllDigits(s)

  // ---------- allSameDigits ----------

  /** A non-empty string made of one repeated character. */
  predicate AllSame(s: string)
  {
    |s| > 0 && forall k :: 0 <= k < |s| ==> s[k] == s[0]
  }

  method AllSameDigits(s: string) returns (b: bool)
    ensures b == AllSame(s)
  {
    if |s| == 0 {
      return false;
    }
    var first := s[0];
    var i := 1;
    while i < |s|
      invariant 1 <= i <= |s|
      invariant forall k :: 0 <= k < i ==> s[k] == first
    {
      if s[i] != first {
        return false;
      }
      i := i + 1;
    }
    return true;
  }

  // ---------- modulo-11 check digits ----------

  /** Σ digit(base[k]) × weights[k] for k from i to the last weight. */
  function WeightedSumFrom(base: DigitString, weights: seq<int>, i: nat): int
    requires i <= |weights| <= |base|
    decreases |weights| - i
  {
    if i == |weights| then 0
    else DigitValue(base[i]) * weights[i] + WeightedSumFrom(base, weights, i + 1)
  }

  /** Σ digit(base[k]) × weights[k] over all the weights. */
  function WeightedSum(base: DigitString, weights: seq<int>): int
    requires |weights| <= |base|
  {
    WeightedSumFrom(base, weights, 0)
  }

  /** Go's % on int, which truncates toward zero. */
  function GoRem(a: int, b: int): (r: int)
    requires b > 0
    ensures a >= 0 ==> r == a % b
    ensures -b < r < b
  {
    if a >= 0 then a % b else -((-a) % b)
  }

  /** The check digit of a weighted sum: 0 when the remainder is below 2,
      else 11 minus the remainder. */
  function Mod11Digit(sum: int): (d: int)
    ensures 0 <= d <= 9
    ensures sum >= 0 && sum % 11 >= 2 ==> (sum + d) % 11 == 0
    ensures sum >= 0 && sum % 11 < 2 ==> d == 0
  {
    var rem := GoRem(sum, 11);
    if rem < 2 then 0 else 11 - rem
  }

  /** Weights start, start-1, ... for n positions (CPF's 10..2 and 11..2). */
  function Descending(start: int, n: nat): (w: seq<int>)
    ensures |w| == n && forall k :: 0 <= k < n ==> w[k] == start - k
  {
    seq(n, k => start - k)
  }

  function CpfDigit(base: DigitString, startWeight: int): (d: int)
    ensures 0 <= d <= 9
  {
    Mod11Digit(WeightedSum(base, Descending(startWeight, |base|)))
  }

  /** calcCpfDigit: one running sum, the weight counting down from startWeight. */
  method CalcCpfDigit(base: DigitString, startWeight: int) returns (d: int)
    ensures d == CpfDigit(base, startWeight)
  {
    var weights := Descending(startWeight, |base|);
    var sum := 0;
    var w := startWeight;
    var i := 0;
    while i < |base|
      invariant 0 <= i <= |base|
      invariant w == startWeight - i
      invariant sum + WeightedSumFrom(base, weights, i) == WeightedSum(base, weights)
    {
      sum := sum + DigitValue(base[i]) * w;
      w := w - 1;
      i := i + 1;
    }
    var rem := GoRem(sum, 11);
    if rem < 2 {
      return 0;
    }
    return 11 - rem;
  }

  /** calcCnpjDigit; Go indexes base by the weights, so a shorter base panics. */
  method CalcCnpjDigit(base: DigitString, weights: seq<int>) returns (d: int)
    requires |weights| <= |base|
    ensures d == Mod11Digit(WeightedSum(base, weights))
  {
    var sum := 0;
    var i := 0;
    while i < |weights|
      invariant 0 <= i <= |weights|
      invariant sum + WeightedSumFrom(base, weights, i) == WeightedSum(base, weights)
    {
      sum := sum + DigitValue(base[i]) * weights[i];
      i := i + 1;
    }
    var rem := GoRem(sum, 11);
    if rem < 2 {
      return 0;
    }
    return 11 - rem;
  }

  /** fmt.Sprintf("%d", d) of a single digit is that digit's character. */
  lemma FormatOneDigit(d: int)
    requires 0 <= d <= 9
    ensures FormatInt(d) == [DigitChar(d)]
  {
  }

  // ---------- CPF ----------

  const ErrCpfInvalidLength: Error := Plain("cpf must have 11 digits", None)
  const ErrCpfInvalid: Error := Plain("cpf is invalid", None)

  /** Cpf holds only the digits NewCpf kept. */
  datatype Cpf = Cpf(value: DigitString)

  method NewCpf(value: string) returns (c: Cpf)
    ensures c.value == DigitsOnly(value)
    ensures AllDigits(value) ==> c.value == value
  {
    var d := StripToDigits(value);
    if AllDigits(value) {
      DigitsOnlyOfDigits(value);
    }
    return Cpf(d);
  }

  /** The two CPF check digits of a 9-digit base appended to it. */
  function WithCpfCheckDigits(base: DigitString): (v: DigitString)
    requires |base| == 9
    ensures |v| == 11 && v[..9] == base
  {
    var d1 := CpfDigit(base, 10);
    var d2 := CpfDigit(base + [DigitChar(d1)], 11);
    base + [DigitChar(d1), DigitChar(d2)]
  }

  /** What Validate reports for a CPF with these digits. */
  function CpfError(v: DigitString): (r: Option<Error>)
    ensures r.Some? ==> r.value in {ErrCpfInvalidLength, ErrCpfInvalid}
    ensures r == Some(ErrCpfInvalidLength) <==> |v| != 11
    ensures |v| == 11 && AllSame(v) ==> r == Some(ErrCpfInvalid)
  {
    if |v| != 11 then Some(ErrCpfInvalidLength)
    else if AllSame(v) then Some(ErrCpfInvalid)
    else
      var d1 := CpfDigit(v[..9], 10);
      FormatOneDigit(d1);
      var d2 := CpfDigit(v[..9] + FormatInt(d1), 11);
      if v[9] != DigitChar(d1) || v[10] != DigitChar(d2) then Some(ErrCpfInvalid) else None
  }

  method ValidateCpf(c: Cpf) returns (err: Option<Error>)
    ensures err == CpfError(c.value)
  {
    if |c.value| != 11 {
      return Some(ErrCpfInvalidLength);
    }
    var same := AllSameDigits(c.value);
    if same {
      return Some(ErrCpfInvalid);
    }
    var d1 := CalcCpfDigit(c.value[..9], 10);
    FormatOneDigit(d1);
    var d2 := CalcCpfDigit(c.value[..9] + FormatInt(d1), 11);
    if c.value[9] != DigitChar(d1) || c.value[10] != DigitChar(d2) {
      return Some(ErrCpfInvalid);
    }
    return None;
  }

  /** A CPF is valid exactly when it is 11 digits, not all equal, and its last
      two digits are the check digits of its first nine: every 9-digit base
      has exactly one valid completion, so a wrong check digit is always
      caught. */
  lemma CpfValidIffCompleted(v: DigitString)
    ensures CpfError(v).None? <==> |v| == 11 && !AllSame(v) && v == WithCpfCheckDigits(v[..9])
  {
    if |v| == 11 && !AllSame(v) {
      var w := WithCpfCheckDigits(v[..9]);
      if CpfError(v).None? {
        assert v == v[..9] + [v[9], v[10]];
      } else {
        assert v[9] != w[9] || v[10] != w[10];
      }
    }
  }

  function CpfMask(v: string): string
    requires |v| == 11
  {
    v[0..3] + "." + v[3..6] + "." + v[6..9] + "-" + v[9..11]
  }

  /** Masked: 000.000.000-00, or the length error. */
  function CpfMasked(c: Cpf): (r: Result<string>)
    ensures r.Err? <==> |c.value| != 11
    ensures r.Err? ==> r.error == ErrCpfInvalidLength
    ensures r.Ok? ==> |r.value| == 14 && r.value[3] == '.' && r.value[7] == '.' && r.value[11] == '-'
  {
    if |c.value| != 11 then Err(ErrCpfInvalidLength) else Ok(CpfMask(c.value))
  }

  /** Reading a masked CPF back gives the same digits: NewCpf(Masked()) is
      the CPF itself. */
  lemma CpfMaskedRoundTrip(c: Cpf)
    requires |c.value| == 11
    ensures DigitsOnly(CpfMasked(c).value) == c.value
  {
    var v := c.value;
    var p1 := v[0..3] + ".";
    DigitsThenSeparator([], v[0..3], '.');
    assert [] + v[0..3] + ['.'] == p1;
    var p2 := p1 + v[3..6] + ".";
    DigitsThenSeparator(p1, v[3..6], '.');
    var p3 := p2 + v[6..9] + "-";
    DigitsThenSeparator(p2, v[6..9], '-');
    DigitsOnlyAppend(p3, v[9..11]);
    DigitsOnlyOfDigits(v[9..11]);
    assert CpfMask(v) == p3 + v[9..11];
    assert v == v[0..3] + v[3..6] + v[6..9] + v[9..11];
  }

  // ---------- CNPJ ----------

  const ErrCnpjInvalidLength: Error := Plain("cnpj must have 14 digits", None)
  const ErrCnpjInvalid: Error := Plain("cnpj is invalid", None)

  const CnpjWeights1: seq<int> := [5, 4, 3, 2, 9, 8, 7, 6, 5, 4, 3, 2]
  const CnpjWeights2: seq<int> := [6, 5, 4, 3, 2, 9, 8, 7, 6, 5, 4, 3, 2]

  /** Cnpj holds only the digits NewCnpj kept. */
  datatype Cnpj = Cnpj(value: DigitString)

  method NewCnpj(value: string) returns (c: Cnpj)
    ensures c.value == DigitsOnly(value)
    ensures AllDigits(value) ==> c.value == value
  {
    var d := StripToDigits(value);
    if AllDigits(value) {
      DigitsOnlyOfDigits(value);
    }
    return Cnpj(d);
  }

  /** The two CNPJ check digits of a 12-digit base appended to it. */
  function WithCnpjCheckDigits(base: DigitString): (v: DigitString)
    requires |base| == 12
    ensures |v| == 14 && v[..12] == base
  {
    var d1 := Mod11Digit(WeightedSum(base, CnpjWeights1));
    var d2 := Mod11Digit(WeightedSum(base + [DigitChar(d1)], CnpjWeights2));
    base + [DigitChar(d1), DigitChar(d2)]
  }

  /** What Validate reports for a CNPJ with these digits. */
  function CnpjError(v: DigitString): (r: Option<Error>)
    ensures r.Some? ==> r.value in {ErrCnpjInvalidLength, ErrCnpjInvalid}
    ensures r == Some(ErrCnpjInvalidLength) <==> |v| != 14
    ensures |v| == 14 && AllSame(v) ==> r == Some(ErrCnpjInvalid)
  {
    if |v| != 14 then Some(ErrCnpjInvalidLength)
    else if AllSame(v) then Some(ErrCnpjInvalid)
    else
      var d1 := Mod11Digit(WeightedSum(v[..12], CnpjWeights1));
      FormatOneDigit(d1);
      var d2 := Mod11Digit(WeightedSum(v[..12] + FormatInt(d1), CnpjWeights2));
      if v[12] != DigitChar(d1) || v[13] != DigitChar(d2) then Some(ErrCnpjInvalid) else None
  }

  method ValidateCnpj(c: Cnpj) returns (err: Option<Error>)
    ensures err == CnpjError(c.value)
  {
    if |c.value| != 14 {
      return Some(ErrCnpjInvalidLength);
    }
    var same := AllSameDigits(c.value);
    if same {
      return Some(ErrCnpjInvalid);
    }
    var d1 := CalcCnpjDigit(c.value[..12], CnpjWeights1);
    FormatOneDigit(d1);
    var d2 := CalcCnpjDigit(c.value[..12] + FormatInt(d1), CnpjWeights2);
    if c.value[12] != DigitChar(d1) || c.value[13] != DigitChar(d2) {
      return Some(ErrCnpjInvalid);
    }
    return None;
  }

  /** A CNPJ is valid exactly when it is 14 digits, not all equal, and its
      last two digits are the check digits of its first twelve. */
  lemma CnpjValidIffCompleted(v: DigitString)
    ensures CnpjError(v).None? <==> |v| == 14 && !AllSame(v) && v == WithCnpjCheckDigits(v[..12])
  {
    if |v| == 14 && !AllSame(v) {
      var w := WithCnpjCheckDigits(v[..12]);
      if CnpjError(v).None? {
        assert v == v[..12] + [v[12], v[13]];
      } else {
        assert v[12] != w[12] || v[13] != w[13];
      }
    }
  }

  function CnpjMask(v: string): string
    requires |v| == 14
  {
    v[0..2] + "." + v[2..5] + "." + v[5..8] + "/" + v[8..12] + "-" + v[12..14]
  }

  /** Masked: 00.000.000/0000-00, or the length error. */
  function CnpjMasked(c: Cnpj): (r: Result<string>)
    ensures r.Err? <==> |c.value| != 14
    ensures r.Err? ==> r.error == ErrCnpjInvalidLength
    ensures r.Ok? ==> |r.value| == 18 && r.value[2] == '.' && r.value[6] == '.' && r.value[10] == '/' && r.value[15] == '-'
  {
    if |c.value| != 14 then Err(ErrCnpjInvalidLength) else Ok(CnpjMask(c.value))
  }

  /** Reading a masked CNPJ back gives the same digits. */
  lemma CnpjMaskedRoundTrip(c: Cnpj)
    requires |c.value| == 14
    ensures DigitsOnly(CnpjMasked(c).value) == c.value
  {
    var v := c.value;
    var p1 := v[0..2] + ".";
    DigitsThenSeparator([], v[0..2], '.');
    assert [] + v[0..2] + ['.'] == p1;
    var p2 := p1 + v[2..5] + ".";
    DigitsThenSeparator(p1, v[2..5], '.');
    var p3 := p2 + v[5..8] + "/";
    DigitsThenSeparator(p2, v[5..8], '/');
    var p4 := p3 + v[8..12] + "-";
    DigitsThenSeparator(p3, v[8..12], '-');
    DigitsOnlyAppend(p4, v[12..14]);
    DigitsOnlyOfDigits(v[12..14]);
    assert CnpjMask(v) == p4 + v[12..14];
    assert v == v[0..2] + v[2..5] + v[5..8] + v[8..12] + v[12..14];
  }

  // ---------- the worked examples ----------

  /** The check digits of CPF 529.982.247-25 are 2 and 5. */
  lemma CpfCheckDigitsExample()
    ensures CpfDigit("529982247", 10) == 2
    ensures CpfDigit("5299822472", 11) == 5
  {
    CpfFirstDigitExample();
    CpfSecondDigitExample();
  }

  lemma CpfFirstDigitExample()
    ensures CpfDigit("529982247", 10) == 2
  {
    assert Descending(10, 9) == [10, 9, 8, 7, 6, 5, 4, 3, 2];
    assert WeightedSum("529982247", [10, 9, 8, 7, 6, 5, 4, 3, 2]) == 295;
  }

  lemma CpfSecondDigitExample()
    ensures CpfDigit("5299822472", 11) == 5
  {
    assert Descending(11, 10) == [11, 10, 9, 8, 7, 6, 5, 4, 3, 2];
    assert WeightedSum("5299822472", [11, 10, 9, 8, 7, 6, 5, 4, 3, 2]) == 347;
  }

  /** So 529.982.247-25 is valid, and 529.982.247-26 is caught. */
  lemma CpfValidateExample(valid: DigitString, typo: DigitString)
    requires valid == "52998224725" && typo == "52998224726"
    ensures CpfError(valid) == None
    ensures CpfError(typo) == Some(ErrCpfInvalid)
  {
    CpfCheckDigitsExample();
    assert valid[..9] == "529982247";
    assert typo[..9] == "529982247";
    FormatOneDigit(2);
    assert "529982247" + FormatInt(2) == "5299822472";
    assert !AllSame(valid) by { assert valid[1] != valid[0]; }
    assert !AllSame(typo) by { assert typo[1] != typo[0]; }
  }

  /** The check digits of CNPJ 04.252.011/0001-10 are 1 and 0. */
  lemma CnpjCheckDigitsExample()
    ensures AllDigits("042520110001")
    ensures Mod11Digit(WeightedSum("042520110001", CnpjWeights1)) == 1
    ensures Mod11Digit(WeightedSum("0425201100011", CnpjWeights2)) == 0
  {
    forall k | 0 <= k < 12
      ensures IsDigit("042520110001"[k])
    {
      if k < 6 {
      }
    }
    assert WeightedSum("042520110001", CnpjWeights1) == 65;
    assert WeightedSum("0425201100011", CnpjWeights2) == 67;
  }

  /** So 04.252.011/0001-10 is valid, and ending it in 11 is caught. */
  lemma CnpjValidateExample(valid: DigitString, typo: DigitString)
    requires valid == "04252011000110" && typo == "04252011000111"
    ensures CnpjError(valid) == None
    ensures CnpjError(typo) == Some(ErrCnpjInvalid)
  {
    CnpjCheckDigitsExample();
    assert valid[..12] == "042520110001";
    assert typo[..12] == "042520110001";
    FormatOneDigit(1);
    assert "042520110001" + FormatInt(1) == "0425201100011";
    assert !AllSame(valid) by { assert valid[1] != valid[0]; }
    assert !AllSame(typo) by { assert typo[1] != typo[0]; }
  }
}
