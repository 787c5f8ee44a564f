/** The original person utilities (app/types/person.ts): the full CPF check of
    the Receita Federal rule, the one-shot display mask and the date format.
    The Person record they serve is declared here and shared with the rest of
    the model. */
module TypesPerson {
  import opened Optional
  import opened Text

  /** A person as the forms and stores hold it. Optional fields are `None`
      when `undefined` or `null`; the schemas' own field checks (e-mail syntax,
      the gender enumeration) are not modelled. */
  datatype Person = Person(
    id: Option<string>,
    nome: string,
    sexo: Option<string>,
    email: Option<string>,
    dataNascimento: string,
    naturalidade: Option<string>,
    nacionalidade: Option<string>,
    cpf: string)

  // ---------------------------------------------------------------------
  // The check-digit rule

  /** `parseInt` of one digit character. */
  function DigitValue(c: char): (v: nat)
    requires IsDigit(c)
    ensures v <= 9
  {
    c as int - '0' as int
  }

  lemma DigitValueInjective(a: char, b: char)
    requires IsDigit(a) && IsDigit(b) && DigitValue(a) == DigitValue(b)
    ensures a == b
  {
    assert a as int == b as int;
  }

  /** The weighted sum Σ d[i]·(top − i) over the first `n` digits. */
  function WeightedSum(d: string, n: nat, top: int): int
    requires n <= |d| && AllDigits(d)
  {
    if n == 0 then 0
    else WeightedSum(d, n - 1, top) + DigitValue(d[n - 1]) * (top - (n - 1))
  }

  /** A check digit from its weighted sum: (sum·10) mod 11, where the
      remainders 10 and 11 count as 0. */
  function CheckDigit(sum: int): (c: nat)
    ensures c <= 9
  {
    var remainder := (sum * 10) % 11;
    if remainder == 10 || remainder == 11 then 0 else remainder
  }

  /** `/^(\d)\1{10}$/` on a cleaned string: one digit repeated throughout. */
  predicate AllSame(d: string) {
    forall i :: 0 <= i < |d| ==> d[i] == d[0]
  }

  /** The CPF rule: eleven digits once separators are removed, not one digit
      repeated, and both check digits as the weighted sums give them. */
  ghost predicate IsValidCpf(cpf: string) {
    var d := Digits(cpf);
    && |d| == 11
    && !AllSame(d)
    && CheckDigit(WeightedSum(d, 9, 10)) == DigitValue(d[9])
    && CheckDigit(WeightedSum(d, 10, 11)) == DigitValue(d[10])
  }

  /** `validateCPF`: the two accumulation loops of the source. */
  method ValidateCpf(cpf: string) returns (ok: bool)
    ensures ok <==> IsValidCpf(cpf)
    ensures |Digits(cpf)| != 11 ==> !ok
    ensures |Digits(cpf)| == 11 && AllSame(Digits(cpf)) ==> !ok
  {
    var cleanCpf := Digits(cpf);
    if |cleanCpf| != 11 {
      return false;
    }
    if AllSame(cleanCpf) {
      return false;
    }

    var sum := 0;
    for i := 0 to 9
      invariant sum == WeightedSum(cleanCpf, i, 10)
    {
      sum := sum + DigitValue(cleanCpf[i]) * (10 - i);
    }
    var remainder := (sum * 10) % 11;
    if remainder == 10 || remainder == 11 {
      remainder := 0;
    }
    if remainder != DigitValue(cleanCpf[9]) {
      return false;
    }

    sum := 0;
    for i := 0 to 10
      invariant sum == WeightedSum(cleanCpf, i, 11)
    {
      sum := sum + DigitValue(cleanCpf[i]) * (11 - i);
    }
    remainder := (sum * 10) % 11;
    if remainder == 10 || remainder == 11 {
      remainder := 0;
    }
    if remainder != DigitValue(cleanCpf[10]) {
      return false;
    }

    return true;
  }

  /** Separators do not matter: the verdict on a string is the verdict on its
      digits alone, so "123.456.789-09" and "12345678909" are judged alike. */
  lemma ValidCpfIgnoresSeparators(cpf: string)
    ensures IsValidCpf(cpf) <==> IsValidCpf(Digits(cpf))
  {
    DigitsIdempotent(cpf);
  }

  /** A digit string is valid when it passes the rule on itself. */
  lemma ValidFromDigits(d: string)
    requires AllDigits(d) && |d| == 11 && !AllSame(d)
    requires CheckDigit(WeightedSum(d, 9, 10)) == DigitValue(d[9])
    requires CheckDigit(WeightedSum(d, 10, 11)) == DigitValue(d[10])
    ensures IsValidCpf(d)
  {
    DigitsOfDigitString(d);
  }

  lemma ExampleFirstSum()
    ensures AllDigits("12345678909") && WeightedSum("12345678909", 9, 10) == 210
  {
    var d := "12345678909";
    assert AllDigits(d) by {
      forall i | 0 <= i < |d| ensures IsDigit(d[i]) { }
    }
    assert WeightedSum(d, 3, 10) == 52;
    assert WeightedSum(d, 6, 10) == 140;
  }

  lemma ExampleSecondSum()
    ensures AllDigits("12345678909") && WeightedSum("12345678909", 10, 11) == 255
  {
    var d := "12345678909";
    ExampleFirstSum();
    assert WeightedSum(d, 3, 11) == 58;
    assert WeightedSum(d, 6, 11) == 161;
    assert WeightedSum(d, 9, 11) == 255;
  }

  /** The worked example 123.456.789-09: weighted sums 210 and 255 give the
      check digits 0 and 9. */
  lemma KnownValidCpf()
    ensures IsValidCpf("12345678909")
  {
    var d := "12345678909";
    ExampleFirstSum();
    ExampleSecondSum();
    assert CheckDigit(210) == 0 && CheckDigit(255) == 9;
    assert d[1] != d[0];
    ValidFromDigits(d);
  }

  /** A masked string is judged on its four digit groups. */
  lemma ValidCpfOfMasked(m: string, a: string, b: string, c: string, e: string)
    requires m == a + "." + b + "." + c + "-" + e
    requires AllDigits(a) && AllDigits(b) && AllDigits(c) && AllDigits(e)
    ensures Digits(m) == a + b + c + e
    ensures IsValidCpf(m) <==> IsValidCpf(a + b + c + e)
  {
    DigitsOfMasked(a, b, c, e);
    ValidCpfIgnoresSeparators(m);
  }

  lemma ExampleGroupsAreDigits()
    ensures AllDigits("123") && AllDigits("456") && AllDigits("789")
    ensures AllDigits("09") && AllDigits("00") && AllDigits("111") && AllDigits("11")
    ensures "123" + "456" + "789" + "09" == "12345678909"
    ensures "123" + "456" + "789" + "00" == "12345678900"
  {
    forall i | 0 <= i < 3
      ensures IsDigit("123"[i]) && IsDigit("456"[i]) && IsDigit("789"[i]) && IsDigit("111"[i]) { }
    forall i | 0 <= i < 2 ensures IsDigit("09"[i]) && IsDigit("00"[i]) && IsDigit("11"[i]) { }
  }

  /** The same number with separators gets the same verdict. */
  lemma KnownValidMaskedCpf(m: string)
    requires m == "123.456.789-09"
    ensures IsValidCpf(m)
  {
    ExampleGroupsAreDigits();
    ValidCpfOfMasked(m, "123", "456", "789", "09");
    assert Digits(m) == "12345678909";
    KnownValidCpf();
    ValidCpfIgnoresSeparators(m);
  }

  lemma ExampleWrongSum()
    ensures AllDigits("12345678900") && WeightedSum("12345678900", 10, 11) == 255
  {
    var d := "12345678900";
    assert AllDigits(d) by {
      forall i | 0 <= i < |d| ensures IsDigit(d[i]) { }
    }
    assert WeightedSum(d, 3, 11) == 58;
    assert WeightedSum(d, 6, 11) == 161;
    assert WeightedSum(d, 9, 11) == 255;
  }

  /** The same first nine digits with check digits 00 are refused: the
      second check digit must be 9. */
  lemma KnownWrongCheckDigits(m: string)
    requires m == "123.456.789-00"
    ensures !IsValidCpf(m)
  {
    ExampleGroupsAreDigits();
    ValidCpfOfMasked(m, "123", "456", "789", "00");
    WrongDigitsRefused(Digits(m));
  }

  lemma WrongDigitsRefused(d: string)
    requires d == "12345678900"
    ensures !IsValidCpf(d)
  {
    ExampleWrongSum();
    assert CheckDigit(255) == 9 && DigitValue(d[10]) == 0;
    InvalidFromDigits(d);
  }

  /** A digit string whose second check digit is wrong is refused. */
  lemma InvalidFromDigits(d: string)
    requires AllDigits(d) && |d| == 11
    requires CheckDigit(WeightedSum(d, 10, 11)) != DigitValue(d[10])
    ensures !IsValidCpf(d)
  {
    DigitsOfDigitString(d);
  }

  /** Eleven equal digits are refused even though their check digits fit. */
  lemma KnownRepeatedDigits(m: string)
    requires m == "111.111.111-11"
    ensures !IsValidCpf(m)
  {
    ExampleGroupsAreDigits();
    ValidCpfOfMasked(m, "111", "111", "111", "11");
    var d := Digits(m);
    assert d == "111" + "111" + "111" + "11";
    assert AllSame(d) by {
      forall i | 0 <= i < |d| ensures d[i] == d[0] { }
    }
  }

  lemma {:induction false} WeightedSumPrefix(d1: string, d2: string, n: nat, top: int)
    requires n <= |d1| && n <= |d2| && AllDigits(d1) && AllDigits(d2)
    requires d1[..n] == d2[..n]
    ensures WeightedSum(d1, n, top) == WeightedSum(d2, n, top)
  {
    if n > 0 {
      assert d1[..n - 1] == d1[..n][..n - 1] && d2[..n - 1] == d2[..n][..n - 1];
      WeightedSumPrefix(d1, d2, n - 1, top);
      assert d1[n - 1] == d1[..n][n - 1] && d2[n - 1] == d2[..n][n - 1];
    }
  }

  /** The last two digits are determined by the first nine: two valid CPFs
      that share their first nine digits are the same number. */
  lemma CheckDigitsUnique(s: string, t: string)
    requires IsValidCpf(s) && IsValidCpf(t)
    requires Digits(s)[..9] == Digits(t)[..9]
    ensures Digits(s) == Digits(t)
  {
    var d1, d2 := Digits(s), Digits(t);
    WeightedSumPrefix(d1, d2, 9, 10);
    DigitValueInjective(d1[9], d2[9]);
    assert d1[..10] == d2[..10] by {
      forall i | 0 <= i < 10 ensures d1[i] == d2[i] {
        if i < 9 {
          assert d1[i] == d1[..9][i] && d2[i] == d2[..9][i];
        }
      }
    }
    WeightedSumPrefix(d1, d2, 10, 11);
    DigitValueInjective(d1[10], d2[10]);
    assert forall i | 0 <= i < 11 :: d1[i] == d2[i] by {
      forall i | 0 <= i < 11 ensures d1[i] == d2[i] {
        if i < 10 {
          assert d1[i] == d1[..10][i] && d2[i] == d2[..10][i];
        }
      }
    }
  }

  /** Changing either check digit of a valid CPF makes it invalid. */
  lemma AlteredCheckDigitRejected(s: string, t: string)
    requires IsValidCpf(s)
    requires |Digits(t)| == 11 && Digits(s)[..9] == Digits(t)[..9]
    requires Digits(s)[9] != Digits(t)[9] || Digits(s)[10] != Digits(t)[10]
    ensures !IsValidCpf(t)
  {
    if IsValidCpf(t) {
      CheckDigitsUnique(s, t);
    }
  }

  // ---------------------------------------------------------------------
  // The display mask and the date format

  /** `formatCPF`: `/(\d{3})(\d{3})(\d{3})(\d{2})/` applied once to the digits,
      which matches at position 0 exactly when there are at least eleven. */
  function FormatCpf(cpf: string): (r: string)
    ensures |r| == |Digits(cpf)| + (if |Digits(cpf)| >= 11 then 3 else 0)
  {
    var d := Digits(cpf);
    if |d| >= 11 then d[..3] + "." + d[3..6] + "." + d[6..9] + "-" + d[9..11] + d[11..]
    else d
  }

  /** Putting a non-digit between two strings leaves their digits joined. */
  lemma DigitsAroundSeparator(x: string, sep: char, y: string)
    requires !IsDigit(sep)
    ensures Digits(x + [sep] + y) == Digits(x) + Digits(y)
  {
    DigitsConcat(x + [sep], y);
    DigitsConcat(x, [sep]);
  }

  /** The digits of a `aaa.bbb.ccc-ee` shaped string are its four groups. */
  lemma DigitsOfMasked(a: string, b: string, c: string, e: string)
    requires AllDigits(a) && AllDigits(b) && AllDigits(c) && AllDigits(e)
    ensures Digits(a + "." + b + "." + c + "-" + e) == a + b + c + e
  {
    DigitsOfDigitString(a);
    DigitsOfDigitString(b);
    DigitsOfDigitString(c);
    DigitsOfDigitString(e);
    DigitsAroundSeparator(a, '.', b);
    DigitsAroundSeparator(a + "." + b, '.', c);
    DigitsAroundSeparator(a + "." + b + "." + c, '-', e);
  }

  /** Slices of a digit string are digit strings. */
  lemma DigitSlice(d: string, lo: nat, hi: nat)
    requires AllDigits(d) && lo <= hi <= |d|
    ensures AllDigits(d[lo..hi])
  {
    forall i | 0 <= i < hi - lo ensures IsDigit(d[lo..hi][i]) {
      assert d[lo..hi][i] == d[lo + i];
    }
  }

  lemma DigitsOfFullMask(d: string)
    requires AllDigits(d) && |d| >= 11
    ensures Digits(d[..3] + "." + d[3..6] + "." + d[6..9] + "-" + d[9..11] + d[11..]) == d
  {
    var a, b, c, e := d[..3], d[3..6], d[6..9], d[9..];
    DigitSlice(d, 0, 3);
    DigitSlice(d, 3, 6);
    DigitSlice(d, 6, 9);
    DigitSlice(d, 9, |d|);
    DigitsOfMasked(a, b, c, e);
    assert d[..3] + "." + d[3..6] + "." + d[6..9] + "-" + d[9..11] + d[11..]
        == a + "." + b + "." + c + "-" + e;
    assert a + b + c + e == d;
  }

  /** Masking neither adds nor loses a digit. */
  lemma FormatCpfKeepsDigits(cpf: string)
    ensures Digits(FormatCpf(cpf)) == Digits(cpf)
  {
    var d := Digits(cpf);
    if |d| >= 11 {
      DigitsOfFullMask(d);
    } else {
      DigitsOfDigitString(d);
    }
  }

  /** Masking a masked CPF changes nothing. */
  lemma FormatCpfIdempotent(cpf: string)
    ensures FormatCpf(FormatCpf(cpf)) == FormatCpf(cpf)
  {
    FormatCpfKeepsDigits(cpf);
  }

  /** Eleven digits come out in the canonical `000.000.000-00` shape. */
  lemma FormatCpfCanonical(cpf: string)
    requires |Digits(cpf)| == 11
    ensures var r := FormatCpf(cpf);
      |r| == 14 && r[3] == '.' && r[7] == '.' && r[11] == '-'
      && r[..3] == Digits(cpf)[..3] && r[4..7] == Digits(cpf)[3..6]
      && r[8..11] == Digits(cpf)[6..9] && r[12..] == Digits(cpf)[9..]
  {
  }

  /** `formatDate`, of which app/domain/types/person.ts has an identical
      copy: an empty date stays empty; otherwise the parts of the
      split on '-' are reassembled day/month/year, a missing part printing
      as "undefined" as a JavaScript template does. */
  function FormatDate(date: string): (r: string)
    ensures date == [] ==> r == ""
  {
    if date == [] then ""
    else
      var parts := SplitOn(date, '-');
      Part(parts, 2) + "/" + Part(parts, 1) + "/" + Part(parts, 0)
  }

  function Part(parts: seq<string>, i: nat): string {
    if i < |parts| then parts[i] else "undefined"
  }

  /** An ISO date `YYYY-MM-DD` is shown as `DD/MM/YYYY`. */
  lemma FormatDateIso(year: string, month: string, day: string)
    requires '-' !in year && '-' !in month && '-' !in day
    ensures FormatDate(year + "-" + month + "-" + day) == day + "/" + month + "/" + year
  {
    var date := year + "-" + month + "-" + day;
    assert date == year + ['-'] + (month + ['-'] + day);
    SplitOnFirstSeparator(year, month + "-" + day, '-');
    SplitOnFirstSeparator(month, day, '-');
    SplitOnNoSeparator(day, '-');
  }

  /** A date without any '-' has no month or day part. */
  lemma FormatDateWithoutSeparators(date: string)
    requires date != [] && '-' !in date
    ensures FormatDate(date) == "undefined/undefined/" + date
  {
    SplitOnNoSeparator(date, '-');
  }
}
