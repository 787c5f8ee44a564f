/** The domain person utilities (app/domain/types/person.ts): the weaker CPF
    check and the schema refinement that repeats it, the progressive typing
    mask, and the mappers between the API record and the form record. */
module DomainPerson {
  import opened Optional
  import opened Text
  import TypesPerson

  type Person = TypesPerson.Person

  // ---------------------------------------------------------------------
  // The weak check and the schema's cpf field

  /** `validateCPF` here: eleven digits once cleaned, not all the same. No
      check digit is computed. */
  predicate IsWeakValidCpf(cpf: string) {
    var d := Digits(cpf);
    |d| == 11 && !TypesPerson.AllSame(d)
  }

  /** Everything the full check accepts, the weak one accepts. */
  lemma StrongImpliesWeak(cpf: string)
    requires TypesPerson.IsValidCpf(cpf)
    ensures IsWeakValidCpf(cpf)
  {
  }

  /** The converse fails: 123.456.789-00 passes the weak check although its
      check digits are wrong. */
  lemma WeakAcceptsWrongCheckDigits(m: string)
    requires m == "123.456.789-00"
    ensures IsWeakValidCpf(m) && !TypesPerson.IsValidCpf(m)
  {
    TypesPerson.ExampleGroupsAreDigits();
    TypesPerson.ValidCpfOfMasked(m, "123", "456", "789", "00");
    var d := Digits(m);
    assert d == "12345678900";
    assert d[1] != d[0];
    TypesPerson.KnownWrongCheckDigits(m);
  }

  /** The issues the schema reports for the `cpf` field, in order:
      `min(1)` and then the refinement, which zod still runs after a failed
      length check. */
  function SchemaCpfIssues(cpf: string): (issues: seq<string>)
    ensures issues == [] <==> IsWeakValidCpf(cpf)
    ensures cpf == "" ==> issues == ["CPF é obrigatório", "CPF inválido"]
  {
    (if |cpf| < 1 then ["CPF é obrigatório"] else [])
    + (if IsWeakValidCpf(cpf) then [] else ["CPF inválido"])
  }

  // ---------------------------------------------------------------------
  // The progressive mask

  function Min(a: int, b: int): int {
    if a <= b then a else b
  }

  /** `formatCPF`: the cleaned digits grouped 3/3/3/2 as far as they go;
      `slice(9, 11)` drops any digit past the eleventh. */
  function FormatCpf(cpf: string): (r: string)
    ensures |r| <= 14
    ensures |Digits(cpf)| >= 11 ==> r == TypesPerson.FormatCpf(Digits(cpf)[..11])
  {
    var d := Digits(cpf);
    if |d| >= 11 then
      LongInputIsCanonicalOfFirstEleven(d);
      MaskDigits(d)
    else MaskDigits(d)
  }

  /** The grouping step of `formatCPF`, applied to the cleaned digits. */
  function MaskDigits(d: string): (r: string)
    ensures |r| <= 14
    ensures |d| <= 3 ==> r == d
    ensures 3 < |d| <= 6 ==> |r| == |d| + 1
    ensures 6 < |d| <= 9 ==> |r| == |d| + 2
    ensures 9 < |d| ==> |r| == Min(|d|, 11) + 3
    ensures 3 < |d| ==> r[..3] == d[..3] && r[3] == '.'
    ensures 3 < |d| <= 6 ==> r[4..] == d[3..]
    ensures 6 < |d| ==> r[4..7] == d[3..6] && r[7] == '.'
    ensures 6 < |d| <= 9 ==> r[8..] == d[6..]
    ensures 9 < |d| ==> r[8..11] == d[6..9] && r[11] == '-' && r[12..] == d[9..Min(|d|, 11)]
  {
    if |d| <= 3 then d
    else if |d| <= 6 then d[..3] + "." + d[3..]
    else if |d| <= 9 then d[..3] + "." + d[3..6] + "." + d[6..]
    else d[..3] + "." + d[3..6] + "." + d[6..9] + "-" + d[9..Min(|d|, 11)]
  }

  /** The mask fits the 14 characters of `000.000.000-00`. */
  lemma FormatCpfFits(cpf: string)
    ensures |FormatCpf(cpf)| <= 14
  {
  }

  /** A non-digit separator between two strings leaves their digits joined. */
  lemma DigitsJoin(x: string, sep: char, y: string)
    requires !IsDigit(sep) && AllDigits(y)
    ensures Digits(x + [sep] + y) == Digits(x) + y
  {
    DigitsConcat(x + [sep], y);
    DigitsConcat(x, [sep]);
    DigitsOfDigitString(y);
  }

  /** Four to six digits are masked as `XXX.Y…`: one '.' after the third
      digit, and the digits themselves kept in order. */
  lemma MaskTwoGroups(d: string)
    requires AllDigits(d) && 3 < |d| <= 6
    ensures var r := MaskDigits(d);
      && r == d[..3] + "." + d[3..]
      && Digits(r) == d
  {
    TypesPerson.DigitSlice(d, 0, 3);
    TypesPerson.DigitSlice(d, 3, |d|);
    DigitsOfDigitString(d[..3]);
    DigitsJoin(d[..3], '.', d[3..]);
    assert d[..3] + d[3..] == d;
  }

  /** Seven to nine digits are masked as `XXX.XXX.Y…`: a '.' after the
      third and the sixth digit, and the digits kept in order. */
  lemma MaskThreeGroups(d: string)
    requires AllDigits(d) && 6 < |d| <= 9
    ensures var r := MaskDigits(d);
      && r == d[..3] + "." + d[3..6] + "." + d[6..]
      && Digits(r) == d
  {
    TypesPerson.DigitSlice(d, 0, 3);
    TypesPerson.DigitSlice(d, 3, 6);
    TypesPerson.DigitSlice(d, 6, |d|);
    DigitsOfDigitString(d[..3]);
    DigitsJoin(d[..3], '.', d[3..6]);
    DigitsJoin(d[..3] + "." + d[3..6], '.', d[6..]);
    assert d[..3] + d[3..6] + d[6..] == d;
  }

  /** Ten or more digits are masked as `XXX.XXX.XXX-Y…`: separators after
      the third, sixth and ninth digit, and only the first eleven digits
      kept. */
  lemma MaskFourGroups(d: string)
    requires AllDigits(d) && 9 < |d|
    ensures var r := MaskDigits(d);
      && r == d[..3] + "." + d[3..6] + "." + d[6..9] + "-" + d[9..Min(|d|, 11)]
      && Digits(r) == d[..Min(|d|, 11)]
  {
    var m := Min(|d|, 11);
    TypesPerson.DigitSlice(d, 0, 3);
    TypesPerson.DigitSlice(d, 3, 6);
    TypesPerson.DigitSlice(d, 6, 9);
    TypesPerson.DigitSlice(d, 9, m);
    DigitsOfDigitString(d[..3]);
    var ab := d[..3] + "." + d[3..6];
    DigitsJoin(d[..3], '.', d[3..6]);
    DigitsJoin(ab, '.', d[6..9]);
    DigitsJoin(ab + "." + d[6..9], '-', d[9..m]);
    assert d[..3] + d[3..6] + d[6..9] + d[9..m] == d[..m];
  }

  /** While fewer than eleven digits are typed, the progressive mask is a
      prefix of the regex mask of any completion to eleven digits. */
  lemma {:induction false} ProgressiveIsPrefixOfCanonical(d: string, e: string)
    requires AllDigits(d) && AllDigits(e) && |d| + |e| == 11
    ensures MaskDigits(d) <= TypesPerson.FormatCpf(d + e)
  {
    var full := d + e;
    assert AllDigits(full);
    DigitsOfDigitString(full);
    TypesPerson.FormatCpfCanonical(full);
    var c := TypesPerson.FormatCpf(full);
    var r := MaskDigits(d);
    assert full[..|d|] == d;
    if |d| <= 3 {
      assert r == c[..3][..|d|];
    } else if |d| <= 6 {
      assert r == c[..|d| + 1] by {
        assert r[..3] == c[..3] && r[3] == c[3];
        assert r[4..] == c[4..7][..|d| - 3];
      }
    } else if |d| <= 9 {
      assert r == c[..|d| + 2] by {
        assert r[..3] == c[..3] && r[3] == c[3] && r[4..7] == c[4..7] && r[7] == c[7];
        assert r[8..] == c[8..11][..|d| - 6];
      }
    } else {
      assert r == c[..|d| + 3] by {
        assert r[..3] == c[..3] && r[3] == c[3] && r[4..7] == c[4..7] && r[7] == c[7];
        assert r[8..11] == c[8..11] && r[11] == c[11];
        assert r[12..] == c[12..][..|d| - 9];
      }
    }
  }

  /** From eleven digits on, the progressive mask is the regex mask of the
      first eleven digits. */
  lemma {:induction false} LongInputIsCanonicalOfFirstEleven(d: string)
    requires AllDigits(d) && |d| >= 11
    ensures MaskDigits(d) == TypesPerson.FormatCpf(d[..11])
  {
    var t := d[..11];
    TypesPerson.DigitSlice(d, 0, 11);
    DigitsOfDigitString(t);
    assert Min(|d|, 11) == 11;
    assert t[..3] == d[..3] && t[3..6] == d[3..6] && t[6..9] == d[6..9];
    assert t[9..11] == d[9..11] && t[11..] == [];
    assert TypesPerson.FormatCpf(t) == t[..3] + "." + t[3..6] + "." + t[6..9] + "-" + t[9..11] + t[11..];
  }

  /** The mask keeps exactly the first min(n, 11) digits, in order. */
  lemma FormatCpfKeepsDigits(cpf: string)
    ensures Digits(FormatCpf(cpf)) == Digits(cpf)[..Min(|Digits(cpf)|, 11)]
  {
    var d := Digits(cpf);
    if |d| <= 3 {
      DigitsOfDigitString(d);
      assert d[..|d|] == d;
    } else if |d| <= 6 {
      MaskTwoGroups(d);
      assert d[..|d|] == d;
    } else if |d| <= 9 {
      MaskThreeGroups(d);
      assert d[..|d|] == d;
    } else {
      MaskFourGroups(d);
    }
  }

  /** Masking while typing is stable: a masked value is masked to itself. */
  lemma FormatCpfIdempotent(cpf: string)
    ensures FormatCpf(FormatCpf(cpf)) == FormatCpf(cpf)
  {
    var d := Digits(cpf);
    FormatCpfKeepsDigits(cpf);
    var e := Digits(FormatCpf(cpf));
    if |d| > 11 {
      assert e == d[..11];
      assert e[..3] == d[..3] && e[3..6] == d[3..6] && e[6..9] == d[6..9] && e[9..11] == d[9..11];
    } else {
      assert e == d[..|d|] == d;
    }
  }

  /** A string of digits typed so far is grouped as the mask promises. */
  lemma MaskOfDigitString(s: string)
    requires AllDigits(s)
    ensures FormatCpf(s) == MaskDigits(s)
  {
    DigitsOfDigitString(s);
  }

  /** The four digit-count boundaries while typing 12345678901, given as
      its groups 123, 456, 789 and 01. */
  lemma FormatCpfBoundaries(a: string, b: string, c: string, e: string)
    requires a == "123" && b == "456" && c == "789" && e == "01"
    ensures FormatCpf(a) == a
    ensures FormatCpf(a + b) == a + "." + b
    ensures FormatCpf(a + b + c) == a + "." + b + "." + c
    ensures FormatCpf(a + b + c + e) == a + "." + b + "." + c + "-" + e
  {
    assert AllDigits(a) && AllDigits(b) && AllDigits(c) && AllDigits(e);
    assert FormatCpf(a) == a by {
      MaskOfDigitString(a);
    }
    assert FormatCpf(a + b) == a + "." + b by {
      var d := a + b;
      assert AllDigits(d);
      MaskOfDigitString(d);
      assert d[..3] == a && d[3..] == b;
    }
    assert FormatCpf(a + b + c) == a + "." + b + "." + c by {
      var d := a + b + c;
      assert AllDigits(d);
      MaskOfDigitString(d);
      assert d[..3] == a && d[3..6] == b && d[6..] == c;
    }
    assert FormatCpf(a + b + c + e) == a + "." + b + "." + c + "-" + e by {
      var d := a + b + c + e;
      assert AllDigits(d);
      MaskOfDigitString(d);
      assert d[..3] == a && d[3..6] == b && d[6..9] == c && d[9..11] == e;
    }
  }


  // ---------------------------------------------------------------------
  // The API record and the mappers

  /** The backend's person record (`APIPerson`). */
  datatype ApiPerson = ApiPerson(
    id: int,
    name: string,
    gender: Option<string>,
    email: Option<string>,
    birthDate: string,
    naturalness: Option<string>,
    nationality: Option<string>,
    cpf: string,
    address: Option<string>,
    createdAt: string,
    updatedAt: string)

  /** The body sent back to the backend: `APIPerson` without `id`,
      `createdAt` and `updatedAt` (and, as the mapper builds it, without
      `address`). */
  datatype ApiPersonInput = ApiPersonInput(
    name: string,
    gender: Option<string>,
    email: Option<string>,
    birthDate: string,
    naturalness: Option<string>,
    nationality: Option<string>,
    cpf: string)

  /** `x || ""` on an optional string: `null`, `undefined` and the empty
      string all give "", any other value passes through. */
  function OrEmpty(x: Option<string>): (r: string)
    ensures r == "" <==> x.None? || x == Some("")
    ensures x.Some? ==> r == x.value
  {
    match x
    case Some(s) => s
    case None => ""
  }

  /** `x || null` on an optional string: the empty string is falsy too. */
  function OrNull(x: Option<string>): (r: Option<string>)
    ensures r != Some("")
    ensures r.None? <==> x.None? || x == Some("")
    ensures r.Some? ==> r == x
  {
    if x.Some? && x.value != "" then x else None
  }

  function DigitChar(k: nat): char
    requires k <= 9
  {
    ('0' as int + k) as char
  }

  /** `n.toString()` of a non-negative integer. */
  function NatToString(n: nat): string
    decreases n
  {
    if n < 10 then [DigitChar(n)] else NatToString(n / 10) + [DigitChar(n % 10)]
  }

  /** `id.toString()` for an integer id. */
  function IntToString(n: int): string {
    if n < 0 then "-" + NatToString(-n) else NatToString(n)
  }

  /** The decimal value of a digit string (the reading direction of `toString`). */
  function ParseNat(s: string): nat
    requires AllDigits(s)
  {
    if s == [] then 0
    else ParseNat(s[..|s| - 1]) * 10 + TypesPerson.DigitValue(s[|s| - 1])
  }

  /** The id string of a mapped person is the decimal form of the numeric id:
      digits only, and reading it back gives the id. */
  lemma {:induction false} NatToStringRoundTrip(n: nat)
    ensures AllDigits(NatToString(n)) && |NatToString(n)| >= 1
    ensures ParseNat(NatToString(n)) == n
    decreases n
  {
    if n >= 10 {
      NatToStringRoundTrip(n / 10);
      var s := NatToString(n);
      assert s[..|s| - 1] == NatToString(n / 10);
    }
  }

  /** How `o || ""` fills the form field `f`: a missing or empty value
      becomes "", any other value passes through. */
  predicate FilledFrom(f: Option<string>, o: Option<string>) {
    && ((o.None? || o == Some("")) ==> f == Some(""))
    && (o.Some? && o.value != "" ==> f == o)
  }

  /** `mapAPIPersonToPerson`. */
  function MapApiPersonToPerson(api: ApiPerson): (p: Person)
    ensures p.id.Some? && p.nome == api.name && p.dataNascimento <= api.birthDate
    ensures FilledFrom(p.sexo, api.gender) && FilledFrom(p.email, api.email)
    ensures FilledFrom(p.naturalidade, api.naturalness) && FilledFrom(p.nacionalidade, api.nationality)
    ensures p.cpf == FormatCpf(api.cpf)
  {
    SplitOnFirstPart(api.birthDate, 'T');
    TypesPerson.Person(
      id := Some(IntToString(api.id)),
      nome := api.name,
      sexo := Some(OrEmpty(api.gender)),
      email := Some(OrEmpty(api.email)),
      dataNascimento := SplitOn(api.birthDate, 'T')[0],
      naturalidade := Some(OrEmpty(api.naturalness)),
      nacionalidade := Some(OrEmpty(api.nationality)),
      cpf := FormatCpf(api.cpf))
  }

  /** `x || null` as sent to the backend: a missing or empty field `f`
      becomes null in `a`, and any other value is sent as it is. */
  predicate NulledFrom(a: Option<string>, f: Option<string>) {
    && ((f.None? || f == Some("")) ==> a.None?)
    && (f.Some? && f.value != "" ==> a == f)
  }

  /** `mapPersonToAPIPerson`. */
  function MapPersonToApiPerson(p: Person): (api: ApiPersonInput)
    ensures api.name == p.nome && api.birthDate == p.dataNascimento && api.cpf == p.cpf
    ensures NulledFrom(api.gender, p.sexo) && NulledFrom(api.email, p.email)
    ensures NulledFrom(api.naturalness, p.naturalidade) && NulledFrom(api.nationality, p.nacionalidade)
  {
    ApiPersonInput(
      name := p.nome,
      gender := OrNull(p.sexo),
      email := OrNull(p.email),
      birthDate := p.dataNascimento,
      naturalness := OrNull(p.naturalidade),
      nationality := OrNull(p.nacionalidade),
      cpf := p.cpf)
  }

  /** The birth date kept is the part before the first 'T': a timestamp
      `YYYY-MM-DDThh:mm:ss` loses its time, a plain date is kept whole. */
  lemma MappedBirthDate(api: ApiPerson)
    ensures var d := MapApiPersonToPerson(api).dataNascimento;
      'T' !in d
      && ('T' !in api.birthDate ==> d == api.birthDate)
      && ('T' in api.birthDate ==> api.birthDate[|d|] == 'T')
  {
    SplitOnFirstPart(api.birthDate, 'T');
  }

  /** A mapped person has every optional filled, and the id of a record
      with a non-negative id is the decimal form of that id. */
  lemma MappedPersonFields(api: ApiPerson)
    requires api.id >= 0
    ensures var p := MapApiPersonToPerson(api);
      && p.sexo.Some? && p.email.Some? && p.naturalidade.Some? && p.nacionalidade.Some?
      && AllDigits(p.id.value) && ParseNat(p.id.value) == api.id
  {
    NatToStringRoundTrip(api.id);
  }

  /** Mapping a backend record to the form and back keeps the name and a
      plain birth date, turns missing and empty optionals into `null`, and
      hands back the masked CPF rather than the stored one. */
  lemma ApiRoundTrip(api: ApiPerson)
    requires 'T' !in api.birthDate
    ensures var back := MapPersonToApiPerson(MapApiPersonToPerson(api));
      && back.name == api.name
      && back.birthDate == api.birthDate
      && back.gender == OrNull(api.gender) && back.email == OrNull(api.email)
      && back.naturalness == OrNull(api.naturalness)
      && back.nationality == OrNull(api.nationality)
      && back.cpf == FormatCpf(api.cpf)
  {
    MappedBirthDate(api);
  }

  /** A stored CPF of at most eleven digits keeps its weak verdict through
      the mapper's mask; a longer one is cut to eleven digits. */
  lemma MappedCpfKeepsVerdict(api: ApiPerson)
    requires |Digits(api.cpf)| <= 11
    ensures IsWeakValidCpf(MapApiPersonToPerson(api).cpf) == IsWeakValidCpf(api.cpf)
  {
    FormatCpfKeepsDigits(api.cpf);
    assert Digits(api.cpf)[..|Digits(api.cpf)|] == Digits(api.cpf);
  }
}
