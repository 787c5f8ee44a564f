/** The shared text input (app/presentation/components/inputs/BaseInput.tsx):
    its own CPF typing mask, the HTML input type it renders, the change
    handler that masks CPF fields, the password-visibility toggle and the
    attribute rules. */
module BaseInput {
  import opened Optional
  import opened Text
  import DomainPerson

  /** The `type` prop. */
  datatype InputType = Text | Email | Password | Search | Cpf | Date

  /** The value of a change event that the handler reads and forwards. */
  datatype ChangeEvent = ChangeEvent(name: string, value: string)

  /** `formatCPF` local to the input: cut the cleaned digits to eleven first,
      then group them 3/3/3/2 as far as they go. */
  function FormatCpf(value: string): (r: string)
    ensures |r| <= 14
  {
    var numbers := Digits(value);
    var limited := numbers[..DomainPerson.Min(|numbers|, 11)];
    if |limited| <= 3 then limited
    else if |limited| <= 6 then limited[..3] + "." + limited[3..]
    else if |limited| <= 9 then limited[..3] + "." + limited[3..6] + "." + limited[6..]
    else limited[..3] + "." + limited[3..6] + "." + limited[6..9] + "-" + limited[9..]
  }

  /** This mask and the domain mask (which cuts at the end instead of first)
      produce the same string on every input. */
  lemma MasksAgree(value: string)
    ensures FormatCpf(value) == DomainPerson.FormatCpf(value)
  {
    var d := Digits(value);
    if |d| > 11 {
      var l := d[..11];
      assert l[..3] == d[..3] && l[3..6] == d[3..6] && l[6..9] == d[6..9] && l[9..] == d[9..11];
    } else {
      assert d[..|d|] == d;
    }
  }

  /** The masked value fits the 14 characters the field allows, keeps the
      first eleven digits typed, and is stable under re-masking. */
  lemma FormatCpfProperties(value: string)
    ensures |FormatCpf(value)| <= 14
    ensures Digits(FormatCpf(value)) == Digits(value)[..DomainPerson.Min(|Digits(value)|, 11)]
    ensures FormatCpf(FormatCpf(value)) == FormatCpf(value)
  {
    MasksAgree(value);
    MasksAgree(FormatCpf(value));
    DomainPerson.FormatCpfFits(value);
    DomainPerson.FormatCpfKeepsDigits(value);
    DomainPerson.FormatCpfIdempotent(value);
  }

  /** Eleven typed digits are fully masked. */
  lemma FormatsElevenDigits(v: string)
    requires v == "12345678901"
    ensures FormatCpf(v) == "123.456.789-01"
  {
    MasksAgree(v);
    DomainPerson.FormatCpfBoundaries("123", "456", "789", "01");
    assert v == "123" + "456" + "789" + "01";
    assert "123.456.789-01" == "123" + "." + "456" + "." + "789" + "-" + "01";
  }

  /** Digits past the eleventh are dropped. */
  lemma DropsExtraDigits(v: string)
    requires v == "123456789012345"
    ensures FormatCpf(v) == "123.456.789-01"
  {
    assert AllDigits(v);
    DigitsOfDigitString(v);
    assert v[..11] == "12345678901";
    FormatsElevenDigits(v[..11]);
    DigitsOfDigitString(v[..11]);
  }

  /** `getInputType`: the HTML type attribute rendered for a prop type. */
  function HtmlType(t: InputType, showPassword: bool): (h: string)
    ensures h in {"text", "password", "date", "email"}
    ensures h == "password" <==> t == Password && !showPassword
    ensures h == "date" <==> t == Date
    ensures h == "email" <==> t == Email
  {
    match t
    case Password => if showPassword then "text" else "password"
    case Date => "date"
    case Email => "email"
    case _ => "text"
  }

  /** `handleChange`: a CPF field forwards the event with its value masked
      and its name kept; every other field forwards the event untouched. */
  function HandleChange(t: InputType, e: ChangeEvent): (forwarded: ChangeEvent)
    ensures forwarded.name == e.name
    ensures t != Cpf ==> forwarded == e
    ensures t == Cpf ==> forwarded.value == FormatCpf(e.value)
  {
    if t == Cpf then ChangeEvent(e.name, FormatCpf(e.value)) else e
  }

  /** The `maxLength` attribute: 14 for a CPF field whatever the prop says,
      the prop otherwise. */
  function MaxLengthAttr(t: InputType, prop: Option<nat>): (m: Option<nat>)
    ensures t == Cpf ==> m == Some(14)
    ensures t != Cpf ==> m == prop
  {
    if t == Cpf then Some(14) else prop
  }

  /** The `min` and `max` attributes: kept only on a date field. */
  function DateBounds(t: InputType, min: Option<string>, max: Option<string>): (b: (Option<string>, Option<string>))
    ensures t == Date ==> b == (min, max)
    ensures t != Date ==> b == (None, None)
  {
    if t == Date then (min, max) else (None, None)
  }

  /** Whether "(obrigatório)" is rendered: the label element needs a
      non-empty label, and the marker needs both flags. */
  function ShowsRequiredIndicator(labelText: Option<string>, required: bool, showRequiredIndicator: bool): (shown: bool)
    ensures shown <==> labelText.Some? && labelText.value != "" && required && showRequiredIndicator
  {
    match labelText
    case Some(l) => l != "" && required && showRequiredIndicator
    case None => false
  }

  /** What a CPF field forwards always fits the field's maxLength, whatever
      was pasted into it. */
  lemma ForwardedCpfFitsField(e: ChangeEvent, prop: Option<nat>)
    ensures |HandleChange(Cpf, e).value| <= MaxLengthAttr(Cpf, prop).value
    ensures Digits(HandleChange(Cpf, e).value) == Digits(e.value)[..DomainPerson.Min(|Digits(e.value)|, 11)]
  {
    FormatCpfProperties(e.value);
  }

  /** The input's own state: whether a password is shown in clear. */
  class InputState {
    var showPassword: bool

    /** `useState(false)`. */
    constructor()
      ensures !showPassword
    {
      showPassword := false;
    }

    /** `togglePasswordVisibility`. */
    method TogglePasswordVisibility()
      modifies this
      ensures showPassword == !old(showPassword)
    {
      showPassword := !showPassword;
    }

    function RenderedType(t: InputType): string
      reads this
    {
      HtmlType(t, showPassword)
    }
  }

  /** A password field starts hidden, a click shows it as text, a second
      click hides it again. */
  method ToggleTwiceScenario() returns (types: seq<string>)
    ensures types == ["password", "text", "password"]
  {
    var input := new InputState();
    types := [input.RenderedType(Password)];
    input.TogglePasswordVisibility();
    types := types + [input.RenderedType(Password)];
    input.TogglePasswordVisibility();
    types := types + [input.RenderedType(Password)];
  }
}
