/** The first person form (app/components/PersonForm.tsx): the real-time CPF
    mask written into the form state, and the submit gate that strips the
    mask and demands valid check digits before handing the record on. */
module LegacyPersonForm {
  import opened Optional
  import opened Text
  import TypesPerson
  import DomainPerson
  import BaseInput

  type Person = TypesPerson.Person

  /** The CPF input's `maxLength`. */
  const CpfFieldMaxLength: nat := 14

  /** `formatCPFInRealTime`: the same cut-then-group mask as the shared input. */
  function FormatCpfInRealTime(value: string): (r: string)
    ensures |r| <= CpfFieldMaxLength
  {
    var numbers := Digits(value);
    var limited := numbers[..DomainPerson.Min(|numbers|, 11)];
    if |limited| <= 3 then limited
    else if |limited| <= 6 then limited[..3] + "." + limited[3..]
    else if |limited| <= 9 then limited[..3] + "." + limited[3..6] + "." + limited[6..]
    else limited[..3] + "." + limited[3..6] + "." + limited[6..9] + "-" + limited[9..]
  }

  /** The three progressive masks of the code base agree on every input, and
      this one never exceeds the field's maxLength. */
  lemma RealTimeMaskAgrees(value: string)
    ensures FormatCpfInRealTime(value) == BaseInput.FormatCpf(value)
    ensures FormatCpfInRealTime(value) == DomainPerson.FormatCpf(value)
    ensures |FormatCpfInRealTime(value)| <= CpfFieldMaxLength
  {
    BaseInput.MasksAgree(value);
    DomainPerson.FormatCpfFits(value);
  }

  /** What `handleFormSubmit` does with the resolved form data. */
  datatype SubmitEffect = Alert(message: string) | Submit(person: Person)

  /** The decision of `handleFormSubmit`. */
  ghost function SubmitDecision(data: Person): (e: SubmitEffect)
  {
    var clean := Digits(data.cpf);
    if TypesPerson.IsValidCpf(clean) then Submit(data.(cpf := clean)) else Alert("CPF inválido!")
  }

  /** The record goes on exactly when the CPF, mask included, has valid check
      digits; it then carries the digits-only CPF and every other field as
      entered. Otherwise the user is alerted and nothing is submitted. */
  lemma SubmitGate(data: Person)
    ensures SubmitDecision(data).Submit? <==> TypesPerson.IsValidCpf(data.cpf)
    ensures SubmitDecision(data).Alert? ==> SubmitDecision(data).message == "CPF inválido!"
    ensures SubmitDecision(data).Submit? ==>
      var p := SubmitDecision(data).person;
      && AllDigits(p.cpf) && |p.cpf| == 11 && TypesPerson.IsValidCpf(p.cpf)
      && p.(cpf := data.cpf) == data
  {
    TypesPerson.ValidCpfIgnoresSeparators(data.cpf);
  }

  /** The form's state: the field values and, standing for the callbacks, the
      alerts shown and the records handed to `onSubmit`. */
  class Form {
    var values: Person
    var alerts: seq<string>
    var submitted: seq<Person>

    /** `defaultValues`: the person being edited, or an empty record. */
    constructor(person: Option<Person>)
      ensures person.Some? ==> values == person.value
      ensures person.None? ==> values == TypesPerson.Person(None, "", Some(""), Some(""), "", Some(""), Some(""), "")
      ensures alerts == [] && submitted == []
    {
      values := match person
        case Some(p) => p
        case None => TypesPerson.Person(None, "", Some(""), Some(""), "", Some(""), Some(""), "");
      alerts := [];
      submitted := [];
    }

    /** `handleCPFChange`: the typed text is masked into the `cpf` value. */
    method HandleCpfChange(typed: string)
      modifies this
      ensures values == old(values).(cpf := FormatCpfInRealTime(typed))
      ensures |values.cpf| <= CpfFieldMaxLength
      ensures alerts == old(alerts) && submitted == old(submitted)
    {
      RealTimeMaskAgrees(typed);
      values := values.(cpf := FormatCpfInRealTime(typed));
    }

    /** `handleFormSubmit`, running the check-digit validator on the cleaned
      CPF. */
    method HandleFormSubmit(data: Person)
      modifies this
      ensures values == old(values)
      ensures SubmitDecision(data).Alert? ==>
        alerts == old(alerts) + ["CPF inválido!"] && submitted == old(submitted)
      ensures SubmitDecision(data).Submit? ==>
        alerts == old(alerts) && submitted == old(submitted) + [SubmitDecision(data).person]
    {
      var clean := Digits(data.cpf);
      var ok := TypesPerson.ValidateCpf(clean);
      if !ok {
        alerts := alerts + ["CPF inválido!"];
        return;
      }
      submitted := submitted + [data.(cpf := clean)];
    }
  }

  /** The decisions for the worked example and for the same number with
      wrong check digits. */
  lemma ExampleDecisions(p: Person, good: string, bad: string)
    requires good == "123.456.789-09" && bad == "123.456.789-00"
    ensures SubmitDecision(p.(cpf := good)) == Submit(p.(cpf := "12345678909"))
    ensures SubmitDecision(p.(cpf := bad)) == Alert("CPF inválido!")
  {
    TypesPerson.KnownValidMaskedCpf(good);
    TypesPerson.KnownWrongCheckDigits(bad);
    SubmitGate(p.(cpf := good));
    SubmitGate(p.(cpf := bad));
    TypesPerson.ExampleGroupsAreDigits();
    TypesPerson.ValidCpfOfMasked(good, "123", "456", "789", "09");
  }

  /** Submitting the example CPF with its mask hands on its bare digits;
      the same number with wrong check digits raises the alert instead. */
  method SubmitScenario(good: string, bad: string) returns (submitted: seq<Person>, alerts: seq<string>)
    requires good == "123.456.789-09" && bad == "123.456.789-00"
    ensures |submitted| == 1 && submitted[0].cpf == "12345678909"
    ensures alerts == ["CPF inválido!"]
  {
    var form := new Form(None);
    var p := form.values;
    ExampleDecisions(p, good, bad);
    form.HandleFormSubmit(p.(cpf := good));
    form.HandleFormSubmit(p.(cpf := bad));
    submitted := form.submitted;
    alerts := form.alerts;
  }
}
