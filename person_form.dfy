/** The current person form (app/presentation/components/PersonForm.tsx):
    the manual CPF gate run after the schema, the per-field error clearing,
    and the gender suggestions offered to its autocomplete field. */
module PersonForm {
  import opened Text
  import TypesPerson
  import DomainPerson

  type Person = TypesPerson.Person

  /** The manual errors `handleFormSubmit` collects: one for `cpf` when the
      cleaned CPF fails the weak check, none otherwise. */
  function CpfErrors(data: Person): (errors: map<string, string>)
    ensures errors == map[] <==> DomainPerson.IsWeakValidCpf(data.cpf)
    ensures errors != map[] ==> errors == map["cpf" := "CPF inválido!"]
  {
    DigitsIdempotent(data.cpf);
    if DomainPerson.IsWeakValidCpf(Digits(data.cpf)) then map[]
    else
      var errors := map["cpf" := "CPF inválido!"];
      assert "cpf" in errors;
      errors
  }

  /** Data the schema accepted already passes the manual gate, since the
      schema's refinement is the same weak check. */
  lemma SchemaAcceptedPassesGate(data: Person)
    requires DomainPerson.SchemaCpfIssues(data.cpf) == []
    ensures CpfErrors(data) == map[]
  {
  }

  /** `handleFieldChange` on the error map: a field with a message has it
      blanked; nothing else changes. */
  function ClearField(errors: map<string, string>, field: string): (r: map<string, string>)
    ensures r.Keys == errors.Keys
    ensures forall k :: k in errors && k != field ==> r[k] == errors[k]
    ensures field in errors ==> r[field] == ""
  {
    if field in errors && errors[field] != "" then errors[field := ""] else errors
  }

  /** Clearing a field twice is clearing it once. */
  lemma ClearFieldIdempotent(errors: map<string, string>, field: string)
    ensures ClearField(ClearField(errors, field), field) == ClearField(errors, field)
  {
  }

  /** The fixed gender list offered as suggestions. */
  const Genders: seq<string> := ["Masculino", "Feminino"]

  /** `gender.toLowerCase().includes(query.toLowerCase())`. */
  predicate Matches(gender: string, query: string) {
    Contains(Lower(gender), Lower(query))
  }

  /** The order-preserving sub-list of `candidates` that match the query. */
  function FilterMatching(candidates: seq<string>, query: string): (r: seq<string>)
    ensures |r| <= |candidates|
    ensures forall g :: g in r <==> g in candidates && Matches(g, query)
  {
    if candidates == [] then []
    else
      var rest := FilterMatching(candidates[1..], query);
      if Matches(candidates[0], query) then [candidates[0]] + rest else rest
  }

  /** On a two-element list the filter keeps the matching ones in their
      original order. */
  lemma FilterPairInOrder(a: string, b: string, query: string)
    ensures FilterMatching([a, b], query) ==
      (if Matches(a, query) then [a] else []) + (if Matches(b, query) then [b] else [])
  {
    assert [a, b][1..] == [b];
    assert [b][1..] == [];
  }

  /** Filtering distributes over concatenation: whatever the list, the kept
      candidates stay in their original order. */
  lemma {:induction false} FilterMatchingConcat(a: seq<string>, b: seq<string>, query: string)
    ensures FilterMatching(a + b, query) == FilterMatching(a, query) + FilterMatching(b, query)
  {
    if a == [] {
      assert a + b == b;
    } else {
      assert (a + b)[1..] == a[1..] + b;
      FilterMatchingConcat(a[1..], b, query);
    }
  }

  /** The empty query matches everything, so it keeps the whole list. */
  lemma {:induction false} FilterEmptyQuery(candidates: seq<string>, query: string)
    requires query == ""
    ensures FilterMatching(candidates, query) == candidates
  {
    if candidates != [] {
      FilterEmptyQuery(candidates[1..], query);
      assert Matches(candidates[0], query);
    }
  }

  /** `searchGenders`: the genders matching the query, in the list's order. */
  function SearchGenders(query: string): (r: seq<string>)
    ensures r == (if Matches(Genders[0], query) then [Genders[0]] else [])
               + (if Matches(Genders[1], query) then [Genders[1]] else [])
  {
    FilterPairInOrder(Genders[0], Genders[1], query);
    assert Genders == [Genders[0], Genders[1]];
    FilterMatching(Genders, query)
  }

  /** An empty query offers both genders, in order. */
  lemma EmptyQueryOffersAll(query: string)
    requires query == ""
    ensures SearchGenders(query) == Genders
  {
    FilterEmptyQuery(Genders, query);
  }

  /** The form's state: `validationErrors`, the errors set on the form
      library by `setError`, and, standing for the callback, the records
      handed to `onSubmit`. */
  class Form {
    var validationErrors: map<string, string>
    var formErrors: map<string, string>
    var submitted: seq<Person>

    constructor()
      ensures validationErrors == map[] && formErrors == map[] && submitted == []
    {
      validationErrors := map[];
      formErrors := map[];
      submitted := [];
    }

    /** `handleFieldChange`. */
    method HandleFieldChange(field: string)
      modifies this
      ensures validationErrors == ClearField(old(validationErrors), field)
      ensures formErrors == old(formErrors) && submitted == old(submitted)
    {
      if field in validationErrors && validationErrors[field] != "" {
        validationErrors := validationErrors[field := ""];
      }
    }

    /** `handleFormSubmit`: the errors are reset, the cleaned CPF is checked,
        and either the errors are recorded or the data goes on unchanged
        (a rejection by `onSubmit` is caught and leaves no trace here). */
    method HandleFormSubmit(data: Person)
      modifies this
      ensures CpfErrors(data) != map[] ==>
        && validationErrors == CpfErrors(data)
        && formErrors == old(formErrors) + CpfErrors(data)
        && submitted == old(submitted)
      ensures CpfErrors(data) == map[] ==>
        && validationErrors == map[]
        && formErrors == old(formErrors)
        && submitted == old(submitted) + [data]
    {
      validationErrors := map[];
      var newErrors: map<string, string> := map[];
      var cleanCpf := Digits(data.cpf);
      if !DomainPerson.IsWeakValidCpf(cleanCpf) {
        newErrors := newErrors["cpf" := "CPF inválido!"];
      }
      if |newErrors| > 0 {
        validationErrors := newErrors;
        formErrors := formErrors + newErrors;
        return;
      }
      submitted := submitted + [data];
    }
  }
}
