# ste-front core in Dafny

This project models the logic of the ste-front person administration app.
The app is a React front end for registering people: name, gender, e-mail,
birth date, birthplace, nationality and CPF, the Brazilian taxpayer number.
It leaves the rendering and HTTP plumbing aside and models:

- **CPF handling.** This covers:
  - the full check-digit validator of the Receita Federal rule (`validateCPF` in `app/types/person.ts`), which is a loop method proved against a specification predicate;
  - the weaker length-and-repetition validator, and the CPF refinement of the person schema (`app/domain/types/person.ts`);
  - the one-shot regex mask;
  - the progressive "while typing" mask. The app has three copies of it, which are modelled separately and proved equal.
- **The record mappers** between the backend's `APIPerson` and the form's `Person`, and the date formatter.
- **Display rules.** The API error-message lookup, the pagination window (`getPageNumbers`, a loop method), its item range, and what the pagination bar renders.
- **The input component's rules.** HTML type, the CPF mask on change, `maxLength`, `min`/`max`, the required marker and the password toggle.
- **The two person forms' submit gates.** The older one runs the full check-digit validator and submits the digits-only CPF. The newer one runs the weak validator and records a field error.
- **The two person stores.** The older one is in memory. The newer one is repository-backed; each awaited call is split into a start and an outcome (`Ok(value)` or `Failed`).
- **The debounce hook**, as a timer state machine over an abstract clock.
- **The two autocomplete inputs**, as state machines over the events type, settle (the debounced text reaching the search effect), search result, search failure, click, focus, click outside and prop change.

Source files and modules:

| source file | module (file) |
|---|---|
| `app/types/person.ts` | `TypesPerson` (types_person.dfy) |
| `app/domain/types/person.ts` | `DomainPerson` (domain_person.dfy) |
| `app/domain/types/api.ts` | `ApiErrors` (api_errors.dfy) |
| `app/presentation/components/inputs/BaseInput.tsx` | `BaseInput` (base_input.dfy) |
| `app/components/PersonForm.tsx` | `LegacyPersonForm` (legacy_person_form.dfy) |
| `app/presentation/components/PersonForm.tsx` | `PersonForm` (person_form.dfy) |
| `app/presentation/components/Pagination.tsx` | `Pagination` (pagination.dfy) |
| `app/contexts/PersonContext.tsx` | `LegacyPersonStore` (legacy_person_store.dfy) |
| `app/controllers/contexts/PersonContext.tsx` | `PersonStore` (person_store.dfy) |
| `app/controllers/hooks/useDebounce.ts` | `Debounce` (debounce.dfy) |
| `app/components/AutocompleteInput.tsx` | `LegacyAutocomplete` (legacy_autocomplete.dfy) |
| `app/presentation/components/AutocompleteInput.tsx` | `Autocomplete` (autocomplete.dfy) |

Two helper modules support the rest:

- `Optional` holds `Option` and the `Outcome` of an awaited call.
- `Text` holds the JavaScript string operations the code uses:
  - `replace(/\D/g, "")`;
  - `trim` emptiness;
  - `toLowerCase`;
  - `includes`;
  - `split`.

Three behaviours of the code worth noting:

- **The newer form's gate.** The newer person form checks the CPF with the *weak* validator, not the check-digit one. The schema's refinement already rejects exactly what that gate rejects, so its error branch is unreachable through the form library. `PersonForm.SchemaAcceptedPassesGate` states this.
- **The newer store's update.** The repository-backed store puts the repository's record in place as returned. It does not force the id as the in-memory store does.
- **Inherited error names.** `getErrorMessage` looks the error name up in a plain object literal. A name the object inherits from `Object.prototype`, such as `toString`, finds a function there, which is truthy, so the fallback text is not used. `ApiErrors.InheritedNameLeaks` states this.

## Model

| member | source | states |
|---|---|---|
| TypesPerson.IsValidCpf | app/types/person.ts:16-40 | the check-digit rule itself: eleven digits once cleaned, not one repeated digit, both check digits from the weighted sums (specification of `validateCPF`) |
| TypesPerson.ValidateCpf | app/types/person.ts:16-40 | the two accumulation loops return true exactly when the CPF satisfies the check-digit rule; fewer or more than eleven digits, or one digit repeated, is refused |
| TypesPerson.ValidCpfIgnoresSeparators | app/types/person.ts:17 | the verdict on a string is the verdict on its digits alone |
| TypesPerson.ValidFromDigits | app/types/person.ts:19-37 | eleven digits, not all equal and with both check digits right, are a valid CPF |
| TypesPerson.KnownValidCpf | app/types/person.ts:23-37 | 12345678909 is valid (its weighted sums are 210 and 255, giving check digits 0 and 9) |
| TypesPerson.KnownValidMaskedCpf | app/types/person.ts:16-40 | the masked form 123.456.789-09 is valid too |
| TypesPerson.ValidCpfOfMasked | app/types/person.ts:17 | a masked CPF is valid exactly when its bare digits are |
| TypesPerson.KnownWrongCheckDigits | app/types/person.ts:23-37 | 123.456.789-00 is refused by the check digits |
| TypesPerson.WrongDigitsRefused | app/types/person.ts:31-37 | 12345678900 is refused: its second check digit must be 9 |
| TypesPerson.InvalidFromDigits | app/types/person.ts:31-37 | eleven digits whose second check digit disagrees with its weighted sum are invalid |
| TypesPerson.KnownRepeatedDigits | app/types/person.ts:21 | 111.111.111-11 is refused although its check digits fit |
| TypesPerson.WeightedSumPrefix | app/types/person.ts:23-37 | the weighted sums depend only on the digits they cover |
| TypesPerson.CheckDigitsUnique | app/types/person.ts:23-37 | two valid CPFs with the same first nine digits are the same number |
| TypesPerson.AlteredCheckDigitRejected | app/types/person.ts:23-37 | changing either check digit of a valid CPF makes it invalid |
| TypesPerson.FormatCpf | app/types/person.ts:42-45 | the mask adds exactly three separators when there are at least eleven digits, and none otherwise |
| TypesPerson.FormatCpfKeepsDigits | app/types/person.ts:42-45 | the regex mask neither adds nor loses digits |
| TypesPerson.FormatCpfIdempotent | app/types/person.ts:42-45 | masking twice equals masking once |
| TypesPerson.FormatCpfCanonical | app/types/person.ts:42-45 | eleven digits come out as 000.000.000-00: separators at positions 3, 7 and 11 and the four digit groups in place |
| TypesPerson.FormatDate | app/types/person.ts:47-51 | the empty date gives the empty string; also models the identical `formatDate` of app/domain/types/person.ts:85-89 |
| TypesPerson.FormatDateIso | app/types/person.ts:47-51 | YYYY-MM-DD is shown as DD/MM/YYYY |
| TypesPerson.FormatDateWithoutSeparators | app/domain/types/person.ts:85-89 | a date with no '-' shows "undefined" for the missing day and month, as a JavaScript template does |
| Text.Digits | app/types/person.ts:17 | the stripped string is all digits and no longer than the input |
| Text.DigitsConcat | app/types/person.ts:17 | stripping distributes over concatenation |
| Text.DigitsOfDigitString | app/types/person.ts:17 | a string of digits is left as it is |
| Text.DigitsIdempotent | app/types/person.ts:17 | stripping twice equals stripping once |
| Text.DigitsCountsDigits | app/types/person.ts:17 | nothing is stripped exactly when the string is all digits |
| Text.LowerChar | app/presentation/components/PersonForm.tsx:95 | ASCII capitals are lowered and every other character is kept |
| Text.Lower | app/presentation/components/PersonForm.tsx:95 | lowering keeps the length and lowers each character |
| Text.ContainsAt | app/presentation/components/PersonForm.tsx:95 | `includes` holds exactly when the needle occurs at some position |
| Text.SplitOn | app/types/person.ts:49 | `split` yields at least one part and no part contains the separator |
| Text.SplitOnNoSeparator | app/types/person.ts:49 | a string without the separator splits into itself |
| Text.SplitOnFirstSeparator | app/types/person.ts:49 | splitting at the first separator gives the part before it, then the split of the rest |
| Text.SplitOnFirstPart | app/domain/types/person.ts:41 | the first part is a prefix that ends at the first separator, or is the whole string |
| DomainPerson.IsWeakValidCpf | app/domain/types/person.ts:60-68 | the weak check: eleven digits once cleaned, not all the same (specification used by the schema and the newer form) |
| DomainPerson.StrongImpliesWeak | app/domain/types/person.ts:60-68 | every CPF the check-digit validator accepts is accepted by the weak one |
| DomainPerson.WeakAcceptsWrongCheckDigits | app/domain/types/person.ts:60-68 | the weak validator computes no check digits: 123.456.789-00 passes it and fails the full rule |
| DomainPerson.SchemaCpfIssues | app/domain/types/person.ts:11-16 | the schema raises no CPF issue exactly when the weak validator accepts; the empty string raises both messages |
| DomainPerson.FormatCpf | app/domain/types/person.ts:70-83 | the progressive mask of the cleaned digits is at most 14 characters, and from eleven digits on it is exactly 000.000.000-00 of the first eleven |
| DomainPerson.MaskDigits | app/domain/types/person.ts:72-82 | the grouping by digit count: up to three digits stay bare; from four on a '.' follows the third digit, from seven on another follows the sixth, and from ten on a '-' follows the ninth and only the 10th and 11th digits come after it; the groups between are the input's digits and the result fits 14 characters |
| DomainPerson.ProgressiveIsPrefixOfCanonical | app/domain/types/person.ts:70-83 | while fewer than eleven digits are typed, the mask is a prefix of the full 000.000.000-00 mask of any eleven-digit completion |
| DomainPerson.LongInputIsCanonicalOfFirstEleven | app/domain/types/person.ts:78-81 | from eleven digits on, the mask is the full 000.000.000-00 mask of the first eleven |
| DomainPerson.FormatCpfFits | app/domain/types/person.ts:70-83 | the progressive mask is at most 14 characters long |
| DomainPerson.MaskTwoGroups | app/domain/types/person.ts:74-75 | four to six digits are masked as XXX.Y…: the first three, a '.', the rest; stripping the mask gives the digits back |
| DomainPerson.MaskThreeGroups | app/domain/types/person.ts:76-77 | seven to nine digits are masked as XXX.XXX.Y…: groups of three split by '.', then the rest; stripping the mask gives the digits back |
| DomainPerson.MaskFourGroups | app/domain/types/person.ts:78-81 | ten or more digits are masked as XXX.XXX.XXX-Y…: three groups of three split by '.', a '-', then the 10th and 11th digits only; stripping the mask gives the first eleven digits |
| DomainPerson.FormatCpfKeepsDigits | app/domain/types/person.ts:70-83 | the digits of the mask are the first min(n, 11) input digits |
| DomainPerson.FormatCpfIdempotent | app/domain/types/person.ts:70-83 | masking a masked CPF changes nothing |
| DomainPerson.MaskOfDigitString | app/domain/types/person.ts:71 | on a digit string the mask works on the string itself |
| DomainPerson.FormatCpfBoundaries | app/domain/types/person.ts:70-83 | typing 12345678901 group by group: 3, 6, 9 and 11 digits show 123, 123.456, 123.456.789 and 123.456.789-01 |
| DomainPerson.OrEmpty | app/domain/types/person.ts:39-43 | `x \|\| ""`: empty exactly when the value is missing or empty, and a present value passes through |
| DomainPerson.OrNull | app/domain/types/person.ts:51-55 | `x \|\| null`: never an empty string, null exactly when the value is missing or empty, and otherwise the value itself |
| DomainPerson.NatToStringRoundTrip | app/domain/types/person.ts:37 | the decimal form of an id is all digits and parses back to the id |
| DomainPerson.MapApiPersonToPerson | app/domain/types/person.ts:35-46 | the mapped person has an id, the same name, a birth date that is a prefix of the backend's, and the masked CPF; each optional that is missing or empty becomes "" and any other value passes through |
| DomainPerson.MappedBirthDate | app/domain/types/person.ts:41 | the birth date keeps what precedes the first 'T', or the whole string |
| DomainPerson.MappedPersonFields | app/domain/types/person.ts:37-43 | every optional of the mapped person is present, and a non-negative id becomes its decimal form, which parses back to the id |
| DomainPerson.MapPersonToApiPerson | app/domain/types/person.ts:48-58 | name, birth date and CPF pass through; each optional that is missing or empty is sent as null, and any other value is sent as it is |
| DomainPerson.ApiRoundTrip | app/domain/types/person.ts:35-58 | backend to form and back keeps name and plain birth date, turns empty optionals into null, and returns the masked CPF |
| DomainPerson.MappedCpfKeepsVerdict | app/domain/types/person.ts:44 | masking a stored CPF of at most eleven digits keeps its weak verdict |
| ApiErrors.KindOf | app/domain/types/api.ts:1-15 | decoding the `error` string: a listed name gives the kind sent under that name, and any other name is kept as it is |
| ApiErrors.KindOfWireName | app/domain/types/api.ts:1-15 | decoding the name of a listed kind gives that kind back |
| ApiErrors.Message | app/domain/types/api.ts:30-45 | the table's own entries: one for exactly the listed kinds, none for any other name |
| ApiErrors.GetErrorMessage | app/domain/types/api.ts:47-53 | a text result is never empty; a listed kind gets its table entry; a name inherited from `Object.prototype` gets the inherited member instead of a text, and only such a name does; any other unlisted name gets the internal-error text; an unknown error gets the server's first message or the internal-error text |
| ApiErrors.MessagesDistinct | app/domain/types/api.ts:30-45 | table entries are non-empty, the fallback is the internal-server-error entry, and distinct listed kinds get distinct messages |
| ApiErrors.UnknownShowsServerMessage | app/domain/types/api.ts:48-49 | an unknown error with a non-empty first message shows that message |
| ApiErrors.UnknownFallsBack | app/domain/types/api.ts:49 | an unknown error with no message, or an empty first one, shows "Erro interno do servidor" |
| ApiErrors.OutsideTableFallsBack | app/domain/types/api.ts:52 | an error name that is neither listed nor inherited shows "Erro interno do servidor" |
| ApiErrors.InheritedNameLeaks | app/domain/types/api.ts:52 | an inherited name such as "toString" is not caught by the fallback: the inherited member comes back instead |
| ApiErrors.KnownIgnoresMessages | app/domain/types/api.ts:52 | for any kind but the unknown error the server's messages make no difference |
| BaseInput.FormatCpf | app/presentation/components/inputs/BaseInput.tsx:43-56 | the masked value is at most 14 characters |
| BaseInput.MasksAgree | app/presentation/components/inputs/BaseInput.tsx:43-56 | the input's mask, cut to eleven digits first, equals the domain's progressive mask on every input |
| BaseInput.FormatCpfProperties | app/presentation/components/inputs/BaseInput.tsx:43-56 | at most 14 characters, the first min(n, 11) digits, idempotent |
| BaseInput.FormatsElevenDigits | app/presentation/components/__tests__/BaseInput.test.tsx:181-195 | 12345678901 becomes 123.456.789-01 |
| BaseInput.DropsExtraDigits | app/presentation/components/__tests__/BaseInput.test.tsx:197-211 | 123456789012345 becomes 123.456.789-01 |
| BaseInput.HtmlType | app/presentation/components/inputs/BaseInput.tsx:83-94 | password exactly for a hidden password, date for dates, email for e-mail, otherwise text |
| BaseInput.HandleChange | app/presentation/components/inputs/BaseInput.tsx:103-118 | the event keeps its name; a CPF field forwards the masked value; anything else forwards the event untouched |
| BaseInput.MaxLengthAttr | app/presentation/components/inputs/BaseInput.tsx:139 | CPF fields get 14 whatever the prop; other fields get the prop |
| BaseInput.DateBounds | app/presentation/components/inputs/BaseInput.tsx:140-141 | min and max apply only to date fields |
| BaseInput.ShowsRequiredIndicator | app/presentation/components/inputs/BaseInput.tsx:122-124 | "(obrigatório)" shows exactly when there is a label and the field is required with the indicator on |
| BaseInput.ForwardedCpfFitsField | app/presentation/components/inputs/BaseInput.tsx:103-118 | the forwarded CPF fits the maxLength and carries the first eleven typed digits |
| BaseInput.InputState.constructor | app/presentation/components/inputs/BaseInput.tsx:77 | the password starts hidden |
| BaseInput.InputState.TogglePasswordVisibility | app/presentation/components/inputs/BaseInput.tsx:79-81 | the toggle flips visibility |
| BaseInput.ToggleTwiceScenario | app/presentation/components/__tests__/BaseInput.test.tsx:162-177 | a password field renders as password, then text, then password again |
| LegacyPersonForm.FormatCpfInRealTime | app/components/PersonForm.tsx:27-41 | the masked value never exceeds the field's maxLength of 14 |
| LegacyPersonForm.RealTimeMaskAgrees | app/components/PersonForm.tsx:27-41 | the real-time mask equals the input's and the domain's masks and fits the field's maxLength of 14 |
| LegacyPersonForm.SubmitDecision | app/components/PersonForm.tsx:48-58 | what the submit handler does with the data: the alert or the record it hands on (its properties are stated by `SubmitGate`) |
| LegacyPersonForm.SubmitGate | app/components/PersonForm.tsx:48-59 | the record goes on exactly when the CPF passes the check-digit rule, with the digits-only CPF and every other field unchanged; otherwise the "CPF inválido!" alert |
| LegacyPersonForm.Form.constructor | app/components/PersonForm.tsx:16-24 | the edited person's values, or the empty record |
| LegacyPersonForm.Form.HandleCpfChange | app/components/PersonForm.tsx:43-46 | the cpf value becomes the mask of the typed text, within 14 characters |
| LegacyPersonForm.Form.HandleFormSubmit | app/components/PersonForm.tsx:48-59 | either one alert and no submission, or one submission of the gate's record |
| LegacyPersonForm.ExampleDecisions | app/components/PersonForm.tsx:48-59 | 123.456.789-09 is submitted as 12345678909, and 123.456.789-00 is alerted |
| LegacyPersonForm.SubmitScenario | app/components/PersonForm.tsx:48-59 | submitting a valid and an invalid CPF gives one submission and one alert |
| PersonForm.CpfErrors | app/presentation/components/PersonForm.tsx:68-73 | no errors exactly when the weak validator accepts; otherwise exactly {cpf: "CPF inválido!"} |
| PersonForm.SchemaAcceptedPassesGate | app/presentation/components/PersonForm.tsx:65-83 | data the schema accepts always passes the manual gate |
| PersonForm.ClearField | app/presentation/components/PersonForm.tsx:59-63 | the same keys; only the changed field is blanked, and only if it had an entry |
| PersonForm.ClearFieldIdempotent | app/presentation/components/PersonForm.tsx:59-63 | clearing a field twice equals clearing it once |
| PersonForm.FilterMatching | app/presentation/components/PersonForm.tsx:94-96 | a candidate is kept exactly when it contains the query case-insensitively |
| PersonForm.FilterMatchingConcat | app/presentation/components/PersonForm.tsx:94-96 | filtering distributes over concatenation, so the kept candidates stay in list order for every list |
| PersonForm.FilterPairInOrder | app/presentation/components/PersonForm.tsx:94-96 | filtering keeps the matches in list order |
| PersonForm.FilterEmptyQuery | app/presentation/components/PersonForm.tsx:94-96 | an empty query keeps every candidate |
| PersonForm.SearchGenders | app/presentation/components/PersonForm.tsx:92-97 | the matching genders, in the order Masculino, Feminino |
| PersonForm.EmptyQueryOffersAll | app/presentation/components/PersonForm.tsx:92-97 | an empty query offers both genders |
| PersonForm.Form.constructor | app/presentation/components/PersonForm.tsx:32 | no validation errors and nothing submitted |
| PersonForm.Form.HandleFieldChange | app/presentation/components/PersonForm.tsx:59-63 | the validation errors are cleared for that field only |
| PersonForm.Form.HandleFormSubmit | app/presentation/components/PersonForm.tsx:65-90 | errors reset, then either the CPF error is recorded and set on the form, or the data goes on unmodified |
| Pagination.StartItem | app/presentation/components/Pagination.tsx:25 | the first item shown on the page (its bounds are stated by `ItemRangeWithinPage`) |
| Pagination.EndItem | app/presentation/components/Pagination.tsx:26 | `Math.min` of the page's last slot and the item count: no more than either, and equal to one of them |
| Pagination.ItemRangeWithinPage | app/presentation/components/Pagination.tsx:25-26 | on an existing page the range starts at 1 or later, ends by the total, and holds at most a page's worth; it is a full page unless it is the last |
| Pagination.RangeAt | app/presentation/components/Pagination.tsx:33-35 | a counting loop lists lo..hi in order |
| Pagination.RangeOfFour | app/presentation/components/Pagination.tsx:38-40 | four consecutive pages |
| Pagination.RangeOfThree | app/presentation/components/Pagination.tsx:52-54 | three consecutive pages |
| Pagination.PageWindow | app/presentation/components/Pagination.tsx:28-61 | the closed form of the page window that the loops build (its shape is stated by the window lemmas) |
| Pagination.GetPageNumbers | app/presentation/components/Pagination.tsx:28-61 | the loops build exactly the page window |
| Pagination.SmallWindowListsAll | app/presentation/components/Pagination.tsx:32-35 | up to five pages are listed as 1..total |
| Pagination.LargeWindowLength | app/presentation/components/Pagination.tsx:37-57 | with more than five pages: six entries near either end, seven in the middle |
| Pagination.SmallWindowWellFormed | app/presentation/components/Pagination.tsx:32-35 | a short window is well formed: increasing, consecutive, within 1..total, from 1 to total |
| Pagination.LeftWindowWellFormed | app/presentation/components/Pagination.tsx:37-42 | the window near the start is well formed |
| Pagination.RightWindowWellFormed | app/presentation/components/Pagination.tsx:43-48 | the window near the end is well formed |
| Pagination.MiddleWindowWellFormed | app/presentation/components/Pagination.tsx:49-57 | the middle window is well formed |
| Pagination.WindowWellFormed | app/presentation/components/Pagination.tsx:28-61 | every window is increasing and within 1..total, starts at 1 and ends at total, and each "..." stands for at least one page |
| Pagination.CurrentPageListed | app/presentation/components/Pagination.tsx:37-57 | an existing current page is always listed |
| Pagination.Render | app/presentation/components/Pagination.tsx:63-105 | nothing for at most one page; previous requests page−1 and is disabled without a previous page; next requests page+1 and is disabled without a next page |
| Pagination.RenderedPagesAreReal | app/presentation/components/Pagination.tsx:84-101 | every page button requests an existing page, and the current page has one |
| Pagination.FirstPageOfTen | app/presentation/components/__tests__/Pagination.test.tsx:16-20 | page 1 of 10, ten per page, 100 items: items 1 to 10, previous disabled, next to page 2 |
| Pagination.SinglePageHidden | app/presentation/components/__tests__/Pagination.test.tsx:70-74 | a single page renders nothing |
| LegacyPersonStore.FindById | app/contexts/PersonContext.tsx:51-53 | nothing exactly when no one has the id; otherwise a member with that id |
| LegacyPersonStore.FindByIdIsFirst | app/contexts/PersonContext.tsx:51-53 | the person found is the first with the id |
| LegacyPersonStore.RemoveById | app/contexts/PersonContext.tsx:47-49 | kept exactly the members without the id |
| LegacyPersonStore.RemoveByIdConcat | app/contexts/PersonContext.tsx:47-49 | filtering distributes over concatenation, so order is kept |
| LegacyPersonStore.RemoveAbsentId | app/contexts/PersonContext.tsx:47-49 | removing an absent id changes nothing |
| LegacyPersonStore.ReplaceById | app/contexts/PersonContext.tsx:39-45 | same length; each position holds the replacement if it had the id, otherwise what it held |
| LegacyPersonStore.CpfUnique | app/contexts/PersonContext.tsx:55-59 | true exactly when no one has that exact CPF string and an id other than the excluded one |
| LegacyPersonStore.AddedCpfTaken | app/contexts/PersonContext.tsx:31-37 | after adding a person, their CPF is taken |
| LegacyPersonStore.CpfCheckIsLiteral | app/contexts/PersonContext.tsx:55-59 | the masked and bare forms of one number count as different CPFs |
| LegacyPersonStore.OwnCpfAllowedWhenExcluded | app/contexts/PersonContext.tsx:55-59 | excluding their own id lets a person keep their CPF |
| LegacyPersonStore.DeletedNotFound | app/contexts/PersonContext.tsx:47-53 | after a delete the id is not found, and any other id finds exactly what it found before |
| LegacyPersonStore.UpdatedFound | app/contexts/PersonContext.tsx:39-53 | after an update the id finds the new record |
| LegacyPersonStore.DistinctIdsTail | app/contexts/PersonContext.tsx:29 | distinct ids stay distinct in the tail, which does not repeat the head's id |
| LegacyPersonStore.DistinctIdsCons | app/contexts/PersonContext.tsx:29 | a person whose id is new can be put in front |
| LegacyPersonStore.RemoveKeepsDistinct | app/contexts/PersonContext.tsx:47-49 | deleting keeps ids distinct |
| LegacyPersonStore.ReplaceKeepsDistinct | app/contexts/PersonContext.tsx:39-45 | updating keeps ids distinct |
| LegacyPersonStore.AddKeepsDistinct | app/contexts/PersonContext.tsx:31-37 | adding under a fresh id keeps ids distinct |
| LegacyPersonStore.Store.constructor | app/contexts/PersonContext.tsx:29 | the list starts empty |
| LegacyPersonStore.Store.AddPerson | app/contexts/PersonContext.tsx:31-37 | one record appended, with the supplied id |
| LegacyPersonStore.Store.UpdatePerson | app/contexts/PersonContext.tsx:39-45 | matching records become the new one with the id forced |
| LegacyPersonStore.Store.DeletePerson | app/contexts/PersonContext.tsx:47-49 | matching records are filtered out |
| LegacyPersonStore.Store.GetPersonById | app/contexts/PersonContext.tsx:51-53 | nothing exactly when no one in the list has the id; otherwise someone in the list with that id |
| LegacyPersonStore.Store.IsCpfUnique | app/contexts/PersonContext.tsx:55-59 | true exactly when everyone with that CPF string has the excluded id |
| LegacyPersonStore.StoreScenario | app/contexts/PersonContext.tsx:31-59 | add two, edit one, delete the other: the lookups and the CPF checks that follow |
| PersonStore.Store.constructor | app/controllers/contexts/PersonContext.tsx:36-38 | empty list, search idle, initial load pending |
| PersonStore.Store.BeginLoad | app/controllers/contexts/PersonContext.tsx:41-43 | the request is pending and nothing else changes |
| PersonStore.Store.FinishLoad | app/controllers/contexts/PersonContext.tsx:41-50 | the list is replaced on success and kept on failure; loading is over either way |
| PersonStore.Store.BeginSearch | app/controllers/contexts/PersonContext.tsx:52-58 | a blank query starts a reload; any other query starts a search |
| PersonStore.Store.FinishSearch | app/controllers/contexts/PersonContext.tsx:58-67 | results replace the list; a failure falls back to the reload's outcome; the spinner is off |
| PersonStore.Store.AddPerson | app/controllers/contexts/PersonContext.tsx:74-81 | the created record is appended on success; on failure the error is rethrown and the list kept |
| PersonStore.Store.UpdatePerson | app/controllers/contexts/PersonContext.tsx:83-94 | matching records become the returned one on success; the list is kept on failure |
| PersonStore.Store.DeletePerson | app/controllers/contexts/PersonContext.tsx:96-103 | the id is filtered out only after the delete succeeds |
| PersonStore.Store.Loading | app/controllers/contexts/PersonContext.tsx:121 | the exposed `loading`: the request pending or the initial load not yet over |
| PersonStore.Store.GetPersonById | app/controllers/contexts/PersonContext.tsx:105-107 | nothing exactly when no one in the list has the id; otherwise someone in the list with that id |
| PersonStore.Store.IsCpfUnique | app/controllers/contexts/PersonContext.tsx:109-113 | true exactly when everyone with that CPF string has the excluded id |
| PersonStore.LoadAndSearchScenario | app/controllers/contexts/PersonContext.tsx:41-72 | a failed first load still ends loading; a blank search reloads; a failed search leaves the fallback's list and no spinner |
| PersonStore.WriteScenario | app/controllers/contexts/PersonContext.tsx:74-107 | failed writes leave the list alone, and a successful delete removes the person from lookups |
| Debounce.Debouncer.Mount | app/controllers/hooks/useDebounce.ts:4-15 | the output starts at the value and the first timer is set |
| Debounce.Debouncer.Render | app/controllers/hooks/useDebounce.ts:7-15 | a changed value or delay clears the timer and sets a new one; an unchanged render keeps the timer; the output is unchanged |
| Debounce.Debouncer.Tick | app/controllers/hooks/useDebounce.ts:8-10 | a timer that has come due publishes the latest value; otherwise nothing changes |
| Debounce.Debouncer.Teardown | app/controllers/hooks/useDebounce.ts:12-14 | nothing stays pending |
| Debounce.InitialValueScenario | app/controllers/hooks/__tests__/useDebounce.test.ts:10-13 | the initial value is shown at once |
| Debounce.DebounceScenario | app/controllers/hooks/__tests__/useDebounce.test.ts:15-32 | a change is shown only after the delay |
| Debounce.CancelScenario | app/controllers/hooks/__tests__/useDebounce.test.ts:34-52 | of two quick changes only the last is ever shown |
| Debounce.SameValueScenario | app/controllers/hooks/useDebounce.ts:15 | re-rendering with the same value does not restart the timer |
| Debounce.TeardownScenario | app/controllers/hooks/useDebounce.ts:12-14 | after teardown a pending change is never shown |
| LegacyAutocomplete.Autocomplete.constructor | app/components/AutocompleteInput.tsx:23-26 | no suggestions, hidden, not loading, the text is the value prop |
| LegacyAutocomplete.Autocomplete.Settle | app/components/AutocompleteInput.tsx:30-42 | a blank query clears and hides without searching; any other starts a search with loading on |
| LegacyAutocomplete.Autocomplete.SearchOk | app/components/AutocompleteInput.tsx:40-49 | the results become the suggestions, shown exactly when there are any; loading ends |
| LegacyAutocomplete.Autocomplete.SearchFail | app/components/AutocompleteInput.tsx:43-49 | no suggestions, hidden, loading ends |
| LegacyAutocomplete.Autocomplete.TypeText | app/components/AutocompleteInput.tsx:72-76 | the text is taken and reported once, and the dropdown is untouched |
| LegacyAutocomplete.Autocomplete.ClickSuggestion | app/components/AutocompleteInput.tsx:78-82 | the suggestion becomes the text, is reported, and the dropdown hides |
| LegacyAutocomplete.Autocomplete.Focus | app/components/AutocompleteInput.tsx:84-88 | reopens only when there are suggestions |
| LegacyAutocomplete.Autocomplete.ClickOutside | app/components/AutocompleteInput.tsx:59-64 | hides the dropdown and touches nothing else |
| LegacyAutocomplete.Autocomplete.PropChange | app/components/AutocompleteInput.tsx:55-57 | a new value prop overwrites the text without reporting it |
| LegacyAutocomplete.Autocomplete.DropdownVisible | app/components/AutocompleteInput.tsx:111 | whether the list is rendered: shown and non-empty (equal to the show flag in every reachable state, by `VisibleIsShowFlag`) |
| LegacyAutocomplete.VisibleIsShowFlag | app/components/AutocompleteInput.tsx:111 | in every reachable state, the list is rendered exactly when the show flag is set |
| LegacyAutocomplete.SuggestionScenario | app/components/AutocompleteInput.tsx:30-88 | typing, results, a click, focus, a click outside and a blank query, with the dropdown state after each |
| LegacyAutocomplete.FailureScenario | app/components/AutocompleteInput.tsx:38-49 | a failed search and an empty result both leave the list hidden and loading off |
| Autocomplete.Autocomplete.constructor | app/presentation/components/AutocompleteInput.tsx:21-24 | no suggestions, hidden, not loading, the text is the value prop |
| Autocomplete.Autocomplete.Rendered | app/presentation/components/AutocompleteInput.tsx:101-118 | a dropdown exactly when shown with suggestions or while loading; the loading row exactly while loading, the items otherwise |
| Autocomplete.Autocomplete.Settle | app/presentation/components/AutocompleteInput.tsx:32-41 | a blank query empties the suggestions without searching and leaves the show flag; any other starts a search |
| Autocomplete.Autocomplete.SearchOk | app/presentation/components/AutocompleteInput.tsx:41-48 | the results become the suggestions; loading ends; the show flag is untouched |
| Autocomplete.Autocomplete.SearchFail | app/presentation/components/AutocompleteInput.tsx:43-48 | no suggestions; loading ends; the show flag is untouched |
| Autocomplete.Autocomplete.TypeText | app/presentation/components/AutocompleteInput.tsx:67-72 | the text is taken and reported, and the dropdown opens |
| Autocomplete.Autocomplete.ClickSuggestion | app/presentation/components/AutocompleteInput.tsx:74-78 | the suggestion becomes the text, is reported, and the dropdown hides |
| Autocomplete.Autocomplete.Focus | app/presentation/components/AutocompleteInput.tsx:80-84 | opens only when there are suggestions |
| Autocomplete.Autocomplete.ClickOutside | app/presentation/components/AutocompleteInput.tsx:54-59 | hides the dropdown and touches nothing else |
| Autocomplete.Autocomplete.PropChange | app/presentation/components/AutocompleteInput.tsx:28-30 | a new value prop overwrites the text |
| Autocomplete.TypingScenario | app/presentation/components/AutocompleteInput.tsx:32-118 | typing draws nothing, then the loading row while searching, then the results; a blank query empties the list while the flag stays set |
| Autocomplete.ClickScenario | app/presentation/components/AutocompleteInput.tsx:43-84 | a failed search shows nothing; a click closes; focus reopens while suggestions remain |

## Left out

- JSX markup, CSS classes and icons are not modelled. Only what the components decide is: the type, the limits and markers, the buttons and their targets, the dropdown contents.
- HTTP, the repositories and axios are not modelled. Each repository call's result is a parameter of the model (an `Outcome`).
- The request helper `useApi` is not part of this model. Its `loading` flag is modelled as set while `getPeople` is pending and cleared when it settles.
- `refreshPersons` (app/controllers/contexts/PersonContext.tsx:115-117) is `loadPersons` again, so `BeginLoad`/`FinishLoad` cover it.
- `console.error` logging and the browser `alert` are left out. Alerts and callback calls are recorded as sequences in the state.
- `Date.now()` is left out. The id it gives a new person is the `newId` parameter of `LegacyPersonStore.Store.AddPerson`.
- `trim` and `toLowerCase` cover ASCII whitespace and letters only, not the whole of Unicode.
- `PersonSchema` is not modelled field by field. Only the CPF rule is: the name, e-mail, gender enumeration and date rules are not.
- `getMaxDate` reads the wall clock and a configuration constant that is not part of this model, so it is left out, and so is any future-date rule.
- Neither autocomplete discards out-of-order search results. The model, like the code, lets any outcome land.
- The debounce timer is not tied to the autocomplete. The debounced text reaching the search effect is the `Settle` event.
- PersonStore.Store.FinishSearch: the fallback reload after a failed search is folded into one step. The moment between the failure and the reload's outcome is not observable in the model.
- ApiErrors.InheritedName: only the names `Object.prototype` defines in a standard JavaScript engine count as inherited. Properties added to `Object.prototype` at run time are not modelled.
- ApiErrors.GetErrorMessage: the inherited member that comes back for an inherited name is modelled by its name (`InheritedMember`), not as the function or object it is.
- The `statusCode`, `timestamp` and `path` fields of an error response are never read by `getErrorMessage`, so they are not modelled.
- Ids are modelled as integers. JavaScript's `toString` of a non-integer id is not modelled.
- The backend record's `address` is declared, but the mapper drops it. It is kept in `ApiPerson` and never read.
