# SignalForm: a verified model of the incident-report form

`SignalForm` is a form that collects an incident report and stores it in a
remote `signals` table. The report has an address, zero or more violence
types, a description, an optional contact email and an anonymity flag. This
project models the component's logic in Dafny and proves what it does:

- **Validation** (`validateForm`). Three rules run in order on one error
  object, and a later rule overwrites an earlier one for the same field. The
  rules use `trim()` and the unanchored test `/\S+@\S+\.\S+/`.
- **Violence-type toggle** (`handleViolenceTypeChange`). A ticked type is
  removed everywhere with `filter`; an unticked one is appended.
- **Submission** (`handleSubmit`) and the field handlers. These update the
  three state cells `form`, `isLoading` and `errors`.

Files, one module each:

- `text.dfy` (`Text`): the JavaScript whitespace set, `trim()`, and the
  "blank" test `!s.trim()`.
- `email_pattern.dfy` (`EmailPattern`): the email shape test, written as an
  existence predicate over the positions of `@` and `.`.
- `form_record.dfy` (`FormRecord`): the report record, its initial value,
  the single-field updates, and the toggle as a list operation.
- `validation.dfy` (`Validation`): `Validate`, and lemmas for each rule,
  their precedence, and the "valid exactly when acceptable" property.
- `signal_form.dfy` (`Component`): the component as a class with the three
  state cells, its handlers and `HandleSubmit`.

The backend's answer is a parameter of `HandleSubmit` (`Inserted` or
`InsertFailed(message)`). `HandleSubmit` returns the storage call it would
make and the toasts it would show, so its contract can say when the backend
is reached and what the user is told.

Two consequences of the code that the lemmas pin down:

- The email rules assign one after another, so the later assignment wins. A
  non-anonymous report whose email is non-empty whitespace triggers both
  rules and ends with "Invalid email format" (`EmailFormatWins`). As a
  result, "Email is required for non-anonymous reports" shows only for an
  email that is exactly empty (`EmailRequiredOnlyWhenEmpty`).
- Toggling an unticked type twice always restores the list
  (`ToggleTwiceWhenAbsent`). A ticked type comes back with the same members
  but moved to the end, so the list is restored only if that type was
  already last (`ToggleTwiceWhenPresent`, `ToggleTwiceReorders`).

## Model

| member | source | states |
|---|---|---|
| `Text.IsSpace` | SignalForm.jsx:20-26 | the characters `trim()` removes and `\S` excludes: tab, line feed, vertical tab, form feed, carriage return, space, no-break space, U+1680, U+2000 to U+200A, line and paragraph separators, U+202F, U+205F, U+3000 and the byte order mark |
| `Text.TrimStart` | SignalForm.jsx:20 | the leading-whitespace cut of `trim()` is no longer than its input and does not start with whitespace |
| `Text.TrimStartDropsSpacePrefix` | SignalForm.jsx:20 | what the leading cut drops is a prefix made only of whitespace, and the result is the rest of the string |
| `Text.TrimEnd` | SignalForm.jsx:20 | the trailing-whitespace cut is no longer than its input and does not end with whitespace |
| `Text.TrimEndDropsSpaceSuffix` | SignalForm.jsx:20 | what the trailing cut drops is a suffix made only of whitespace, and the result is the string before it |
| `Text.Trim` | SignalForm.jsx:20 | `trim()` neither starts nor ends with whitespace and never lengthens the string |
| `Text.TrimEmptyIffAllSpace` | SignalForm.jsx:20-23 | `trim()` gives the empty string exactly when every character is whitespace |
| `Text.IsBlank` | SignalForm.jsx:20-23 | `!s.trim()` holds exactly when the string is whitespace only (empty included) |
| `EmailPattern.HasEmailShape` | SignalForm.jsx:26 | `/\S+@\S+\.\S+/.test(s)`: some infix of `s` has a non-whitespace character, `@`, a non-empty run of non-whitespace, `.`, and a non-whitespace character |
| `EmailPattern.ShapeNeedsAtAndDot` | SignalForm.jsx:26 | a string that passes the email test has at least 5 characters, an `@`, a `.` and a non-whitespace character |
| `EmailPattern.BlankHasNoShape` | SignalForm.jsx:26 | a whitespace-only string never passes the email test |
| `EmailPattern.ShapeSurvivesContext` | SignalForm.jsx:26 | the test is unanchored: text around a passing string keeps it passing |
| `EmailPattern.ShapeExamples` | SignalForm.jsx:26 | `a@b.com` passes; `abc`, `a@b`, `a@bcom` and `a @b.com` fail; an address inside a sentence passes |
| `Validation.Validate` | SignalForm.jsx:18-30 | the error object has only `address` and `contact_email` keys; `address` holds "Address is required"; `contact_email` holds one of the two email messages |
| `Validation.ValidateEmptyIffAcceptable` | SignalForm.jsx:18-39 | no errors (so submission goes ahead) exactly when the address has a non-whitespace character, a non-anonymous email has one too, and a non-empty email has the email shape |
| `Validation.AddressRule` | SignalForm.jsx:20-22 | an `address` entry exists exactly when the address is whitespace only, and it reads "Address is required" |
| `Validation.EmailRequiredRule` | SignalForm.jsx:23-28 | an anonymous report with an empty email gets no email entry; a non-anonymous report with a whitespace-only email always gets one |
| `Validation.EmailFormatRule` | SignalForm.jsx:26-28 | the email entry reads "Invalid email format" exactly when the email is non-empty and fails the email test; an empty email never does |
| `Validation.EmailFormatWins` | SignalForm.jsx:23-28 | when both email rules fire (non-anonymous, non-empty whitespace email), the later message "Invalid email format" stays |
| `Validation.EmailRequiredOnlyWhenEmpty` | SignalForm.jsx:23-28 | "Email is required for non-anonymous reports" is the final entry exactly for a non-anonymous report with an empty email |
| `Validation.ValidateIgnoresTypesAndDescription` | SignalForm.jsx:18-30 | toggling a violence type or editing the description never changes the validation result |
| `Validation.EditsTouchOnlyTheirOwnEntry` | SignalForm.jsx:18-30 | after an address edit the `address` entry depends only on the new text and the email entry is unchanged; an email edit leaves the `address` entry unchanged |
| `Validation.AnonymityOnlyRelaxes` | SignalForm.jsx:23-25 | ticking "Anonymous" can remove error keys but never adds one |
| `Validation.InitialFormNeedsAddress` | SignalForm.jsx:7-13 | the initial (and reset) form fails validation with exactly the address error |
| `Validation.ValidateExamples` | SignalForm.jsx:18-30 | worked reports: a complete anonymous report passes; an empty address, a missing non-anonymous email, a whitespace email and `a@b` give the expected single entry |
| `FormRecord.InitialForm` | SignalForm.jsx:7-13 | the initial form, which is also the reset value at lines 56-62: empty address, description and email, no type ticked, anonymous |
| `FormRecord.WithAddress` | SignalForm.jsx:88 | the address input replaces `address` and leaves the other four fields as they were |
| `FormRecord.WithDescription` | SignalForm.jsx:112 | the description input replaces `description` and leaves the other fields as they were |
| `FormRecord.WithContactEmail` | SignalForm.jsx:121 | the email input replaces `contact_email` and leaves the other fields as they were |
| `FormRecord.WithIsAnonymous` | SignalForm.jsx:131 | the anonymity checkbox replaces `is_anonymous` and leaves the other fields as they were |
| `FormRecord.RemoveAll` | SignalForm.jsx:76 | the `filter` drops every occurrence of the type and keeps the count of every other element |
| `FormRecord.RemoveAllAppend` | SignalForm.jsx:76 | the `filter` distributes over concatenation, so the kept elements stay in their relative order |
| `FormRecord.RemoveAllAbsent` | SignalForm.jsx:76 | filtering out a type that is not there returns the list unchanged |
| `FormRecord.Toggle` | SignalForm.jsx:75-77 | the type's membership flips, every other element's membership is kept; an absent type is appended at the end; a present one is removed everywhere |
| `FormRecord.ToggleViolenceType` | SignalForm.jsx:72-79 | the toggle flips the type in `violence_type` and leaves the other four fields as they were |
| `FormRecord.RemoveAllKeepsNoDuplicates` | SignalForm.jsx:76 | filtering a duplicate-free list leaves it duplicate-free |
| `FormRecord.ToggleKeepsNoDuplicates` | SignalForm.jsx:73-78 | toggling keeps `violence_type` duplicate-free |
| `FormRecord.ToggleKeepsKnownTypes` | SignalForm.jsx:96-101 | toggling one of the four offered labels keeps every ticked type an offered label |
| `FormRecord.ToggleTwiceWhenAbsent` | SignalForm.jsx:73-78 | toggling an unticked type twice gives back exactly the same list |
| `FormRecord.ToggleTwiceWhenPresent` | SignalForm.jsx:73-78 | toggling a ticked type twice keeps the same members, with that type moved to the end |
| `FormRecord.ToggleTwiceReorders` | SignalForm.jsx:73-78 | concrete case: `["Physical", "Verbal"]` toggled twice on "Physical" becomes `["Verbal", "Physical"]` |
| `Component.SignalForm.constructor` | SignalForm.jsx:7-16 | the component starts with the initial form, not loading, and with no errors |
| `Component.SignalForm.ValidateForm` | SignalForm.jsx:18-30 | building the error object by successive assignments gives exactly `Validate` of the current form |
| `Component.SignalForm.HandleSubmit` | SignalForm.jsx:32-70 | the loading flag is off on every exit path and between steps (class invariant). Invalid report: errors stored, form unchanged, no backend call, no toast. Valid report: errors cleared, one-row insert of the form into `signals`. On success the form is reset to the initial value and the toasts are loading then "Signal sent successfully!". On failure the form is kept and the toast is "Failed to send signal: " plus the backend's message |
| `Component.SignalForm.HandleViolenceTypeChange` | SignalForm.jsx:72-79 | the checkbox handler sets `form` to the toggled form, keeps the class invariant, and leaves `isLoading` and `errors` alone |
| `Component.SignalForm.OnAddressChange` | SignalForm.jsx:88 | the address handler updates only `form.address` |
| `Component.SignalForm.OnDescriptionChange` | SignalForm.jsx:112 | the description handler updates only `form.description` |
| `Component.SignalForm.OnContactEmailChange` | SignalForm.jsx:121 | the email handler updates only `form.contact_email` |
| `Component.SignalForm.OnAnonymousChange` | SignalForm.jsx:131 | the anonymity handler updates only `form.is_anonymous` |
| `Component.RetryAfterFailure` | SignalForm.jsx:45-69 | after a refused insert, resubmitting sends the same record again, and a successful retry resets the form |

## Left out

- Rendering, layout, styles and the inline error spans (SignalForm.jsx:81-141): user interface only. The checkbox labels are kept as `ViolenceTypes`.
- The Supabase client and the insert itself: a remote service. Its answer is a parameter of `HandleSubmit`, and the call is returned as a `StorageCall` value.
- `react-hot-toast`: a foreign UI library. Toasts are returned as `Toast` values. The shared toast id is modelled only as "each later toast replaces the earlier one".
- `async`/`await`, React's batching of state updates, and edits made while an insert is pending. `HandleSubmit` runs as one atomic step. The `disabled={isLoading}` re-entrancy guard is UI-level and is not modelled.
- `e.preventDefault()`: a browser event detail with no effect on the state.
- The browser's own `required` and `type="email"` checks: the browser enforces them, not this code.
- A general regular-expression engine: only the one email pattern is modelled, as an existence predicate.
- `Text.IsSpace` is the ECMAScript WhiteSpace and LineTerminator set as of current Unicode. Changes to the space-separator category across Unicode versions are not modelled.
- `Component.SignalForm.HandleViolenceTypeChange` requires the type to be one of the four offered labels, because only the checkboxes call it. The pure `FormRecord.Toggle` accepts any string.
