/**
  Client-side validation of the report (`validateForm`).

  Three rules run one after another on a local error object, each one writing
  its field's entry; a later rule overwrites an earlier rule's entry for the
  same field:
    1. a blank `address` (empty after `trim()`) gets "Address is required";
    2. a non-anonymous report whose `contact_email` is blank gets
       "Email is required for non-anonymous reports";
    3. a non-empty `contact_email` without the email shape gets
       "Invalid email format".
  Rule 3 tests the raw string for truthiness, not its trimmed form, so a
  whitespace-only email reaches it and, when rule 2 fired too, rule 3's
  message is the one that stays.
 */
module Validation {
  import opened Text
  import opened EmailPattern
  import opened FormRecord

  /** The keys of the error object: the names of the form's fields. */
  datatype Field = Address | ViolenceType | Description | ContactEmail | IsAnonymous

  const AddressRequired := "Address is required"
  const EmailRequired := "Email is required for non-anonymous reports"
  const InvalidEmailFormat := "Invalid email format"

  /** The only fields that validation ever reports on. */
  const ValidatedFields: set<Field> := {Address, ContactEmail}

  /** `validateForm()`: the rules applied in source order to an initially
      empty error object. The result has at most two entries, and each entry
      holds a message of its own field's rules. */
  function Validate(f: Form): (errors: map<Field, string>)
    ensures errors.Keys <= ValidatedFields
    ensures Address in errors ==> errors[Address] == AddressRequired
    ensures ContactEmail in errors ==> errors[ContactEmail] == EmailRequired || errors[ContactEmail] == InvalidEmailFormat
  {
    var none: map<Field, string> := map[];
    var afterAddress :=
      if IsBlank(f.address) then none[Address := AddressRequired] else none;
    var afterRequired :=
      if !f.isAnonymous && IsBlank(f.contactEmail)
      then afterAddress[ContactEmail := EmailRequired] else afterAddress;
    if f.contactEmail != [] && !HasEmailShape(f.contactEmail)
    then afterRequired[ContactEmail := InvalidEmailFormat] else afterRequired
  }

  /** What the report must satisfy to be sent, stated rule by rule: an address
      with a non-whitespace character; an email with a non-whitespace
      character unless the report is anonymous; an empty email or one of the
      email shape. */
  predicate Acceptable(f: Form) {
    && !AllSpace(f.address)
    && (f.isAnonymous || !AllSpace(f.contactEmail))
    && (f.contactEmail == [] || HasEmailShape(f.contactEmail))
  }

  /** The error object is empty exactly when the report is acceptable. */
  lemma ValidateEmptyIffAcceptable(f: Form)
    ensures Validate(f) == map[] <==> Acceptable(f)
  {
    var v := Validate(f);
    if v == map[] {
      assert Address !in v && ContactEmail !in v;
    } else {
      assert Address in v || ContactEmail in v;
    }
  }

  /** Rule 1: an `address` entry exists exactly when the address is
      whitespace only, and it is "Address is required". */
  lemma AddressRule(f: Form)
    ensures Address in Validate(f) <==> AllSpace(f.address)
    ensures Address in Validate(f) ==> Validate(f)[Address] == AddressRequired
  {
  }

  /** Rule 2: an anonymous report with no email has no email entry; a
      non-anonymous report whose email is whitespace only always has one. */
  lemma EmailRequiredRule(f: Form)
    ensures f.isAnonymous && f.contactEmail == [] ==> ContactEmail !in Validate(f)
    ensures !f.isAnonymous && AllSpace(f.contactEmail) ==> ContactEmail in Validate(f)
  {
  }

  /** Rule 3: the entry reads "Invalid email format" exactly when the email is
      non-empty and has no infix of the email shape; an empty email never
      triggers it. */
  lemma EmailFormatRule(f: Form)
    ensures (ContactEmail in Validate(f) && Validate(f)[ContactEmail] == InvalidEmailFormat)
        <==> (f.contactEmail != [] && !HasEmailShape(f.contactEmail))
  {
    assert EmailRequired != InvalidEmailFormat by {
      assert EmailRequired[0] != InvalidEmailFormat[0];
    }
  }

  /** Precedence: when both email rules fire (a non-anonymous report whose
      email is non-empty whitespace), the later rule's message stays. */
  lemma EmailFormatWins(f: Form)
    requires !f.isAnonymous && f.contactEmail != [] && AllSpace(f.contactEmail)
    ensures Validate(f)[ContactEmail] == InvalidEmailFormat
  {
    BlankHasNoShape(f.contactEmail);
  }

  /** Consequently "Email is required for non-anonymous reports" is shown
      exactly for a non-anonymous report whose email is the empty string. */
  lemma EmailRequiredOnlyWhenEmpty(f: Form)
    ensures (ContactEmail in Validate(f) && Validate(f)[ContactEmail] == EmailRequired)
        <==> (!f.isAnonymous && f.contactEmail == [])
  {
    assert EmailRequired != InvalidEmailFormat by {
      assert EmailRequired[0] != InvalidEmailFormat[0];
    }
    if !f.isAnonymous && f.contactEmail != [] && AllSpace(f.contactEmail) {
      EmailFormatWins(f);
    }
  }

  /** The violence types and the description are never validated: editing
      them leaves the error object as it was. */
  lemma ValidateIgnoresTypesAndDescription(f: Form, t: string, d: string)
    ensures Validate(ToggleViolenceType(f, t)) == Validate(f)
    ensures Validate(WithDescription(f, d)) == Validate(f)
  {
  }

  /** Each rule reads its own field: editing the address decides the `address`
      entry from the new text alone and leaves the email entry as it was, and
      editing the email leaves the `address` entry as it was. */
  lemma EditsTouchOnlyTheirOwnEntry(f: Form, a: string, e: string)
    ensures Address in Validate(WithAddress(f, a)) <==> AllSpace(a)
    ensures Validate(WithAddress(f, a)) - {Address} == Validate(f) - {Address}
    ensures Validate(WithContactEmail(f, e)) - {ContactEmail} == Validate(f) - {ContactEmail}
  {
  }

  /** Ticking "Anonymous" can only remove errors, never add one. */
  lemma AnonymityOnlyRelaxes(f: Form)
    ensures Validate(WithIsAnonymous(f, true)).Keys <= Validate(f).Keys
  {
  }

  /** The form as it starts (and as it is reset) is rejected for its empty address. */
  lemma InitialFormNeedsAddress()
    ensures Validate(InitialForm) == map[Address := AddressRequired]
  {
  }

  /** Worked reports: an anonymous report with an address passes; an empty
      address is flagged; a non-anonymous report without email gets the
      required message; with a whitespace-only email it gets the format
      message; a malformed email is flagged even on an anonymous report. */
  lemma ValidateExamples()
    ensures Validate(Form("123 Main St", ["Physical"], "", "", true)) == map[]
    ensures Validate(Form("", [], "", "", true)) == map[Address := AddressRequired]
    ensures Validate(Form("X", [], "", "", false)) == map[ContactEmail := EmailRequired]
    ensures Validate(Form("X", [], "", "  ", false)) == map[ContactEmail := InvalidEmailFormat]
    ensures Validate(Form("X", [], "", "a@b", true)) == map[ContactEmail := InvalidEmailFormat]
    ensures Validate(Form("X", [], "", "a@b.com", false)) == map[]
  {
    assert !IsSpace("123 Main St"[0]);
    assert !IsSpace("X"[0]);
    ShapeExamples();
    BlankHasNoShape("  ");
  }
}
