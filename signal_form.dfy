/**
  The `SignalForm` component: its three state cells (`form`, `isLoading`,
  `errors`), the input handlers that update `form`, and `handleSubmit`.

  The insert into the `signals` table is a remote call whose outcome is given
  to `HandleSubmit` as a parameter; the call it would make and the toast
  notifications it would show are returned, so that the contract can say when
  the backend is reached and what the user is told.
 */
module Component {
  import opened Text
  import opened EmailPattern
  import opened FormRecord
  import opened Validation

  /** How the insert into the storage backend ended: accepted, or refused
      with an error carrying a `message` (a returned error object and a
      thrown exception are handled alike). */
  datatype InsertOutcome = Inserted | InsertFailed(message: string)

  /** The backend call a submission made, if any. */
  datatype StorageCall = NoCall | Insert(table: string, rows: seq<Form>)

  /** A toast notification. All toasts of one submission share one slot, so
      each later one replaces the one before it on screen. */
  datatype Toast = LoadingToast(text: string) | SuccessToast(text: string) | ErrorToast(text: string)

  const SignalsTable := "signals"
  const SendingText := "Sending signal..."
  const SentText := "Signal sent successfully!"
  const FailurePrefix := "Failed to send signal: "

  class SignalForm {
    var form: Form
    var isLoading: bool
    var errors: map<Field, string>

    /** What every handler keeps: the ticked types are distinct offered labels,
        the error object only names validated fields, and between two steps
        the component is idle (no insert is pending). */
    ghost predicate Valid()
      reads this
    {
      && !isLoading
      && NoDuplicates(form.violenceType)
      && KnownTypes(form.violenceType)
      && errors.Keys <= ValidatedFields
    }

    /** The component's first render: the initial form, not loading, no errors. */
    constructor ()
      ensures Valid()
      ensures form == InitialForm && !isLoading && errors == map[]
    {
      form := InitialForm;
      isLoading := false;
      errors := map[];
    }

    /** `validateForm()` as the component runs it: an error object built by
        successive assignments, later ones overwriting earlier ones. */
    method ValidateForm() returns (newErrors: map<Field, string>)
      ensures newErrors == Validate(form)
    {
      newErrors := map[];
      if IsBlank(form.address) {
        newErrors := newErrors[Address := AddressRequired];
      }
      if !form.isAnonymous && IsBlank(form.contactEmail) {
        newErrors := newErrors[ContactEmail := EmailRequired];
      }
      if form.contactEmail != [] && !HasEmailShape(form.contactEmail) {
        newErrors := newErrors[ContactEmail := InvalidEmailFormat];
      }
    }

    /** `handleSubmit`, run as one step with the backend's answer `outcome`.
        A report that fails validation only has its errors stored: no toast,
        no backend call, `form` untouched. A valid report
        clears the errors and is inserted as a one-row batch into `signals`;
        on success the form is reset to its initial value, on failure it is
        kept for a retry and the toast carries the backend's message. On
        every exit path the loading flag is off afterwards. */
    method HandleSubmit(outcome: InsertOutcome) returns (call: StorageCall, toasts: seq<Toast>)
      requires Valid()
      modifies this
      ensures Valid() && !isLoading
      ensures Validate(old(form)) != map[] ==>
        && errors == Validate(old(form))
        && form == old(form)
        && call == NoCall && toasts == []
      ensures Validate(old(form)) == map[] ==>
        && errors == map[]
        && call == Insert(SignalsTable, [old(form)])
        && match outcome
           case Inserted =>
             form == InitialForm && toasts == [LoadingToast(SendingText), SuccessToast(SentText)]
           case InsertFailed(message) =>
             form == old(form) && toasts == [LoadingToast(SendingText), ErrorToast(FailurePrefix + message)]
    {
      var validationErrors := ValidateForm();
      if |validationErrors| > 0 {
        errors := validationErrors;
        call, toasts := NoCall, [];
        return;
      }
      toasts := [LoadingToast(SendingText)];
      isLoading := true;
      errors := map[];
      call := Insert(SignalsTable, [form]);
      match outcome {
        case Inserted =>
          toasts := toasts + [SuccessToast(SentText)];
          form := InitialForm;
        case InsertFailed(message) =>
          toasts := toasts + [ErrorToast(FailurePrefix + message)];
      }
      isLoading := false;
    }

    /** The checkbox of one offered label changed: `handleViolenceTypeChange`. */
    method HandleViolenceTypeChange(t: string)
      requires Valid() && t in ViolenceTypes
      modifies this
      ensures Valid()
      ensures form == ToggleViolenceType(old(form), t)
      ensures isLoading == old(isLoading) && errors == old(errors)
    {
      ToggleKeepsNoDuplicates(form.violenceType, t);
      ToggleKeepsKnownTypes(form.violenceType, t);
      form := ToggleViolenceType(form, t);
    }

    /** The address input changed. */
    method OnAddressChange(v: string)
      requires Valid()
      modifies this
      ensures Valid()
      ensures form == WithAddress(old(form), v)
      ensures isLoading == old(isLoading) && errors == old(errors)
    {
      form := WithAddress(form, v);
    }

    /** The description text area changed. */
    method OnDescriptionChange(v: string)
      requires Valid()
      modifies this
      ensures Valid()
      ensures form == WithDescription(old(form), v)
      ensures isLoading == old(isLoading) && errors == old(errors)
    {
      form := WithDescription(form, v);
    }

    /** The email input changed. */
    method OnContactEmailChange(v: string)
      requires Valid()
      modifies this
      ensures Valid()
      ensures form == WithContactEmail(old(form), v)
      ensures isLoading == old(isLoading) && errors == old(errors)
    {
      form := WithContactEmail(form, v);
    }

    /** The "Anonymous" checkbox changed. */
    method OnAnonymousChange(checked: bool)
      requires Valid()
      modifies this
      ensures Valid()
      ensures form == WithIsAnonymous(old(form), checked)
      ensures isLoading == old(isLoading) && errors == old(errors)
    {
      form := WithIsAnonymous(form, checked);
    }
  }

  /** A report that the backend refuses can be sent again unchanged: the retry
      inserts the very record of the first attempt, and once it succeeds the
      form is back at its initial value. */
  method RetryAfterFailure(c: SignalForm, message: string)
    returns (first: StorageCall, second: StorageCall)
    requires c.Valid() && Validate(c.form) == map[]
    modifies c
    ensures c.Valid() && c.form == InitialForm && !c.isLoading && c.errors == map[]
    ensures first == second == Insert(SignalsTable, [old(c.form)])
  {
    var toasts;
    first, toasts := c.HandleSubmit(InsertFailed(message));
    second, toasts := c.HandleSubmit(Inserted);
  }
}
