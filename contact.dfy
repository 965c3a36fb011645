/**
 * The contact form of src/components/Contact.tsx: a three-field draft,
 * the focused-field highlight, and a submission whose transport either throws
 * or does not. The request itself is reduced to the body it would carry and
 * the toasts to a log of their kinds.
 */
module Contact {
  import opened Wrappers

  /** The form's inputs, named `name`, `email` and `message`. */
  datatype Field = Name | Email | Message

  datatype Draft = Draft(name: string, email: string, message: string)

  const EmptyDraft: Draft := Draft("", "", "")

  function Get(d: Draft, f: Field): string {
    match f
    case Name => d.name
    case Email => d.email
    case Message => d.message
  }

  /** `handleChange`: `{ ...prev, [name]: value }`. */
  function WithField(d: Draft, f: Field, v: string): (r: Draft)
    ensures Get(r, f) == v
    ensures forall g :: g != f ==> Get(r, g) == Get(d, g)
  {
    match f
    case Name => d.(name := v)
    case Email => d.(email := v)
    case Message => d.(message := v)
  }

  /** Drafts are equal exactly when they agree on every field. */
  lemma DraftExtensional(d1: Draft, d2: Draft)
    ensures d1 == d2 <==> forall f :: Get(d1, f) == Get(d2, f)
  {
    if forall f :: Get(d1, f) == Get(d2, f) {
      assert Get(d1, Name) == Get(d2, Name) && Get(d1, Email) == Get(d2, Email);
      assert Get(d1, Message) == Get(d2, Message);
    }
  }

  /** Writing a field twice keeps the second value; writing back what was there changes nothing. */
  lemma WithFieldOverwrite(d: Draft, f: Field, v: string, w: string)
    ensures WithField(WithField(d, f, v), f, w) == WithField(d, f, w)
    ensures WithField(d, f, Get(d, f)) == d
  {
    DraftExtensional(WithField(WithField(d, f, v), f, w), WithField(d, f, w));
    DraftExtensional(WithField(d, f, Get(d, f)), d);
  }

  /** A field's label is highlighted exactly when that field has the focus. */
  predicate LabelHighlighted(focused: Option<Field>, f: Field) {
    focused == Some(f)
  }

  /** The two toasts: "Message Sent!" and the destructive "Error". */
  datatype Toast = Sent | Failed

  /** The draft after a submission settles: cleared when the transport did not throw, kept when it did. */
  function Settle(d: Draft, threw: bool): (r: Draft)
    ensures threw ==> r == d
    ensures !threw ==> forall f :: Get(r, f) == ""
  {
    if threw then d else EmptyDraft
  }

  function Outcome(threw: bool): (t: Toast)
    ensures t == Failed <==> threw
  {
    if threw then Failed else Sent
  }

  class ContactForm {
    var formData: Draft
    var isSubmitting: bool
    var focused: Option<Field>
    /** Bodies of the requests dispatched so far. */
    var requests: seq<Draft>
    /** Toasts shown so far. */
    var toasts: seq<Toast>
    /** Dispatched requests whose `await` has not returned yet. */
    var inFlight: nat

    constructor ()
      ensures formData == EmptyDraft && !isSubmitting && focused == None
      ensures requests == [] && toasts == [] && inFlight == 0
    {
      formData := EmptyDraft;
      isSubmitting := false;
      focused := None;
      requests := [];
      toasts := [];
      inFlight := 0;
    }

    method HandleChange(f: Field, value: string)
      modifies this`formData
      ensures formData == WithField(old(formData), f, value)
    {
      match f {
        case Name => formData := formData.(name := value);
        case Email => formData := formData.(email := value);
        case Message => formData := formData.(message := value);
      }
    }

    method HandleFocus(f: Field)
      modifies this`focused
      ensures focused == Some(f)
      ensures forall g :: LabelHighlighted(focused, g) <==> g == f
    {
      focused := Some(f);
    }

    method HandleBlur()
      modifies this`focused
      ensures focused == None
      ensures forall g :: !LabelHighlighted(focused, g)
    {
      focused := None;
    }

    /** `handleSubmit` up to the `await`: the flag is raised and the current draft is the request body. */
    method BeginSubmit()
      modifies this`isSubmitting, this`requests, this`inFlight
      ensures isSubmitting
      ensures requests == old(requests) + [formData]
      ensures inFlight == old(inFlight) + 1
    {
      isSubmitting := true;
      requests := requests + [formData];
      inFlight := inFlight + 1;
    }

    /**
     * `handleSubmit` after the `await`: one toast, the draft cleared or kept,
     * and the flag lowered by the `finally` whatever happened.
     */
    method CompleteSubmit(threw: bool)
      requires inFlight > 0
      modifies this`isSubmitting, this`toasts, this`formData, this`inFlight
      ensures !isSubmitting
      ensures toasts == old(toasts) + [Outcome(threw)]
      ensures formData == Settle(old(formData), threw)
      ensures inFlight == old(inFlight) - 1
    {
      if !threw {
        toasts := toasts + [Sent];
        formData := EmptyDraft;
      } else {
        toasts := toasts + [Failed];
      }
      isSubmitting := false;
      inFlight := inFlight - 1;
    }
  }

  /**
   * A whole submission with no typing during the `await`: the request carries
   * the draft as it stood, exactly one toast of the right kind is shown, the
   * draft is cleared on success and kept on failure, and the flag ends lowered.
   */
  method SubmitOnce(form: ContactForm, threw: bool)
    modifies form
    ensures form.requests == old(form.requests) + [old(form.formData)]
    ensures form.toasts == old(form.toasts) + [Outcome(threw)]
    ensures |form.toasts| == |old(form.toasts)| + 1
    ensures form.formData == (if threw then old(form.formData) else EmptyDraft)
    ensures !form.isSubmitting && form.inFlight == old(form.inFlight)
    ensures form.focused == old(form.focused)
  {
    form.BeginSubmit();
    assert form.isSubmitting;
    form.CompleteSubmit(threw);
  }
}
