/**
 * `src/components/contact/ContactForm.tsx`: the contact form's state and the
 * message it hands to EmailJS.
 *
 * The EmailJS calls are recorded in fields instead of being made; whether the
 * send succeeds is a parameter. The form sends the fields as typed: nothing
 * here sanitises them or consults a rate limit.
 */
module ContactForm {

  /** The four inputs, by their `name` attribute. */
  datatype Field = NameField | EmailField | SubjectField | MessageField

  datatype FormData = FormData(name: string, email: string, subject: string, message: string)

  const EmptyForm := FormData("", "", "", "")

  /** The template parameters of `emailjs.send`. */
  datatype Payload = Payload(fromName: string, fromEmail: string, subject: string, message: string)

  /** One `emailjs.send(service, template, params)` call. */
  datatype Send = Send(serviceId: string, templateId: string, params: Payload)

  datatype Toast = Toast(title: string, description: string, destructive: bool)

  const PublicKey := "XN33EQ1OGfmxBQvG1"
  const ServiceId := "service_vt6nce2"
  const TemplateId := "template_as969ew"
  const DefaultSubject := "Contact Form Submission"

  const SentToast := Toast("Message Sent!", "Thank you for your message. I'll get back to you soon.", false)
  const FailedToast := Toast("Error", "Failed to send your message. Please try again later.", true)

  function FieldValue(d: FormData, f: Field): string {
    match f
    case NameField => d.name
    case EmailField => d.email
    case SubjectField => d.subject
    case MessageField => d.message
  }

  /** `{...prev, [name]: value}`. */
  function With(d: FormData, f: Field, value: string): (r: FormData)
    ensures FieldValue(r, f) == value
    ensures forall g :: g != f ==> FieldValue(r, g) == FieldValue(d, g)
  {
    match f
    case NameField => d.(name := value)
    case EmailField => d.(email := value)
    case SubjectField => d.(subject := value)
    case MessageField => d.(message := value)
  }

  /** The parameters sent for the form's data. */
  function PayloadOf(d: FormData): Payload {
    Payload(d.name, d.email, if d.subject != "" then d.subject else DefaultSubject, d.message)
  }

  /** The subject sent is never empty: an empty one becomes the default, any
      other is sent as entered. */
  lemma PayloadSubject(d: FormData)
    ensures PayloadOf(d).subject != ""
    ensures d.subject != "" <==> PayloadOf(d).subject == d.subject
    ensures d.subject == "" <==> PayloadOf(d).subject == DefaultSubject && d.subject != DefaultSubject
  {
  }

  /** The other parameters are the fields as entered, and two forms that differ
      give different payloads unless they differ only in an empty versus a
      default subject. */
  lemma PayloadPassesFieldsThrough(d: FormData, e: FormData)
    ensures PayloadOf(d).fromName == d.name && PayloadOf(d).fromEmail == d.email && PayloadOf(d).message == d.message
    ensures PayloadOf(d) == PayloadOf(e) <==>
      && d.name == e.name && d.email == e.email && d.message == e.message
      && (d.subject == e.subject || {d.subject, e.subject} == {"", DefaultSubject})
  {
    if d.subject != e.subject && PayloadOf(d).subject == PayloadOf(e).subject {
      if d.subject == "" {
        assert e.subject == DefaultSubject;
      } else {
        assert d.subject == DefaultSubject && e.subject == "";
      }
      assert {d.subject, e.subject} == {"", DefaultSubject};
    }
    if d.subject != e.subject && {d.subject, e.subject} == {"", DefaultSubject} {
      assert d.subject in {"", DefaultSubject} && e.subject in {"", DefaultSubject};
    }
  }

  class ContactFormState {
    var formData: FormData
    var isSubmitting: bool
    /** The keys passed to `emailjs.init`. */
    var inits: seq<string>
    var sends: seq<Send>
    var toasts: seq<Toast>

    constructor ()
      ensures formData == EmptyForm && !isSubmitting
      ensures inits == [] && sends == [] && toasts == []
    {
      formData := EmptyForm;
      isSubmitting := false;
      inits := [];
      sends := [];
      toasts := [];
    }

    /** `handleChange`: sets the field the event names, and only it. */
    method HandleChange(f: Field, value: string)
      modifies this
      ensures formData == With(old(formData), f, value)
      ensures isSubmitting == old(isSubmitting) && inits == old(inits) && sends == old(sends) && toasts == old(toasts)
    {
      formData := With(formData, f, value);
    }

    /** The part of `handleSubmit` before the `await`: the flag goes up and
        the message goes out. */
    method StartSubmit()
      modifies this
      ensures isSubmitting
      ensures inits == old(inits) + [PublicKey]
      ensures sends == old(sends) + [Send(ServiceId, TemplateId, PayloadOf(old(formData)))]
      ensures formData == old(formData) && toasts == old(toasts)
    {
      isSubmitting := true;
      inits := inits + [PublicKey];
      sends := sends + [Send(ServiceId, TemplateId, PayloadOf(formData))];
    }

    /** The part after the `await`: on success the form is cleared, on failure
        it is kept; either way the flag comes down. */
    method FinishSubmit(sendSucceeded: bool)
      modifies this
      ensures !isSubmitting
      ensures sendSucceeded ==> formData == EmptyForm && toasts == old(toasts) + [SentToast]
      ensures !sendSucceeded ==> formData == old(formData) && toasts == old(toasts) + [FailedToast]
      ensures inits == old(inits) && sends == old(sends)
    {
      if sendSucceeded {
        toasts := toasts + [SentToast];
        formData := EmptyForm;
      } else {
        toasts := toasts + [FailedToast];
      }
      isSubmitting := false;
    }

    /** `handleSubmit`, given whether `emailjs.send` resolves. */
    method HandleSubmit(sendSucceeded: bool)
      modifies this
      ensures sends == old(sends) + [Send(ServiceId, TemplateId, PayloadOf(old(formData)))]
      ensures inits == old(inits) + [PublicKey]
      ensures !isSubmitting
      ensures sendSucceeded ==> formData == EmptyForm && toasts == old(toasts) + [SentToast]
      ensures !sendSucceeded ==> formData == old(formData) && toasts == old(toasts) + [FailedToast]
    {
      StartSubmit();
      FinishSubmit(sendSucceeded);
    }
  }

  /** Typing into two fields and sending: a failed send keeps what was typed,
      a retry that succeeds clears it. */
  method SubmitScenario()
  {
    var form := new ContactFormState();
    form.HandleChange(NameField, "Ada");
    form.HandleChange(MessageField, "Hello");
    assert form.formData == FormData("Ada", "", "", "Hello");
    form.HandleSubmit(false);
    assert form.formData == FormData("Ada", "", "", "Hello");
    form.HandleSubmit(true);
    assert form.sends[1].params == Payload("Ada", "", DefaultSubject, "Hello");
    assert form.formData == EmptyForm;
  }
}
