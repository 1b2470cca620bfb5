/**
 `sendEmail` and the form's submit handler: the `sending` guard, the submit
 control's busy state, the submit-time phone rewrite, the payload, the
 greeting, and the reset that runs on every way out.

 The handler suspends at the network request and again while reading the
 response body. The model splits it at the request: `Begin` runs up to it,
 `Finish` runs from the parsed response on, and `SendEmail` is the two run
 back to back. Both waits are folded into the request's outcome, which is a
 parameter.
 */
module Submission {
  import opened Wrappers
  import opened Text
  import opened Fields
  import opened Phone
  import Navigator

  /** The submit control: whether it is disabled, and its label (`innerHTML`). */
  datatype Button = Button(disabled: bool, html: string)

  /** What `sendEmail` sees of a form: its controls in document order, the
      `sending` flag, and the submit control, if there is one. */
  datatype Form = Form(controls: seq<Field>, sending: bool, button: Option<Button>)

  /** The label shown while a submission is in flight. */
  const BusyLabel: string := "<span class=\"spinner-border spinner-border-sm\"></span> Sending..."

  /** The keys of the submitted object. */
  const PayloadKeys: set<string> := {"name", "email", "phone", "street", "city", "state", "zip", "timeline", "reason"}

  /** The submitted object: one string per key. */
  type Payload = p: map<string, string> | p.Keys == PayloadKeys
    witness map["name" := "", "email" := "", "phone" := "", "street" := "", "city" := "",
                "state" := "", "zip" := "", "timeline" := "", "reason" := ""]

  /** What the user is told: the phone warning, the personalised thanks, or an
      error carrying the failure's message. */
  datatype Notice = InvalidPhone | ThankYou(name: string) | SubmissionError(message: string)

  /** How the request ended: a response whose `status` field is the given
      text, or a failure (network or parsing) with its message. */
  datatype Outcome = Responded(status: string) | RequestFailed(message: string)

  /** One entry of the `data` object of `sendEmail`: the value of the first
      control with that name, trimmed for every key but `timeline`; the empty
      string when the form has no control with that name. */
  function Entry(controls: seq<Field>, key: string): (v: string)
    ensures key != "timeline" ==> Trim(v) == v
    ensures Named(controls, key).None? ==> v == ""
    ensures Named(controls, key).Some? ==> Trim(v) == Trim(controls[Named(controls, key).value].value)
    ensures Named(controls, key).Some? && key == "timeline" ==> v == controls[Named(controls, key).value].value
  {
    match Named(controls, key)
    case None => ""
    case Some(i) =>
      TrimIdempotent(controls[i].value);
      if key == "timeline" then controls[i].value else Trim(controls[i].value)
  }

  /** The `data` object of `sendEmail`: every entry but `timeline` is free of
      surrounding white space, an absent control gives the empty string, and a
      present one gives its own value up to surrounding white space. */
  function BuildPayload(controls: seq<Field>): (p: Payload)
    ensures forall k :: k in p && k != "timeline" ==> Trim(p[k]) == p[k]
    ensures forall k :: k in p && Named(controls, k).None? ==> p[k] == ""
    ensures forall k :: k in p && Named(controls, k).Some? ==>
              Trim(p[k]) == Trim(controls[Named(controls, k).value].value)
    ensures Named(controls, "timeline").Some? ==> p["timeline"] == controls[Named(controls, "timeline").value].value
  {
    map k | k in PayloadKeys :: Entry(controls, k)
  }

  /** `data.name.split(' ')[0] || 'Friend'`. */
  function GreetingName(name: string): (r: string)
    ensures r != [] && ' ' !in r
    ensures (name == [] || name[0] == ' ') ==> r == "Friend"
    ensures name != [] && name[0] != ' ' ==> |r| <= |name| && name[..|r|] == r && (|r| == |name| || name[|r|] == ' ')
  {
    var first := FirstToken(name);
    if first == [] then "Friend" else first
  }

  /** The submit control restored by `reset()`: enabled, original label. */
  function Restored(b: Option<Button>, original: string): (r: Option<Button>)
    ensures r.Some? <==> b.Some?
    ensures r.Some? ==> !r.value.disabled && r.value.html == original
  {
    if b.Some? then Some(Button(false, original)) else None
  }

  /** `reset()`: the guard is lowered and the submit control restored. */
  function Reset(f: Form, original: string): (r: Form)
    ensures !r.sending && r.controls == f.controls
    ensures r.button.Some? <==> f.button.Some?
    ensures r.button.Some? ==> !r.button.value.disabled && r.button.value.html == original
  {
    f.(sending := false, button := Restored(f.button, original))
  }

  /** A submission suspended at its network request. */
  datatype Flight = Flight(form: Form, payload: Payload, original: string)

  /** How the part of `sendEmail` before the request ended. */
  datatype Start =
    | Ignored                           // a submission was already in flight
    | Rejected(form: Form, notice: Notice) // the phone had the wrong digit count
    | Sent(flight: Flight)              // the request was issued with this payload

  /** The phone rewrite: the first control named `phone`, if any, must hold
      exactly ten digits, and is rewritten canonically. */
  function RewritePhone(controls: seq<Field>): (r: Result<seq<Field>, PhoneError>)
    ensures Named(controls, "phone").None? ==> r == Success(controls)
    ensures Named(controls, "phone").Some? ==>
              var i := Named(controls, "phone").value;
              match Normalise(controls[i].value)
              case Failure(e) => r == Failure(e)
              case Success(v) => r == Success(controls[i := controls[i].(value := v)])
  {
    match Named(controls, "phone")
    case None => Success(controls)
    case Some(i) =>
      match Normalise(controls[i].value)
      case Failure(e) => Failure(e)
      case Success(v) => Success(controls[i := controls[i].(value := v)])
  }

  /** `sendEmail` up to its request. */
  function Begin(f: Form): (r: Start)
    ensures f.sending <==> r.Ignored?
    ensures r.Rejected? ==> r.form == Reset(f, OriginalLabel(f)) && r.notice == InvalidPhone
    ensures r.Sent? ==> r.flight.form.sending && r.flight.original == OriginalLabel(f)
    ensures r.Sent? ==> r.flight.form.button == (if f.button.Some? then Some(Button(true, BusyLabel)) else None)
    ensures r.Rejected? <==> !f.sending && !PhoneAccepted(f.controls)
    ensures r.Sent? ==> r.flight.form.controls == RewritePhone(f.controls).value
    ensures r.Sent? ==> r.flight.payload == BuildPayload(r.flight.form.controls)
  {
    if f.sending then Ignored
    else
      var original := OriginalLabel(f);
      var busy := f.(sending := true, button := if f.button.Some? then Some(Button(true, BusyLabel)) else None);
      match RewritePhone(f.controls)
      case Failure(_) => Rejected(Reset(busy, original), InvalidPhone)
      case Success(controls) => Sent(Flight(busy.(controls := controls), BuildPayload(controls), original))
  }

  /** The label `sendEmail` remembers before showing the busy label; restoring
      with it gives the submit control back as it was, only enabled. */
  function OriginalLabel(f: Form): (r: string)
    ensures f.button.Some? ==> Restored(f.button, r) == Some(f.button.value.(disabled := false))
  {
    if f.button.Some? then f.button.value.html else ""
  }

  /** `sendEmail` from the response on: success thanks the user by name and
      clears the form; anything else reports an error; the reset always runs. */
  function Finish(s: Flight, outcome: Outcome): (r: (Form, Notice))
    ensures !r.0.sending && r.0.button == Restored(s.form.button, s.original)
    ensures outcome == Responded("success") ==>
              r.1 == ThankYou(GreetingName(s.payload["name"])) && r.0.controls == Cleared(s.form.controls)
    ensures outcome.Responded? && outcome.status != "success" ==>
              r.1 == SubmissionError("Submission failed") && r.0.controls == s.form.controls
    ensures outcome.RequestFailed? ==>
              r.1 == SubmissionError(outcome.message) && r.0.controls == s.form.controls
  {
    match outcome
    case Responded(status) =>
      if status == "success" then
        (Reset(s.form.(controls := Cleared(s.form.controls)), s.original), ThankYou(GreetingName(s.payload["name"])))
      else
        (Reset(s.form, s.original), SubmissionError("Submission failed"))
    case RequestFailed(message) =>
      (Reset(s.form, s.original), SubmissionError(message))
  }

  /** `form.reset()`: every control's value emptied. */
  function Cleared(controls: seq<Field>): (r: seq<Field>)
    ensures |r| == |controls|
    ensures forall i :: 0 <= i < |r| ==> r[i] == controls[i].(value := "")
  {
    seq(|controls|, i requires 0 <= i < |controls| => controls[i].(value := ""))
  }

  /** What a call of `sendEmail` told the user and sent. */
  datatype Report = Report(notice: Option<Notice>, sent: Option<Payload>)

  /** The phone check `sendEmail` makes before anything is sent. */
  predicate PhoneAccepted(controls: seq<Field>): (r: bool)
    ensures r <==> RewritePhone(controls).Success?
    ensures r && Named(controls, "phone").Some? ==>
              MatchesPattern(RewritePhone(controls).value[Named(controls, "phone").value].value)
  {
    match Named(controls, "phone")
    case None => true
    case Some(i) =>
      if |Digits(controls[i].value)| == 10 then
        NormalisedMatchesPattern(controls[i].value);
        true
      else false
  }

  /** A whole call of `sendEmail`, with the request ending in `outcome`. */
  function SendEmail(f: Form, outcome: Outcome): (r: (Form, Report))
    ensures f.sending ==> r == (f, Report(None, None))
    ensures !f.sending ==> !r.0.sending && r.0.button == Restored(f.button, OriginalLabel(f))
    ensures r.1.sent.Some? <==> !f.sending && PhoneAccepted(f.controls)
    ensures !f.sending && !PhoneAccepted(f.controls) ==>
              r.1.notice == Some(InvalidPhone) && r.0.controls == f.controls
    ensures r.1.sent.Some? && outcome == Responded("success") ==>
              r.1.notice == Some(ThankYou(GreetingName(r.1.sent.value["name"]))) &&
              r.0.controls == Cleared(RewritePhone(f.controls).value)
    ensures r.1.sent.Some? && outcome != Responded("success") ==>
              r.1.notice.Some? && r.1.notice.value.SubmissionError? &&
              r.0.controls == RewritePhone(f.controls).value
  {
    match Begin(f)
    case Ignored => (f, Report(None, None))
    case Rejected(g, n) => (g, Report(Some(n), None))
    case Sent(s) =>
      var (g, n) := Finish(s, outcome);
      (g, Report(Some(n), Some(s.payload)))
  }

  /** The submit handler: the last step's required controls are checked, and
      only then is `sendEmail` called. */
  function OnSubmit(w: Navigator.Wizard, f: Form, outcome: Outcome): (r: (Form, Report, Option<nat>))
    requires 1 <= |w.steps|
    ensures ValidateRequiredFields(w.steps[|w.steps| - 1].fields).Invalid? ==>
              r == (f, Report(None, None), Some(ValidateRequiredFields(w.steps[|w.steps| - 1].fields).focus))
    ensures ValidateRequiredFields(w.steps[|w.steps| - 1].fields).Valid? ==>
              r.2 == None && (r.0, r.1) == SendEmail(f, outcome)
  {
    match ValidateRequiredFields(w.steps[|w.steps| - 1].fields)
    case Invalid(i) => (f, Report(None, None), Some(i))
    case Valid =>
      var (g, rep) := SendEmail(f, outcome);
      (g, rep, None)
  }

  /** While a submission is in flight, a second one is dropped. */
  lemma SecondSubmitIgnored(f: Form)
    requires Begin(f).Sent?
    ensures Begin(Begin(f).flight.form) == Ignored
  {
  }

  /** The phone rewrite touches one control's value only, so every entry but
      `phone` is what the form held before the rewrite. */
  lemma RewriteKeepsOtherEntries(controls: seq<Field>, rewritten: seq<Field>, k: string)
    requires RewritePhone(controls) == Success(rewritten)
    requires k != "phone"
    ensures Entry(rewritten, k) == Entry(controls, k)
  {
    match Named(controls, "phone")
    case None =>
    case Some(i) =>
      var v := Normalise(controls[i].value).value;
      QueryIgnoresValues(controls, i, v, ByName(k));
  }

  /** The phone that is sent is the canonical rewrite of the form's phone. */
  lemma RewrittenPhoneEntry(controls: seq<Field>, rewritten: seq<Field>)
    requires RewritePhone(controls) == Success(rewritten)
    requires Named(controls, "phone").Some?
    ensures Entry(rewritten, "phone") == Normalise(controls[Named(controls, "phone").value].value).value
  {
    var i := Named(controls, "phone").value;
    var v := Normalise(controls[i].value).value;
    QueryIgnoresValues(controls, i, v, ByName("phone"));
    NormalisedIsTrimmed(controls[i].value);
  }

  /** A request is issued with the payload of the rewritten controls. */
  lemma SentIsRewrittenPayload(f: Form, outcome: Outcome)
    requires SendEmail(f, outcome).1.sent.Some?
    ensures RewritePhone(f.controls).Success?
    ensures SendEmail(f, outcome).1.sent.value == BuildPayload(RewritePhone(f.controls).value)
  {
  }

  /** Every entry but the phone is sent as the form held it. */
  lemma SentEntriesUnchanged(f: Form, outcome: Outcome, k: string)
    requires SendEmail(f, outcome).1.sent.Some?
    requires k in PayloadKeys && k != "phone"
    ensures SendEmail(f, outcome).1.sent.value[k] == BuildPayload(f.controls)[k]
  {
    SentIsRewrittenPayload(f, outcome);
    RewriteKeepsOtherEntries(f.controls, RewritePhone(f.controls).value, k);
  }

  /** The phone is sent in its canonical `(DDD) DDD-DDDD` rewrite, which the
      loose pattern also accepts; without a phone control it is sent empty. */
  lemma SentPhone(f: Form, outcome: Outcome)
    requires SendEmail(f, outcome).1.sent.Some?
    ensures Named(f.controls, "phone").Some? ==>
              var v := f.controls[Named(f.controls, "phone").value].value;
              && Normalise(v).Success?
              && SendEmail(f, outcome).1.sent.value["phone"] == Normalise(v).value
              && MatchesPattern(SendEmail(f, outcome).1.sent.value["phone"])
    ensures Named(f.controls, "phone").None? ==> SendEmail(f, outcome).1.sent.value["phone"] == ""
  {
    SentIsRewrittenPayload(f, outcome);
    var rewritten := RewritePhone(f.controls).value;
    if Named(f.controls, "phone").Some? {
      RewrittenPhoneEntry(f.controls, rewritten);
      NormalisedMatchesPattern(f.controls[Named(f.controls, "phone").value].value);
    }
  }
}
