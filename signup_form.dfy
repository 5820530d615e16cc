/** The signup form of the home page: three state cells (`email`, `status`,
    `message`), the submit handler that moves them, and the guards the page
    renders from `status`. */
module SignupForm {
  import opened Js

  datatype Status = Idle | Loading | Success | Error

  const FallbackMessage := "Something went wrong. Please try again."
  const ConfirmationMessage := "You're on the list! We'll be in touch when GigLocal launches."

  datatype FormState = FormState(email: string, status: Status, message: string)

  const Initial := FormState("", Idle, "")

  /** How the awaited `fetch` and `res.json()` end: a parsed body with a
      non-ok status (`error` is that body's `error` property), a parsed body
      with an ok status, or an exception from either call. */
  datatype Outcome = NotOk(error: Value) | Ok | Thrown

  /** What can happen to the form: typing into the input, submitting, and the
      end of the request a submission started. */
  datatype Event = Edit(value: string) | Submit | Respond(outcome: Outcome)

  /** The form (input and button) is rendered instead of the confirmation. */
  predicate FormShown(status: Status) {
    status != Success
  }

  /** The input and the submit button are disabled. */
  predicate ControlsDisabled(status: Status) {
    status == Loading
  }

  /** The error paragraph is rendered. */
  predicate ErrorShown(status: Status) {
    status == Error
  }

  /** An event can happen in a state: typing and submitting need a rendered,
      enabled form; a response needs a request in flight. */
  predicate Enabled(st: FormState, e: Event) {
    match e
    case Respond(_) => st.status == Loading
    case _ => FormShown(st.status) && !ControlsDisabled(st.status)
  }

  /** `data.error || fallback`, as it is rendered. */
  function ErrorMessage(error: Value): string {
    if Truthy(error) then ToText(error) else FallbackMessage
  }

  /** The state after an enabled event. */
  function Next(st: FormState, e: Event): (st': FormState)
    requires Enabled(st, e)
    ensures st'.status == Loading <==> e == Submit
    ensures st'.status == Success <==> e == Respond(Ok)
    ensures e.Respond? ==> st'.status == Success || st'.status == Error
    ensures st'.email != st.email ==> e.Edit? || e == Respond(Ok)
    ensures e == Respond(Ok) ==> st'.email == "" && st'.message == ConfirmationMessage
  {
    match e
    case Edit(value) => st.(email := value)
    case Submit => st.(status := Loading)
    case Respond(NotOk(error)) => st.(status := Error, message := ErrorMessage(error))
    case Respond(Ok) => FormState("", Success, ConfirmationMessage)
    case Respond(Thrown) => st.(status := Error, message := FallbackMessage)
  }

  /** Every event of `es`, in order, is enabled when it happens. */
  ghost predicate ValidRun(st: FormState, es: seq<Event>)
    decreases |es|
  {
    es == [] || (Enabled(st, es[0]) && ValidRun(Next(st, es[0]), es[1..]))
  }

  /** The state after a valid run. */
  ghost function After(st: FormState, es: seq<Event>): FormState
    requires ValidRun(st, es)
    decreases |es|
  {
    if es == [] then st else After(Next(st, es[0]), es[1..])
  }

  /** What holds in every state the page can reach: before any submission no
      message is set, and after a success the input is empty and the
      confirmation is the message. */
  ghost predicate Consistent(st: FormState) {
    (st.status == Idle ==> st.message == "") &&
    (st.status == Success ==> st.email == "" && st.message == ConfirmationMessage)
  }

  lemma {:induction false} ConsistentPreserved(st: FormState, es: seq<Event>)
    requires Consistent(st) && ValidRun(st, es)
    ensures Consistent(After(st, es))
    decreases |es|
  {
    if es != [] {
      ConsistentPreserved(Next(st, es[0]), es[1..]);
    }
  }

  /** Every state reachable from page load is consistent. */
  lemma Reachable(es: seq<Event>)
    requires ValidRun(Initial, es)
    ensures Consistent(After(Initial, es))
  {
    ConsistentPreserved(Initial, es);
  }

  /** Nothing can happen after a success: the form is gone, and no request is
      in flight. */
  lemma SuccessIsAbsorbing(st: FormState, es: seq<Event>)
    requires st.status == Success && ValidRun(st, es)
    ensures es == [] && !FormShown(st.status) && !ErrorShown(st.status)
  {
  }

  /** Once the page has left `idle` it never returns to it. */
  lemma {:induction false} NeverBackToIdle(st: FormState, es: seq<Event>)
    requires st.status != Idle && ValidRun(st, es)
    ensures After(st, es).status != Idle
    decreases |es|
  {
    if es != [] {
      NeverBackToIdle(Next(st, es[0]), es[1..]);
    }
  }

  /** A response is only ever handled right after the submission that set
      `loading`; submissions and responses alternate. */
  lemma {:induction false} ResponseFollowsSubmit(st: FormState, es: seq<Event>, k: nat)
    requires ValidRun(st, es) && 0 < k < |es| && es[k].Respond?
    ensures es[k - 1] == Submit
    decreases |es|
  {
    if k > 1 {
      ResponseFollowsSubmit(Next(st, es[0]), es[1..], k - 1);
    }
  }

  /** The controls are disabled exactly while a submission awaits its
      response: after a run, exactly when its last event was a submission (or,
      for an empty run, when a request was already in flight). */
  lemma {:induction false} DisabledIffInFlight(st: FormState, es: seq<Event>)
    requires ValidRun(st, es)
    ensures ControlsDisabled(After(st, es).status) <==>
              if es == [] then st.status == Loading else es[|es| - 1] == Submit
    decreases |es|
  {
    if es != [] {
      DisabledIffInFlight(Next(st, es[0]), es[1..]);
      if |es| > 1 {
        assert es[1..][|es| - 2] == es[|es| - 1];
      }
    }
  }

  /** The page's state cells, set through React's state setters. */
  class Form {
    var email: string
    var status: Status
    var message: string

    function State(): FormState
      reads this
    {
      FormState(email, status, message)
    }

    /** The three `useState` initial values. */
    constructor ()
      ensures State() == Initial
    {
      email, status, message := "", Idle, "";
    }

    /** The input's change handler. */
    method Edit(value: string)
      requires Enabled(State(), Event.Edit(value))
      modifies this
      ensures email == value && status == old(status) && message == old(message)
      ensures State() == Next(old(State()), Event.Edit(value))
    {
      email := value;
    }

    /** The first step of the submit handler, before anything is awaited. */
    method Submit()
      requires Enabled(State(), Event.Submit)
      modifies this
      ensures status == Loading && email == old(email) && message == old(message)
      ensures State() == Next(old(State()), Event.Submit)
    {
      status := Loading;
    }

    /** The response was parsed and is not ok. */
    method OnNotOk(error: Value)
      requires Enabled(State(), Respond(NotOk(error)))
      modifies this
      ensures status == Error && message == ErrorMessage(error) && email == old(email)
      ensures State() == Next(old(State()), Respond(NotOk(error)))
    {
      status := Error;
      message := ErrorMessage(error);
    }

    /** The response was parsed and is ok. */
    method OnOk()
      requires Enabled(State(), Respond(Ok))
      modifies this
      ensures status == Success && message == ConfirmationMessage && email == ""
      ensures State() == Next(old(State()), Respond(Ok))
    {
      status := Success;
      message := ConfirmationMessage;
      email := "";
    }

    /** `fetch` or `res.json()` threw. */
    method OnThrown()
      requires Enabled(State(), Respond(Thrown))
      modifies this
      ensures status == Error && message == FallbackMessage && email == old(email)
      ensures State() == Next(old(State()), Respond(Thrown))
    {
      status := Error;
      message := FallbackMessage;
    }

    /** The whole submit handler: `loading` first, then the branch the request's
        outcome selects. */
    method HandleSubmit(outcome: Outcome)
      requires Enabled(State(), Event.Submit)
      modifies this
      ensures State() == Next(Next(old(State()), Event.Submit), Respond(outcome))
    {
      Submit();
      match outcome {
        case NotOk(error) => OnNotOk(error);
        case Ok => OnOk();
        case Thrown => OnThrown();
      }
    }
  }
}
