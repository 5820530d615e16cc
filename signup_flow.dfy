/** The form and the endpoint together: what the page shows for each
    response the endpoint can give. */
module SignupFlow {
  import opened Js
  import WaitlistRoute
  import SignupForm

  /** How a response of the endpoint reaches the form once `res.json()` has
      parsed it: `res.ok` holds for a 2xx status, and `data.error` is the
      body's `error` property. */
  function Delivered(r: WaitlistRoute.Response): SignupForm.Outcome {
    if 200 <= r.status < 300 then SignupForm.Ok
    else match r.body
      case Succeeded => SignupForm.NotOk(Undefined)
      case Failed(e) => SignupForm.NotOk(Str(e))
  }

  /** For each response the endpoint gives, a submission from an enabled form
      ends in the state the page promises: the confirmation with the input
      cleared, or the endpoint's own message with the input kept. A provider
      failure and a network failure show the same text. */
  lemma ResponsesAsShown(st: SignupForm.FormState, r: WaitlistRoute.Response)
    requires SignupForm.Enabled(st, SignupForm.Submit)
    requires r == WaitlistRoute.Ok || r == WaitlistRoute.BadRequest || r == WaitlistRoute.ServerError
    ensures var loading := SignupForm.Next(st, SignupForm.Submit);
            var st' := SignupForm.Next(loading, SignupForm.Respond(Delivered(r)));
            && (r == WaitlistRoute.Ok ==>
                  st' == SignupForm.FormState("", SignupForm.Success, SignupForm.ConfirmationMessage))
            && (r == WaitlistRoute.BadRequest ==>
                  st' == SignupForm.FormState(st.email, SignupForm.Error, WaitlistRoute.InvalidEmailMessage))
            && (r == WaitlistRoute.ServerError ==>
                  st' == SignupForm.Next(loading, SignupForm.Respond(SignupForm.Thrown)))
  {
  }
}
