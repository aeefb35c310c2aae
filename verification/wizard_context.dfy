/** The shared state the role-permission wizard hands to its steps: the
    submitting / success / error / hide-form record, its field setters, the
    submit and completion transitions, and the choice between the live form
    and the success screen. */
module WizardContext {
  import opened Options

  datatype WizardState = WizardState(success: bool, submitting: bool, error: Option<string>, hideForm: bool)

  /** The record as the wizard mounts it. */
  const Initial: WizardState := WizardState(false, false, None, false)

  /** Every write to the record: the three setters exposed to the steps, the
      submit handler's flag, and the completion of the role update. */
  datatype Action =
    | SetError(error: Option<string>)
    | SetSuccess(success: bool)
    | SetHideForm(hideForm: bool)
    | SubmitStarted
    | UpdateCompleted

  /** One write. Each setter replaces its own field and keeps the rest;
      completion clears `submitting` and raises `success` and `hideForm`. */
  function Apply(s: WizardState, a: Action): (t: WizardState)
    ensures a.SetError? ==> t.error == a.error && t.(error := s.error) == s
    ensures a.SetSuccess? ==> t.success == a.success && t.(success := s.success) == s
    ensures a.SetHideForm? ==> t.hideForm == a.hideForm && t.(hideForm := s.hideForm) == s
    ensures a.SubmitStarted? ==> t.submitting && t.(submitting := s.submitting) == s
    ensures a.UpdateCompleted? ==> !t.submitting && t.success && t.hideForm && t.error == s.error
  {
    match a
    case SetError(e) => s.(error := e)
    case SetSuccess(b) => s.(success := b)
    case SetHideForm(b) => s.(hideForm := b)
    case SubmitStarted => s.(submitting := true)
    case UpdateCompleted => s.(submitting := false, success := true, hideForm := true)
  }

  /** A sequence of writes, applied in order (last write wins). */
  function Run(s: WizardState, actions: seq<Action>): WizardState
    decreases |actions|
  {
    if |actions| == 0 then s else Run(Apply(s, actions[0]), actions[1..])
  }

  /** What the wizard renders. */
  datatype View = FormView | SuccessView(roleId: string)

  /** The live form while `hideForm` is false, the one-step success screen
      for the current role id once it is true. */
  function Render(s: WizardState, currentRoleId: string): (v: View)
    ensures v.SuccessView? <==> s.hideForm
    ensures v.SuccessView? ==> v.roleId == currentRoleId
  {
    if s.hideForm then SuccessView(currentRoleId) else FormView
  }

  /** The wizard mounts on the live form, with nothing submitted, succeeded
      or failed. */
  lemma MountShowsForm(id: string)
    ensures Render(Initial, id) == FormView
    ensures !Initial.submitting && !Initial.success && Initial.error.None?
  {
  }

  /** Reference definition of the `hideForm` flag after a run: the value of
      the last write that touched it, or the starting value. */
  function LastHideForm(actions: seq<Action>, start: bool): bool
    decreases |actions|
  {
    if |actions| == 0 then start
    else
      match actions[|actions| - 1]
      case SetHideForm(b) => b
      case UpdateCompleted => true
      case _ => LastHideForm(actions[..|actions| - 1], start)
  }

  /** Reference definition of the `error` field after a run: only the error
      setter writes it. */
  function LastError(actions: seq<Action>, start: Option<string>): Option<string>
    decreases |actions|
  {
    if |actions| == 0 then start
    else
      match actions[|actions| - 1]
      case SetError(e) => e
      case _ => LastError(actions[..|actions| - 1], start)
  }

  /** Running one more write is applying it to the result of the run. */
  lemma {:induction false} RunSnoc(s: WizardState, actions: seq<Action>, a: Action)
    ensures Run(s, actions + [a]) == Apply(Run(s, actions), a)
    decreases |actions|
  {
    if |actions| > 0 {
      assert (actions + [a])[1..] == actions[1..] + [a];
      RunSnoc(Apply(s, actions[0]), actions[1..], a);
    }
  }

  /** After any run, `hideForm` holds the last value written to it, and so
      the rendered view is decided by that last write. */
  lemma {:induction false} HideFormIsLastWrite(s: WizardState, actions: seq<Action>, id: string)
    ensures Run(s, actions).hideForm == LastHideForm(actions, s.hideForm)
    ensures Render(Run(s, actions), id).SuccessView? == LastHideForm(actions, s.hideForm)
    decreases |actions|
  {
    if |actions| > 0 {
      var init := actions[..|actions| - 1];
      assert init + [actions[|actions| - 1]] == actions;
      RunSnoc(s, init, actions[|actions| - 1]);
      HideFormIsLastWrite(s, init, id);
    }
  }

  /** After any run, `error` holds the last value the error setter wrote: no
      submit, completion or other setter disturbs it. */
  lemma {:induction false} ErrorIsLastWrite(s: WizardState, actions: seq<Action>)
    ensures Run(s, actions).error == LastError(actions, s.error)
    decreases |actions|
  {
    if |actions| > 0 {
      var init := actions[..|actions| - 1];
      assert init + [actions[|actions| - 1]] == actions;
      RunSnoc(s, init, actions[|actions| - 1]);
      ErrorIsLastWrite(s, init);
    }
  }

  /** Setters of different fields commute, and a second write to the same
      field overrides the first. */
  lemma SettersIndependent(s: WizardState, e: Option<string>, b: bool, h: bool)
    ensures Apply(Apply(s, SetError(e)), SetSuccess(b)) == Apply(Apply(s, SetSuccess(b)), SetError(e))
    ensures Apply(Apply(s, SetError(e)), SetHideForm(h)) == Apply(Apply(s, SetHideForm(h)), SetError(e))
    ensures Apply(Apply(s, SetSuccess(b)), SetHideForm(h)) == Apply(Apply(s, SetHideForm(h)), SetSuccess(b))
  {
  }

  lemma LastWriteWins(s: WizardState, a: Action, b: Action)
    requires (a.SetError? && b.SetError?) || (a.SetSuccess? && b.SetSuccess?) || (a.SetHideForm? && b.SetHideForm?)
    ensures Apply(Apply(s, a), b) == Apply(s, b)
  {
  }

  /** Submitting and then seeing the update complete, from any state, ends
      with the success screen and an untouched error. */
  lemma SubmitThenCompleteShowsSuccess(s: WizardState, id: string)
    ensures Run(s, [SubmitStarted, UpdateCompleted])
         == WizardState(true, false, s.error, true)
    ensures Render(Run(s, [SubmitStarted, UpdateCompleted]), id) == SuccessView(id)
  {
    assert [SubmitStarted, UpdateCompleted][1..] == [UpdateCompleted];
  }
}
