/** What the edit-group dialog does when it is cancelled or submitted, as
    ordered lists of effects: the warning notification, the close callback,
    navigation, the group update and the list refresh. Effects are returned,
    not performed. */
module GroupActions {
  import opened Options
  import opened Sequences

  datatype Notification = Notification(
    variant: string,
    dismissDelay: int,   // milliseconds
    dismissable: bool,
    title: string,
    description: string)

  /** The payload of a submit: the form's values, field by field. */
  type FormValues = map<string, string>

  datatype Effect =
    | Notify(notification: Notification)
    | CloseCallback                    // the caller's `onClose`
    | Navigate(url: string)
    | UpdateGroup(payload: FormValues)
    | RefreshList(limit: int)          // the caller's `postMethod({ limit })`

  const DefaultCloseUrl: string := "/groups"
  const CancelDismissDelay: int := 8000

  /** The close URL: the caller's, or `/groups` when none was given. */
  function CloseUrl(given: Option<string>): (url: string)
    ensures given.Some? ==> url == given.value
    ensures given.None? ==> url == "/groups"
  {
    given.GetOr(DefaultCloseUrl)
  }

  /** The warning raised on cancel; its wording says "editing" once a group
      is resolved and "adding" before. */
  function CancelNotification(groupSelected: bool): (n: Notification)
    ensures n.variant == "warning" && n.dismissDelay == 8000 && !n.dismissable
    ensures groupSelected ==> n.title == "Editing group" && n.description == "Edit group was canceled by the user."
    ensures !groupSelected ==> n.title == "Adding group" && n.description == "Adding group was canceled by the user."
  {
    if groupSelected then
      Notification("warning", CancelDismissDelay, false, "Editing group", "Edit group was canceled by the user.")
    else
      Notification("warning", CancelDismissDelay, false, "Adding group", "Adding group was canceled by the user.")
  }

  /** The two cancel warnings differ in wording only, and the wording tells
      them apart. */
  lemma CancelNotificationsDifferInWordingOnly(t: string, d: string)
    ensures CancelNotification(true).(title := t, description := d)
         == CancelNotification(false).(title := t, description := d)
    ensures CancelNotification(true).title != CancelNotification(false).title
  {
  }

  /** `a` occurs, and occurs before every occurrence of `b`. */
  predicate Precedes(effects: seq<Effect>, a: Effect, b: Effect) {
    FirstIndexOf(effects, a).Some? && FirstIndexOf(effects, b).Some? && FirstIndexOf(effects, a).value < FirstIndexOf(effects, b).value
  }

  /** Cancelling: notify, call the caller's close callback, then leave for the
      close URL, whether or not a group was resolved. */
  function CancelEffects(groupSelected: bool, closeUrl: string): (es: seq<Effect>)
    ensures |es| == 3
    ensures es[0] == Notify(CancelNotification(groupSelected))
    ensures es[|es| - 1] == Navigate(closeUrl)
    ensures Precedes(es, CloseCallback, Navigate(closeUrl))
    ensures forall i :: 0 <= i < |es| - 1 ==> !es[i].Navigate?
  {
    var es := [Notify(CancelNotification(groupSelected)), CloseCallback, Navigate(closeUrl)];
    assert FirstIndexOf(es, CloseCallback) == Some(1);
    assert FirstIndexOf(es[1..], Navigate(closeUrl)) == Some(1);
    es
  }

  /** A submit: the effects performed while the handler runs, and those that
      run, in order, once the update has resolved. */
  datatype SubmitPlan = SubmitPlan(now: seq<Effect>, afterUpdate: seq<Effect>) {
    /** The order in which the effects happen. */
    function Trace(): seq<Effect> { now + afterUpdate }
  }

  /** The submit handler as written. With a refresh callback the navigation
      is evaluated as the argument of the second `then`, so it happens while
      the handler runs, before the update or the refresh has completed. */
  function SubmitAsWritten(data: FormValues, refresh: bool, limit: int, closeUrl: string): (p: SubmitPlan)
    ensures |p.now| > 0 && p.now[0] == UpdateGroup(data)
    ensures refresh ==> |p.now| == 2 && |p.afterUpdate| == 1
    ensures refresh ==> Navigate(closeUrl) in p.now && RefreshList(limit) in p.afterUpdate
    ensures !refresh ==> p.now == [UpdateGroup(data)] && p.afterUpdate == [Navigate(closeUrl)]
  {
    if refresh then SubmitPlan([UpdateGroup(data), Navigate(closeUrl)], [RefreshList(limit)])
    else SubmitPlan([UpdateGroup(data)], [Navigate(closeUrl)])
  }

  /** As written, a submit with a refresh callback leaves the page before the
      refresh runs (and before the update has resolved). */
  lemma EagerNavigationAsWritten(data: FormValues, limit: int, closeUrl: string)
    ensures Precedes(SubmitAsWritten(data, true, limit, closeUrl).Trace(), Navigate(closeUrl), RefreshList(limit))
    ensures Navigate(closeUrl) in SubmitAsWritten(data, true, limit, closeUrl).now
  {
    var t := SubmitAsWritten(data, true, limit, closeUrl).Trace();
    assert t == [UpdateGroup(data), Navigate(closeUrl), RefreshList(limit)];
    assert t[1..] == [Navigate(closeUrl), RefreshList(limit)];
    assert FirstIndexOf(t[1..][1..], RefreshList(limit)) == Some(0);
  }

  /** The submit handler as intended: update with a copy of the form values;
      when the update resolves, refresh the list if a callback was given, and
      only then leave for the close URL. */
  function Submit(data: FormValues, refresh: bool, limit: int, closeUrl: string): (p: SubmitPlan)
    ensures p.now == [UpdateGroup(data)]
    ensures Navigate(closeUrl) !in p.now && |p.afterUpdate| > 0 && p.afterUpdate[|p.afterUpdate| - 1] == Navigate(closeUrl)
    ensures |p.afterUpdate| == if refresh then 2 else 1
    ensures refresh <==> RefreshList(limit) in p.afterUpdate
    ensures refresh ==> Precedes(p.Trace(), RefreshList(limit), Navigate(closeUrl))
  {
    if refresh then
      var p := SubmitPlan([UpdateGroup(data)], [RefreshList(limit), Navigate(closeUrl)]);
      assert p.Trace()[1..] == p.afterUpdate;
      p
    else SubmitPlan([UpdateGroup(data)], [Navigate(closeUrl)])
  }

  /** Without a refresh callback the code as written already does what is
      intended. */
  lemma SubmitAgreesWithoutRefresh(data: FormValues, limit: int, closeUrl: string)
    ensures SubmitAsWritten(data, false, limit, closeUrl) == Submit(data, false, limit, closeUrl)
  {
  }
}
