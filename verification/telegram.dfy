/** The notification settings page: the recipient picker, saving the bot
    configuration, and the bulk-send button with its status display. The
    two delays of the simulated send are modelled as pending timers that
    fire in any order the environment chooses; their durations are not
    modelled. */
module Telegram {
  import opened Types
  import opened Text
  import opened Collections

  predicate HasChatId(u: User)
  {
    Truthy(u.telegramChatId)
  }

  /** The users offered as recipients: those with a non-empty chat id, in
      list order. */
  function UsersWithTelegram(users: seq<User>): (r: seq<User>)
    ensures forall u :: u in r <==> u in users && u.telegramChatId.Some? && u.telegramChatId.value != ""
    ensures forall u :: HasChatId(u) ==> multiset(r)[u] == multiset(users)[u]
  {
    Filter(users, HasChatId)
  }

  /** The picker keeps list order: it works piecewise on a split list. */
  lemma UsersWithTelegramKeepsOrder(a: seq<User>, b: seq<User>)
    ensures UsersWithTelegram(a + b) == UsersWithTelegram(a) + UsersWithTelegram(b)
  {
    FilterConcat(a, b, HasChatId);
  }

  datatype SendStatus = Idle | Loading | Success | Error

  /** The two scheduled callbacks of a send. */
  datatype Timer = ShowSuccess | BackToIdle

  /** The page state: the token being edited, the selected recipient ids,
      the message draft, the send status and the callbacks still pending. */
  datatype SettingsPage = SettingsPage(
    token: string,
    selected: seq<string>,
    message: string,
    status: SendStatus,
    pending: seq<Timer>)

  /** The page as it opens, seeded from the stored configuration. */
  function OpenSettings(config: TelegramConfig): SettingsPage
  {
    SettingsPage(config.botToken, config.recipients, "", Idle, [])
  }

  /** The recipient checkbox. */
  function ToggleRecipient(p: SettingsPage, id: string): (q: SettingsPage)
    ensures id in p.selected ==> id !in q.selected
    ensures id !in p.selected ==> q.selected == p.selected + [id]
    ensures forall y :: y != id ==> (y in q.selected <==> y in p.selected)
    ensures q.(selected := p.selected) == p
  {
    p.(selected := Toggle(p.selected, id))
  }

  /** Ticking a recipient twice restores which ids are selected, and the
      exact selection when the recipient was not selected before. */
  lemma ToggleRecipientTwice(p: SettingsPage, id: string)
    ensures forall y :: y in ToggleRecipient(ToggleRecipient(p, id), id).selected <==> y in p.selected
    ensures id !in p.selected ==> ToggleRecipient(ToggleRecipient(p, id), id) == p
  {
    ToggleTwiceMembership(p.selected, id);
    if id !in p.selected {
      ToggleTwiceRestores(p.selected, id);
    }
  }

  /** The configuration the save button hands to the application. */
  function SaveConfig(p: SettingsPage): (c: TelegramConfig)
    ensures c.botToken == p.token && c.recipients == p.selected
  {
    TelegramConfig(p.token, p.selected)
  }

  /** Opening the page and saving straight away stores the configuration
      that was loaded; a page's edits survive a save and reopen. */
  lemma SaveConfigRoundTrip(c: TelegramConfig, p: SettingsPage)
    ensures SaveConfig(OpenSettings(c)) == c
    ensures var q := OpenSettings(SaveConfig(p)); q.token == p.token && q.selected == p.selected
  {
  }

  /** The send button is disabled without a message, without recipients,
      and while a send is in progress. */
  predicate SendDisabled(p: SettingsPage)
  {
    p.message == "" || |p.selected| == 0 || p.status == Loading
  }

  /** The send handler: a no-op without a message or recipients; otherwise
      the status becomes loading and the success callback is scheduled. */
  function Send(p: SettingsPage): (q: SettingsPage)
    ensures p.message == "" || |p.selected| == 0 ==> q == p
    ensures p.message != "" && |p.selected| > 0 ==>
      && SendDisabled(q)
      && q.status == Loading
      && q.pending == p.pending + [ShowSuccess]
      && q.(status := p.status, pending := p.pending) == p
  {
    if p.message == "" || |p.selected| == 0 then p
    else p.(status := Loading, pending := p.pending + [ShowSuccess])
  }

  /** Runs one callback: the first shows success, clears the draft and
      schedules the return to idle; the second returns to idle. */
  function RunTimer(p: SettingsPage, t: Timer): (q: SettingsPage)
    ensures t == ShowSuccess ==> q.status == Success && q.message == ""
    ensures t == BackToIdle ==> q.status == Idle && q.message == p.message
    ensures q.token == p.token && q.selected == p.selected
  {
    match t
    case ShowSuccess => p.(status := Success, message := "", pending := p.pending + [BackToIdle])
    case BackToIdle => p.(status := Idle)
  }

  /** What can happen on the page: typing the token or the message,
      ticking a recipient, pressing send, or a pending callback firing. */
  datatype PageEvent =
    | EditToken(token: string)
    | TickRecipient(id: string)
    | TypeMessage(text: string)
    | PressSend
    | Fire(k: nat)

  /** One step: the token field and the message field replace their text;
      a recipient tick toggles that id; pressing the button sends unless it
      is disabled; `Fire(k)` runs the `k`-th pending callback (an index past
      the end does nothing). Only a tick changes the selection, only a token
      edit changes the token, and no step produces the error status. */
  function Step(p: SettingsPage, e: PageEvent): (q: SettingsPage)
    ensures e.PressSend? && SendDisabled(p) ==> q == p
    ensures e.EditToken? ==> q == p.(token := e.token)
    ensures !e.EditToken? ==> q.token == p.token
    ensures e.TickRecipient? ==> q == ToggleRecipient(p, e.id)
    ensures !e.TickRecipient? ==> q.selected == p.selected
    ensures p.status != Error ==> q.status != Error
  {
    match e
    case EditToken(t) => p.(token := t)
    case TickRecipient(id) => ToggleRecipient(p, id)
    case TypeMessage(t) => p.(message := t)
    case PressSend => if SendDisabled(p) then p else Send(p)
    case Fire(k) =>
      if k < |p.pending| then RunTimer(p.(pending := p.pending[..k] + p.pending[k + 1..]), p.pending[k])
      else p
  }

  /** No event of `es` ticks the recipient `id`. */
  predicate NeverTicks(es: seq<PageEvent>, id: string)
  {
    forall i :: 0 <= i < |es| ==> es[i] != TickRecipient(id)
  }

  /** No event of `es` ticks any recipient. */
  predicate NoTicks(es: seq<PageEvent>)
  {
    forall i :: 0 <= i < |es| ==> !es[i].TickRecipient?
  }

  /** No event of `es` edits the token. */
  predicate NoTokenEdit(es: seq<PageEvent>)
  {
    forall i :: 0 <= i < |es| ==> !es[i].EditToken?
  }

  /** The page after a sequence of events. No sequence reaches the error
      status, since the page never sets it; the token changes only through
      the token field, and a recipient's membership in the selection
      changes only when that recipient is ticked. */
  function Run(p: SettingsPage, es: seq<PageEvent>): (q: SettingsPage)
    ensures p.status != Error ==> q.status != Error
    ensures NoTokenEdit(es) ==> q.token == p.token
    ensures NoTicks(es) ==> q.selected == p.selected
    ensures forall y :: NeverTicks(es, y) ==> (y in q.selected <==> y in p.selected)
    decreases |es|
  {
    if |es| == 0 then p
    else
      assert forall y :: NeverTicks(es, y) ==> NeverTicks(es[1..], y);
      assert NoTokenEdit(es) ==> NoTokenEdit(es[1..]);
      assert NoTicks(es) ==> NoTicks(es[1..]);
      Run(Step(p, es[0]), es[1..])
  }

  /** Running two sequences of events one after the other is running their
      concatenation. */
  lemma {:induction false} RunConcat(p: SettingsPage, a: seq<PageEvent>, b: seq<PageEvent>)
    ensures Run(p, a + b) == Run(Run(p, a), b)
    decreases |a|
  {
    if |a| == 0 {
      assert a + b == b;
    } else {
      assert (a + b)[1..] == a[1..] + b;
      RunConcat(Step(p, a[0]), a[1..], b);
    }
  }

  /** A send from a quiet page goes idle, loading, success, idle; the draft
      is cleared on success and nothing stays pending. */
  lemma SendLifecycle(p: SettingsPage)
    requires p.status == Idle && p.pending == []
    requires p.message != "" && |p.selected| > 0
    ensures Step(p, PressSend).status == Loading
    ensures SendDisabled(Step(p, PressSend))
    ensures Run(p, [PressSend, Fire(0)]).status == Success
    ensures Run(p, [PressSend, Fire(0)]).message == ""
    ensures Run(p, [PressSend, Fire(0), Fire(0)]) == p.(message := "")
  {
    var a := Step(p, PressSend);
    assert a.pending == [ShowSuccess];
    assert a.pending[..0] + a.pending[1..] == [];
    var b := Step(a, Fire(0));
    assert b.pending == [BackToIdle];
    assert b.pending[..0] + b.pending[1..] == [];
    assert Run(p, [PressSend, Fire(0), Fire(0)]) == Run(b, [Fire(0)]);
    assert Run(p, [PressSend, Fire(0)]) == Run(a, [Fire(0)]);
  }

  /** The callbacks are never cancelled: if the user sends again while the
      success banner shows, the earlier return-to-idle callback can fire
      during the second send, re-enabling the button mid-send. */
  lemma StaleIdleDuringSecondSend(p: SettingsPage, second: string)
    requires p.status == Idle && p.pending == []
    requires p.message != "" && |p.selected| > 0 && second != ""
    ensures var q := Run(p, [PressSend, Fire(0), TypeMessage(second), PressSend, Fire(0)]);
      q.status == Idle && q.pending == [ShowSuccess] && !SendDisabled(q)
  {
    var a := Step(p, PressSend);
    assert a == p.(status := Loading, pending := [ShowSuccess]);
    var b := Step(a, Fire(0));
    assert a.pending[..0] + a.pending[1..] == [];
    assert b == a.(status := Success, message := "", pending := [BackToIdle]);
    var c := Step(b, TypeMessage(second));
    var d := Step(c, PressSend);
    assert d == c.(status := Loading, pending := [BackToIdle, ShowSuccess]);
    var e := Step(d, Fire(0));
    assert d.pending[..0] + d.pending[1..] == [ShowSuccess];
    assert e == d.(status := Idle, pending := [ShowSuccess]);
    var es := [PressSend, Fire(0), TypeMessage(second), PressSend, Fire(0)];
    assert es[1..] == [Fire(0), TypeMessage(second), PressSend, Fire(0)];
    RunTwo(c, PressSend, Fire(0));
    RunSplit(a, Fire(0), TypeMessage(second), PressSend, Fire(0));
  }

  lemma RunTwo(p: SettingsPage, x: PageEvent, y: PageEvent)
    ensures Run(p, [x, y]) == Step(Step(p, x), y)
  {
    assert [x, y][1..] == [y];
    assert [y][1..] == [];
    assert Run(p, [x, y]) == Run(Step(p, x), [y]);
    assert Run(Step(p, x), [y]) == Run(Step(Step(p, x), y), []);
  }

  /** Running four events is running the first two, then the last two. */
  lemma RunSplit(a: SettingsPage, w: PageEvent, x: PageEvent, y: PageEvent, z: PageEvent)
    ensures Run(a, [w, x, y, z]) == Run(Step(Step(a, w), x), [y, z])
  {
    assert [w, x, y, z][1..] == [x, y, z];
    assert [x, y, z][1..] == [y, z];
    assert Run(a, [w, x, y, z]) == Run(Step(a, w), [x, y, z]);
  }
}
