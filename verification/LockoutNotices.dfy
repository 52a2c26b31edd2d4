/** From lock episodes to outbox rows. */
module LockoutNotices {
  import opened Wrappers
  import NotificationDomain
  import Outbox
  import OutboxProtocol
  import Preferences
  import Lockout
  import opened Enqueuer

  const EVENT := "account_locked"
  const TEMPLATE := "security.account_locked"

  function LockReport(user: string, until: NotificationDomain.Time, payload: NotificationDomain.Payload): Report {
    Report(user, EVENT, TEMPLATE, until, payload)
  }

  /** The lock episodes of one account, each told with its own end in the
      payload, as often and in whatever order. */
  datatype Story = Story(
    text: Text, user: string, payload: Lockout.Time -> NotificationDomain.Payload, episodes: seq<Lockout.Time>,
    told: seq<Telling>, of: seq<nat>)
  {
    /** The idempotency key of one episode on one channel, in full. */
    function KeyOf(episode: nat, ch: NotificationDomain.Channel): string
      requires episode < |episodes|
    {
      "account_locked" + ":" + user + ":" + text.format(episodes[episode]) + ":" + ch
    }

    /** The row tells this user of this episode on this channel, and nothing else. */
    predicate Tells(r: Outbox.Row, episode: nat, ch: NotificationDomain.Channel)
      requires episode < |episodes|
    {
      && text.parse(user) == Some(r.recipient) && r.channel == ch && r.category == "security"
      && r.templateKey == "security.account_locked" && r.payload == payload(episodes[episode])
      && r.idempotencyKey == Some(KeyOf(episode, ch))
      && r.status == NotificationDomain.Pending && r.attempts == 0
    }

    /** What is told is told of an episode. */
    predicate TellsEpisodes() {
      && |of| == |told|
      && forall k :: 0 <= k < |told| ==>
           of[k] < |episodes| && told[k].rep == LockReport(user, episodes[of[k]], payload(episodes[of[k]]))
    }

    ghost predicate TextIsFaithful() {
      && (forall s, t :: text.format(s) == text.format(t) ==> s == t)
      && ':' !in user && text.parse(user).Some? && text.parse(user).value != NotificationDomain.NIL_ID
    }

    /** The channel has a sender and the user has not switched it off. */
    predicate Reaches(
      prefs: Preferences.Table, senders: set<NotificationDomain.Channel>, ch: NotificationDomain.Channel)
    {
      && (ch == "email" || ch == "inapp") && ch in senders && text.parse(user).Some?
      && (ch == "email" ||
          var key := Preferences.Key(text.parse(user).value, ch, "security");
          key in prefs ==> prefs[key].enabled)
    }

    /** The k-th telling meets nothing on this channel that would stop it. */
    predicate Clear(k: nat, ch: NotificationDomain.Channel)
      requires k < |told|
    {
      var at := told[k].tries(ch);
      at.id != NotificationDomain.NIL_ID && !at.unreadable && !at.fault.NotSent?
    }

    ghost predicate EachToldClearly(prefs: Preferences.Table, senders: set<NotificationDomain.Channel>)
      requires |of| == |told|
    {
      forall e: nat, ch | e < |episodes| && Reaches(prefs, senders, ch) :: ToldClearly(e, ch)
    }

    predicate ToldClearly(e: nat, ch: NotificationDomain.Channel)
      requires |of| == |told|
    {
      exists k :: 0 <= k < |told| && of[k] == e && Clear(k, ch)
    }
  }

  /** The calls of a sequence of tellings are those of its members. */
  lemma {:induction false} CallsAreTold(text: Text, told: seq<Telling>)
    ensures forall c :: c in text.CallsForAll(told) ==>
              exists k :: 0 <= k < |told| && c in text.CallsFor(told[k].rep, told[k].tries)
    ensures forall k, c :: 0 <= k < |told| && c in text.CallsFor(told[k].rep, told[k].tries) ==>
              c in text.CallsForAll(told)
    decreases |told|
  {
    if told != [] {
      var n := |told| - 1;
      var before := told[..n];
      CallsAreTold(text, before);
      assert forall k :: 0 <= k < n ==> before[k] == told[k];
      forall c | c in text.CallsForAll(told)
        ensures exists k :: 0 <= k < |told| && c in text.CallsFor(told[k].rep, told[k].tries)
      {
        if c in text.CallsForAll(before) {
          var k :| 0 <= k < n && c in text.CallsFor(before[k].rep, before[k].tries);
          assert c in text.CallsFor(told[k].rep, told[k].tries);
        } else {
          assert c in text.CallsFor(told[n].rep, told[n].tries);
        }
      }
    }
  }

  /** One call of a story: what it is, and that it goes through when it reaches. */
  lemma CallOfTelling(
    y: Story, prefs: Preferences.Table, senders: set<NotificationDomain.Channel>,
    k: nat, ch: NotificationDomain.Channel)
    returns (c: Call)
    requires y.TellsEpisodes() && y.TextIsFaithful() && k < |y.told| && ch in SECURITY_CHANNELS
    ensures c in y.text.CallsFor(y.told[k].rep, y.told[k].tries)
    ensures c.req.key == y.KeyOf(y.of[k], ch) && c.req.channel == ch
    ensures forall now, r :: IsRequested(c.req, now, r) ==> y.Tells(r, y.of[k], ch)
    ensures y.Reaches(prefs, senders, ch) && y.Clear(k, ch) ==> Unhindered(prefs, senders, c)
  {
    var calls := y.text.CallsFor(y.told[k].rep, y.told[k].tries);
    var i :| 0 <= i < |SECURITY_CHANNELS| && SECURITY_CHANNELS[i] == ch;
    c := calls[i];
    assert c in calls;
  }

  /** Over any sequence of logins on one account, with successes and resets in
      between, whose lock episodes are told to the notifier, repeats included
      and each clearly at least once: afterwards every episode has exactly one
      row for every channel that has a sender and that the user wants, no two of
      these share a row, and no other row was added or changed. */
  lemma EveryEpisodeHasItsRows(
    c: Lockout.Config, u: Lockout.Account, from: Lockout.Time, attempts: seq<Lockout.Attempt>,
    y: Story, prefs: Preferences.Table, senders: set<NotificationDomain.Channel>, t: Outbox.Table)
    requires c.lockDuration > 0 && Lockout.Sequential(from, attempts)
    requires forall k :: 0 <= k < |attempts| ==> attempts[k].saved
    requires y.episodes == Lockout.Announced(c, u, attempts)
    requires y.TellsEpisodes() && y.TextIsFaithful() && y.EachToldClearly(prefs, senders)
    requires OutboxProtocol.KeysUnique(t) && FreshIds(t, y.text.CallsForAll(y.told))
    ensures var z := EnqueuedAll(prefs, senders, t, y.text.CallsForAll(y.told));
            && (forall e: nat, ch | e < |y.episodes| && y.Reaches(prefs, senders, ch) ::
                  ExactlyOne(z, y.KeyOf(e, ch)))
            && (forall id | id in z && id !in t :: exists e: nat, ch ::
                  && e < |y.episodes| && y.Reaches(prefs, senders, ch)
                  && y.Tells(z[id], e, ch))
            && Extends(t, z)
    ensures forall e: nat, ch, e': nat, ch' |
              && e < |y.episodes| && e' < |y.episodes|
              && ch in SECURITY_CHANNELS && ch' in SECURITY_CHANNELS ::
              y.KeyOf(e, ch) == y.KeyOf(e', ch') <==> e == e' && ch == ch'
  {
    var calls := y.text.CallsForAll(y.told);
    var z := EnqueuedAll(prefs, senders, t, calls);
    EnqueuesAreIdempotent(prefs, senders, t, calls);
    CallsAreTold(y.text, y.told);
    forall e: nat, ch | e < |y.episodes| && y.Reaches(prefs, senders, ch)
      ensures ExactlyOne(z, y.KeyOf(e, ch))
    {
      assert y.ToldClearly(e, ch);
      var k :| 0 <= k < |y.told| && y.of[k] == e && y.Clear(k, ch);
      var call := CallOfTelling(y, prefs, senders, k, ch);
      assert call in calls;
    }
    forall id | id in z && id !in t
      ensures exists e: nat, ch ::
                && e < |y.episodes| && y.Reaches(prefs, senders, ch)
                && y.Tells(z[id], e, ch)
    {
      var n :| 0 <= n < |calls| && Inserts(prefs, senders, calls[n]) && IsRowOf(z, id, calls[n]);
      AddedRowIsOfAnEpisode(y, prefs, senders, z, id, calls[n]);
    }
    EpisodesAreToldApart(c, u, from, attempts, y);
  }

  lemma AddedRowIsOfAnEpisode(
    y: Story, prefs: Preferences.Table, senders: set<NotificationDomain.Channel>, z: Outbox.Table,
    id: NotificationDomain.Id, call: Call)
    requires y.TellsEpisodes() && y.TextIsFaithful() && call in y.text.CallsForAll(y.told)
    requires Inserts(prefs, senders, call) && IsRowOf(z, id, call)
    ensures exists e: nat, ch ::
              && e < |y.episodes| && y.Reaches(prefs, senders, ch)
              && y.Tells(z[id], e, ch)
  {
    CallsAreTold(y.text, y.told);
    var k :| 0 <= k < |y.told| && call in y.text.CallsFor(y.told[k].rep, y.told[k].tries);
    var calls := y.text.CallsFor(y.told[k].rep, y.told[k].tries);
    var i :| 0 <= i < |calls| && calls[i] == call;
    RowOfTelling(y, prefs, senders, z[id], k, i);
    var ch := SECURITY_CHANNELS[i];
    assert y.Tells(z[id], y.of[k], ch) && y.Reaches(prefs, senders, ch);
  }

  /** The row of the i-th call of the k-th telling. */
  lemma RowOfTelling(
    y: Story, prefs: Preferences.Table, senders: set<NotificationDomain.Channel>, r: Outbox.Row, k: nat, i: nat)
    requires y.TellsEpisodes() && y.TextIsFaithful() && k < |y.told| && i < |SECURITY_CHANNELS|
    requires var call := y.text.CallsFor(y.told[k].rep, y.told[k].tries)[i];
             Inserts(prefs, senders, call) && IsRequested(call.req, call.at.now, r)
    ensures y.Reaches(prefs, senders, SECURITY_CHANNELS[i]) && y.Tells(r, y.of[k], SECURITY_CHANNELS[i])
  {
  }

  /** Each episode is reported under keys of its own, one per channel. */
  lemma EpisodesAreToldApart(
    c: Lockout.Config, u: Lockout.Account, from: Lockout.Time, attempts: seq<Lockout.Attempt>, y: Story)
    requires c.lockDuration > 0 && Lockout.Sequential(from, attempts)
    requires forall k :: 0 <= k < |attempts| ==> attempts[k].saved
    requires y.episodes == Lockout.Announced(c, u, attempts) && y.TextIsFaithful()
    ensures forall e: nat, ch, e': nat, ch' |
              && e < |y.episodes| && e' < |y.episodes|
              && ch in SECURITY_CHANNELS && ch' in SECURITY_CHANNELS ::
              y.KeyOf(e, ch) == y.KeyOf(e', ch') <==> e == e' && ch == ch'
  {
    Lockout.EpisodesAreDistinct(c, u, from, attempts);
    forall e: nat, ch, e': nat, ch' |
      && e < |y.episodes| && e' < |y.episodes|
      && ch in SECURITY_CHANNELS && ch' in SECURITY_CHANNELS
      ensures y.KeyOf(e, ch) == y.KeyOf(e', ch') <==> e == e' && ch == ch'
    {
      KeysTellEpisodes(y, e, ch, e', ch');
    }
  }

  lemma KeysTellEpisodes(
    y: Story, e: nat, ch: NotificationDomain.Channel, e': nat, ch': NotificationDomain.Channel)
    requires Lockout.Increasing(y.episodes) && y.TextIsFaithful() && e < |y.episodes| && e' < |y.episodes|
    requires ch in SECURITY_CHANNELS && ch' in SECURITY_CHANNELS
    ensures y.KeyOf(e, ch) == y.KeyOf(e', ch') <==> e == e' && ch == ch'
  {
    if y.KeyOf(e, ch) == y.KeyOf(e', ch') {
      var a := LockReport(y.user, y.episodes[e], y.payload(y.episodes[e]));
      var b := LockReport(y.user, y.episodes[e'], y.payload(y.episodes[e']));
      RowsTellEpisodesApart(y.text, a, b, ch, ch');
      assert y.episodes[e] == y.episodes[e'];
    }
  }
}
