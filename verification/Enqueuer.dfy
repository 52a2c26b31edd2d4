/** The producer's side of the outbox: the gate in front of an enqueue, and the
    adapter that turns one security event into one row per channel. */
module Enqueuer {
  import opened Wrappers
  import opened NotificationDomain
  import opened Outbox
  import opened OutboxProtocol
  import Preferences

  datatype Request = Request(
    recipient: Id, channel: Channel, category: Category, templateKey: string, payload: Payload, key: string)

  datatype EnqueueError = Refused(error: Error) | NotRoutable | NoPreferences

  function EnvelopeFor(req: Request, id: Id): Envelope {
    Envelope(id, req.recipient, req.channel, req.category, req.templateKey, req.payload, req.key, 0)
  }

  /** One row, and no more, carries the key. */
  predicate ExactlyOne(t: Table, key: string) {
    && (exists id :: id in t && t[id].idempotencyKey == Some(key))
    && (forall i, j ::
          (i in t && j in t && t[i].idempotencyKey == Some(key) && t[j].idempotencyKey == Some(key)) ==> i == j)
  }

  lemma InsertedKeepsKeys(t: Table, n: Entity)
    requires KeysUnique(t) && Inserted(t, n).Ok?
    ensures KeysUnique(Inserted(t, n).value) && Carries(t, Inserted(t, n).value)
  {
    var u := Inserted(t, n).value;
    var row := ToRow(n);
    forall i, j | i in u && j in u && u[i].idempotencyKey.Some? && u[i].idempotencyKey == u[j].idempotencyKey
      ensures i == j
    {
      assert !KeyTaken(t, row.idempotencyKey);
      assert i in t ==> u[i] == t[i];
      assert j in t ==> u[j] == t[j];
    }
  }

  /** Rows without a key are never arbitrated: an unkeyed enqueue of a fresh id always lands. */
  lemma UnkeyedNeverCollides(t: Table, n: Entity)
    requires n.envelope.idempotencyKey == "" && n.envelope.id !in t
    ensures Inserted(t, n).Ok? && n.envelope.id in Inserted(t, n).value
    ensures Inserted(t, n).value.Keys == t.Keys + {n.envelope.id}
  {
  }

  /** What one call meets: the id it generates, the clock, whether preferences
      can be read, and how the insert goes. */
  datatype Try = Try(id: Id, now: Time, unreadable: bool, fault: Fault)

  datatype Call = Call(req: Request, at: Try)

  /** The pair is open, by the preferences in force. */
  predicate Wanted(prefs: Preferences.Table, req: Request) {
    Preferences.Effective(prefs, req.recipient, req.channel, req.category)
  }

  /** The request gets as far as the insert. */
  predicate Inserts(prefs: Preferences.Table, senders: set<Channel>, c: Call) {
    && NewNotification(EnvelopeFor(c.req, c.at.id), c.at.now).Ok?
    && c.req.channel in senders && !c.at.unreadable && Wanted(prefs, c.req) && !c.at.fault.NotSent?
  }

  /** The table after one call. */
  function Enqueued(prefs: Preferences.Table, senders: set<Channel>, t: Table, c: Call): Table {
    if !Inserts(prefs, senders, c) then t
    else
      var r := Inserted(t, NewNotification(EnvelopeFor(c.req, c.at.id), c.at.now).value);
      if r.Ok? then r.value else t
  }

  /** The row is the request's: new, due at once, and never tried. */
  predicate IsRequested(req: Request, now: Time, r: Row) {
    && r.recipient == req.recipient && r.channel == req.channel && r.category == req.category
    && r.templateKey == req.templateKey && r.payload == req.payload
    && r.idempotencyKey == (if req.key == "" then None else Some(req.key))
    && r.createdAt == now && r.nextAttemptAt == now
    && r.status == Pending && r.attempts == 0 && r.readAt.None? && r.sentAt.None? && r.lastError.None?
  }

  /** Somebody is addressed, on a channel and in a category that exist, by some
      template. */
  predicate IsDeliverable(req: Request) {
    && req.recipient != 0 && req.templateKey != ""
    && (req.channel == "email" || req.channel == "inapp" || req.channel == "webhook")
    && (req.category == "security" || req.category == "account" || req.category == "system")
  }

  /** Security mail always; anything else unless it was switched off. */
  predicate MayBeTold(prefs: Preferences.Table, user: Id, ch: Channel, cat: Category) {
    var key := Preferences.Key(user, ch, cat);
    (ch == "email" && cat == "security") || (key in prefs ==> prefs[key].enabled)
  }

  class Service {
    const repo: NotificationRepo
    const preferences: Preferences.PreferenceRepo
    const senders: set<Channel>

    constructor (repo: NotificationRepo, preferences: Preferences.PreferenceRepo, senders: set<Channel>)
      ensures this.repo == repo && this.preferences == preferences && this.senders == senders
    {
      this.repo, this.preferences, this.senders := repo, preferences, senders;
    }

    /** Nothing is written for a bad request, an unroutable channel, or a pair
        the user switched off. A key already queued is success; success with a
        key, on an open pair, means exactly one row carries it. */
    method Enqueue(req: Request, at: Try) returns (r: Result<(), EnqueueError>)
      requires KeysUnique(repo.rows)
      modifies repo
      ensures repo.rows == Enqueued(preferences.rows, senders, old(repo.rows), Call(req, at))
      ensures KeysUnique(repo.rows) && Carries(old(repo.rows), repo.rows)
      ensures NewNotification(EnvelopeFor(req, at.id), at.now).Err? ==> r == Err(Refused(InvalidNotification))
      ensures req.channel !in senders ==> r.Err?
      ensures r == Err(NotRoutable) ==> req.channel !in senders
      ensures r.Ok? && req.key != "" && Wanted(preferences.rows, req) ==> ExactlyOne(repo.rows, req.key)
      ensures forall i :: i in repo.rows && i !in old(repo.rows) ==>
                i == at.id && EnvelopeOf(repo.rows[i]) == EnvelopeFor(req, at.id).(createdAt := at.now)
      ensures forall i :: i in old(repo.rows) ==> i in repo.rows && repo.rows[i] == old(repo.rows)[i]
      ensures forall i :: i in repo.rows && i !in old(repo.rows) ==>
                && i == at.id && IsRequested(req, at.now, repo.rows[i]) && req.channel in senders && !at.unreadable
                && MayBeTold(preferences.rows, req.recipient, req.channel, req.category)
      ensures (&& IsDeliverable(req) && at.id != 0 && at.id !in old(repo.rows) && req.channel in senders
               && !at.unreadable && !at.fault.NotSent?
               && MayBeTold(preferences.rows, req.recipient, req.channel, req.category)) ==>
                if req.key == "" then at.id in repo.rows else ExactlyOne(repo.rows, req.key)
      ensures (&& at.id !in old(repo.rows) && !at.unreadable && at.fault.Works? && req.channel in senders
               && NewNotification(EnvelopeFor(req, at.id), at.now).Ok?) ==> r.Ok?
    {
      EnqueuedMeans(preferences.rows, senders, repo.rows, Call(req, at));
      var built := NewNotification(EnvelopeFor(req, at.id), at.now);
      if built.Err? {
        return Err(Refused(built.error));
      }
      var n := built.value;
      if req.channel !in senders {
        return Err(NotRoutable);
      }
      if at.unreadable {
        return Err(NoPreferences);
      }
      var prefs := preferences.ListForUser(req.recipient);
      Preferences.GateReadsTheTable(preferences.rows, req.recipient, prefs, req.channel, req.category);
      if !Preferences.Allowed(prefs, req.channel, req.category) {
        return Ok(());
      }
      var stored := repo.Enqueue(n, at.fault);
      if stored.Err? && stored.error != DuplicateIdempotencyKey {
        return Err(Refused(stored.error));
      }
      return Ok(());
    }
  }

  /** The row a call adds is the one it asks for. */
  lemma RowOfCall(prefs: Preferences.Table, senders: set<Channel>, t: Table, c: Call)
    ensures var u := Enqueued(prefs, senders, t, c);
            forall id :: id in u && id !in t ==> id == c.at.id && IsRequested(c.req, c.at.now, u[id])
  {
    if Inserts(prefs, senders, c) {
      RowColumns(NewNotification(EnvelopeFor(c.req, c.at.id), c.at.now).value);
    }
  }

  /** One call, in the words of its contract. */
  lemma EnqueuedMeans(prefs: Preferences.Table, senders: set<Channel>, t: Table, c: Call)
    requires KeysUnique(t)
    ensures var u := Enqueued(prefs, senders, t, c);
            && KeysUnique(u) && Carries(t, u) && Extends(t, u)
            && (forall i :: i in u && i !in t ==>
                  && i == c.at.id && EnvelopeOf(u[i]) == EnvelopeFor(c.req, c.at.id).(createdAt := c.at.now)
                  && IsRequested(c.req, c.at.now, u[i]) && c.req.channel in senders && !c.at.unreadable
                  && MayBeTold(prefs, c.req.recipient, c.req.channel, c.req.category))
    ensures Inserts(prefs, senders, c) && c.req.key != ""
            && Inserted(t, NewNotification(EnvelopeFor(c.req, c.at.id), c.at.now).value) != Err(Conflict) ==>
              ExactlyOne(Enqueued(prefs, senders, t, c), c.req.key)
    ensures (&& IsDeliverable(c.req) && c.at.id != 0 && c.at.id !in t && c.req.channel in senders
             && !c.at.unreadable && !c.at.fault.NotSent?
             && MayBeTold(prefs, c.req.recipient, c.req.channel, c.req.category)) ==>
              var u := Enqueued(prefs, senders, t, c);
              if c.req.key == "" then c.at.id in u else ExactlyOne(u, c.req.key)
  {
    EnqueuedAddsItsRow(prefs, senders, t, c);
    RowOfCall(prefs, senders, t, c);
    if Inserts(prefs, senders, c) && c.req.key != "" {
      KeyedRowLands(prefs, senders, t, c);
    }
  }

  // ------------------------------------------------------- sequences of enqueues

  function EnqueuedAll(prefs: Preferences.Table, senders: set<Channel>, t: Table, calls: seq<Call>): Table
    decreases |calls|
  {
    if calls == [] then t else EnqueuedAll(prefs, senders, Enqueued(prefs, senders, t, calls[0]), calls[1..])
  }

  lemma {:induction false} EnqueuedInTurn(
    prefs: Preferences.Table, senders: set<Channel>, t: Table, a: seq<Call>, b: seq<Call>)
    ensures EnqueuedAll(prefs, senders, t, a + b)
            == EnqueuedAll(prefs, senders, EnqueuedAll(prefs, senders, t, a), b)
    decreases |a|
  {
    if a == [] {
      assert a + b == b;
    } else {
      assert (a + b)[0] == a[0] && (a + b)[1..] == a[1..] + b;
      EnqueuedInTurn(prefs, senders, Enqueued(prefs, senders, t, a[0]), a[1..], b);
    }
  }

  /** Old rows stay as they are. */
  predicate Extends(t: Table, u: Table) {
    forall id :: id in t ==> id in u && u[id] == t[id]
  }

  /** One call keeps keys unique and every row as it is, and adds at most its
      own row, under its own key. */
  lemma EnqueuedAddsItsRow(prefs: Preferences.Table, senders: set<Channel>, t: Table, c: Call)
    requires KeysUnique(t)
    ensures var u := Enqueued(prefs, senders, t, c);
            && KeysUnique(u) && Extends(t, u)
            && (forall id :: id in u && id !in t ==> Inserts(prefs, senders, c) && IsRowOf(u, id, c))
  {
    if Inserts(prefs, senders, c) {
      var n := NewNotification(EnvelopeFor(c.req, c.at.id), c.at.now).value;
      if Inserted(t, n).Ok? {
        InsertedKeepsKeys(t, n);
        RowOfCall(prefs, senders, t, c);
        assert EnvelopeOf(Inserted(t, n).value[c.at.id]) == n.envelope;
      }
    }
  }

  /** The row with this id was written for this call. */
  predicate IsRowOf(u: Table, id: Id, c: Call) {
    && id in u && id == c.at.id
    && EnvelopeOf(u[id]) == EnvelopeFor(c.req, id).(createdAt := c.at.now)
    && u[id].idempotencyKey == NullString(c.req.key)
    && IsRequested(c.req, c.at.now, u[id])
  }

  /** Nothing is in the way of a keyed call: it gets as far as the insert. */
  predicate Unhindered(prefs: Preferences.Table, senders: set<Channel>, c: Call) {
    Inserts(prefs, senders, c) && c.req.key != ""
  }

  predicate FreshIds(t: Table, calls: seq<Call>) {
    && (forall i :: 0 <= i < |calls| ==> calls[i].at.id !in t)
    && (forall i, j :: 0 <= i < j < |calls| ==> calls[i].at.id != calls[j].at.id)
  }

  lemma UnhinderedLands(prefs: Preferences.Table, senders: set<Channel>, t: Table, c: Call)
    requires KeysUnique(t) && Unhindered(prefs, senders, c) && c.at.id !in t
    ensures ExactlyOne(Enqueued(prefs, senders, t, c), c.req.key)
  {
    KeyedRowLands(prefs, senders, t, c);
  }

  lemma KeyedRowLands(prefs: Preferences.Table, senders: set<Channel>, t: Table, c: Call)
    requires KeysUnique(t) && Unhindered(prefs, senders, c)
    ensures Inserted(t, NewNotification(EnvelopeFor(c.req, c.at.id), c.at.now).value) != Err(Conflict) ==>
              ExactlyOne(Enqueued(prefs, senders, t, c), c.req.key)
    ensures c.at.id !in t ==>
              Inserted(t, NewNotification(EnvelopeFor(c.req, c.at.id), c.at.now).value) != Err(Conflict)
  {
    EnqueuedAddsItsRow(prefs, senders, t, c);
    var u := Enqueued(prefs, senders, t, c);
    if KeyTaken(t, Some(c.req.key)) {
      var id :| id in t && t[id].idempotencyKey == Some(c.req.key);
      assert id in u && u[id].idempotencyKey == Some(c.req.key);
    } else if c.at.id !in t {
      assert c.at.id in u && u[c.at.id].idempotencyKey == Some(c.req.key);
    }
  }

  /** After any sequence of enqueues, repeats included: keys are unique, old rows
      are as they were, every added row was written for one of the calls, and
      the key of every call that nothing hindered has exactly one row. */
  lemma {:induction false} EnqueuesAreIdempotent(
    prefs: Preferences.Table, senders: set<Channel>, t: Table, calls: seq<Call>)
    requires KeysUnique(t) && FreshIds(t, calls)
    ensures var u := EnqueuedAll(prefs, senders, t, calls);
            && KeysUnique(u) && Extends(t, u)
            && (forall id :: id in u && id !in t ==>
                  exists k :: 0 <= k < |calls| && Inserts(prefs, senders, calls[k]) && IsRowOf(u, id, calls[k]))
            && (forall k :: 0 <= k < |calls| && Unhindered(prefs, senders, calls[k]) ==>
                  ExactlyOne(u, calls[k].req.key))
    decreases |calls|
  {
    if calls != [] {
      var c, rest := calls[0], calls[1..];
      var mid := Enqueued(prefs, senders, t, c);
      EnqueuedAddsItsRow(prefs, senders, t, c);
      assert forall k :: 0 <= k < |rest| ==> rest[k] == calls[k + 1];
      EnqueuesAreIdempotent(prefs, senders, mid, rest);
      var u := EnqueuedAll(prefs, senders, mid, rest);
      forall id | id in u && id !in t
        ensures exists k :: 0 <= k < |calls| && Inserts(prefs, senders, calls[k]) && IsRowOf(u, id, calls[k])
      {
        if id in mid {
          assert IsRowOf(u, id, calls[0]);
        } else {
          var k :| 0 <= k < |rest| && Inserts(prefs, senders, rest[k]) && IsRowOf(u, id, rest[k]);
          assert IsRowOf(u, id, calls[k + 1]);
        }
      }
      forall k | 0 <= k < |calls| && Unhindered(prefs, senders, calls[k])
        ensures ExactlyOne(u, calls[k].req.key)
      {
        if k == 0 {
          UnhinderedLands(prefs, senders, t, c);
          StaysExactlyOne(mid, u, c.req.key);
        } else {
          assert calls[k] == rest[k - 1];
        }
      }
    }
  }

  /** A unique key stays exactly one row: rows are not deleted and keys not reused. */
  lemma StaysExactlyOne(t: Table, u: Table, key: string)
    requires (Carries(t, u) || Extends(t, u)) && KeysUnique(u) && ExactlyOne(t, key)
    ensures ExactlyOne(u, key)
  {
    var id :| id in t && t[id].idempotencyKey == Some(key);
    assert id in u && u[id].idempotencyKey == Some(key);
  }

  // ---------------------------------------------------------------- the adapter

  const SECURITY_CHANNELS: seq<Channel> := [EMAIL, INAPP]

  /** <event>:<userID>:<time>:<channel>. */
  function NoticeKey(event: string, user: string, stamp: string, ch: Channel): (k: string)
    ensures k != ""
  {
    event + ":" + user + ":" + stamp + ":" + ch
  }

  /** The last colon separates the channel, whatever the timestamp contains. */
  lemma LastColonSplits(a: string, x: string, b: string, y: string)
    requires ':' !in x && ':' !in y && a + ":" + x == b + ":" + y
    ensures a == b && x == y
  {
    var s := a + ":" + x;
    assert s[|a|] == ':' && s[|b|] == ':';
    assert a == s[..|a|] && b == s[..|b|];
    assert x == s[|a| + 1..] && y == s[|b| + 1..];
  }

  lemma FirstColonSplits(x: string, a: string, y: string, b: string)
    requires ':' !in x && ':' !in y && x + ":" + a == y + ":" + b
    ensures x == y && a == b
  {
    var s := x + ":" + a;
    assert s[|x|] == ':' && s[|y|] == ':';
    assert x == s[..|x|] && y == s[..|y|];
    assert a == s[|x| + 1..] && b == s[|y| + 1..];
  }

  /** No part of the key but the timestamp has a colon in it. */
  predicate PlainParts(event: string, user: string, ch: Channel) {
    ':' !in event && ':' !in user && ':' !in ch
  }

  /** Keys never collide: not across events, users, episodes or channels, even
      though the timestamp in the middle is full of colons. */
  lemma NoticeKeysAreInjective(
    e: string, u: string, s: string, c: Channel, e': string, u': string, s': string, c': Channel)
    requires PlainParts(e, u, c) && PlainParts(e', u', c')
    requires NoticeKey(e, u, s, c) == NoticeKey(e', u', s', c')
    ensures e == e' && u == u' && s == s' && c == c'
  {
    LastColonSplits(e + ":" + u + ":" + s, c, e' + ":" + u' + ":" + s', c');
    assert e + ":" + u + ":" + s == e + ":" + (u + ":" + s);
    assert e' + ":" + u' + ":" + s' == e' + ":" + (u' + ":" + s');
    FirstColonSplits(e, u + ":" + s, e', u' + ":" + s');
    FirstColonSplits(u, s, u', s');
  }

  /** One reported event: an account locking until `at`, a factor enabled at `at`. */
  datatype Report = Report(user: string, event: string, templateKey: string, at: Time, payload: Payload)

  /** uuid.Parse, and the RFC 3339 rendering of an instant with nanoseconds. */
  datatype Text = Text(parse: string -> Option<Id>, format: Time -> string)
  {
    function KeyFor(rep: Report, ch: Channel): string {
      NoticeKey(rep.event, rep.user, format(rep.at), ch)
    }

    function RequestFor(rep: Report, ch: Channel, recipient: Id): Request {
      Request(recipient, ch, SECURITY, rep.templateKey, rep.payload, KeyFor(rep, ch))
    }

    /** One call per channel, or none for a user id that is not a uuid. */
    function CallsFor(rep: Report, tries: Channel -> Try): (calls: seq<Call>)
      ensures parse(rep.user).None? ==> calls == []
      ensures parse(rep.user).Some? ==>
                && |calls| == 2
                && calls[0] == Call(Request(parse(rep.user).value, "email", "security", rep.templateKey, rep.payload,
                                            rep.event + ":" + rep.user + ":" + format(rep.at) + ":" + "email"),
                                    tries("email"))
                && calls[1] == Call(Request(parse(rep.user).value, "inapp", "security", rep.templateKey, rep.payload,
                                            rep.event + ":" + rep.user + ":" + format(rep.at) + ":" + "inapp"),
                                    tries("inapp"))
      ensures parse(rep.user).Some? ==>
                && |calls| == |SECURITY_CHANNELS|
                && forall i :: 0 <= i < |calls| ==>
                     calls[i] == Call(RequestFor(rep, SECURITY_CHANNELS[i], parse(rep.user).value),
                                      tries(SECURITY_CHANNELS[i]))
    {
      if parse(rep.user).None? then []
      else
        seq(|SECURITY_CHANNELS|, i requires 0 <= i < |SECURITY_CHANNELS| =>
          Call(RequestFor(rep, SECURITY_CHANNELS[i], parse(rep.user).value), tries(SECURITY_CHANNELS[i])))
    }

    function CallsForAll(told: seq<Telling>): seq<Call> {
      if told == [] then []
      else CallsForAll(told[..|told| - 1]) + CallsFor(told[|told| - 1].rep, told[|told| - 1].tries)
    }
  }

  /** One time the adapter is told of an event, and what its calls meet. */
  datatype Telling = Telling(rep: Report, tries: Channel -> Try)

  class SecurityNotifier {
    const service: Service
    const text: Text

    constructor (service: Service, text: Text)
      ensures this.service == service && this.text == text
    {
      this.service, this.text := service, text;
    }

    /** One enqueue per channel, each under its own key and whatever became of
        the others; failures are dropped. */
    method Notify(rep: Report, tries: Channel -> Try)
      requires KeysUnique(service.repo.rows)
      modifies service.repo
      ensures KeysUnique(service.repo.rows)
      ensures service.repo.rows ==
              EnqueuedAll(service.preferences.rows, service.senders, old(service.repo.rows), text.CallsFor(rep, tries))
    {
      var recipient := text.parse(rep.user);
      if recipient.None? {
        return;
      }
      ghost var calls := text.CallsFor(rep, tries);
      for i := 0 to |SECURITY_CHANNELS|
        invariant KeysUnique(service.repo.rows)
        invariant service.repo.rows ==
                  EnqueuedAll(service.preferences.rows, service.senders, old(service.repo.rows), calls[..i])
      {
        var ch := SECURITY_CHANNELS[i];
        ghost var before := service.repo.rows;
        var _ := service.Enqueue(text.RequestFor(rep, ch, recipient.value), tries(ch));
        assert calls[..i + 1] == calls[..i] + [calls[i]];
        EnqueuedInTurn(service.preferences.rows, service.senders, old(service.repo.rows), calls[..i], [calls[i]]);
        assert EnqueuedAll(service.preferences.rows, service.senders, before, [calls[i]]) == service.repo.rows;
      }
      assert calls[..|SECURITY_CHANNELS|] == calls;
    }

    /** Events told one after another, repeats included. */
    method NotifyAll(told: seq<Telling>)
      requires KeysUnique(service.repo.rows)
      modifies service.repo
      ensures KeysUnique(service.repo.rows)
      ensures service.repo.rows ==
              EnqueuedAll(service.preferences.rows, service.senders, old(service.repo.rows), text.CallsForAll(told))
    {
      for i := 0 to |told|
        invariant KeysUnique(service.repo.rows)
        invariant service.repo.rows ==
                  EnqueuedAll(service.preferences.rows, service.senders, old(service.repo.rows),
                              text.CallsForAll(told[..i]))
      {
        Notify(told[i].rep, told[i].tries);
        assert told[..i + 1][..i] == told[..i];
        EnqueuedInTurn(service.preferences.rows, service.senders, old(service.repo.rows),
                       text.CallsForAll(told[..i]), text.CallsFor(told[i].rep, told[i].tries));
      }
      assert told[..|told|] == told;
    }
  }

  /** Two reports share a row only if they are the same event of the same user
      at the same instant on the same channel. */
  lemma RowsTellEpisodesApart(text: Text, a: Report, b: Report, c: Channel, d: Channel)
    requires forall s, t :: text.format(s) == text.format(t) ==> s == t
    requires ':' !in a.event && ':' !in b.event && ':' !in a.user && ':' !in b.user
    requires c in SECURITY_CHANNELS && d in SECURITY_CHANNELS
    requires text.KeyFor(a, c) == text.KeyFor(b, d)
    ensures a.event == b.event && a.user == b.user && a.at == b.at && c == d
  {
    NoticeKeysAreInjective(a.event, a.user, text.format(a.at), c, b.event, b.user, text.format(b.at), d);
  }
}
