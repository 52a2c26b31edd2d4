/** The outbox entity: its delivery state machine and its retry bookkeeping. */
module NotificationDomain {
  import opened Wrappers
  import opened Utf8
  import opened Backoff

  /** A uuid; 0 is uuid.Nil. */
  type Id = nat
  /** An instant, in nanoseconds. */
  type Time = int

  const NIL_ID: Id := 0

  type Channel = string
  type Category = string
  type Payload = map<string, string>

  const EMAIL: Channel := "email"
  const INAPP: Channel := "inapp"
  const WEBHOOK: Channel := "webhook"
  const SECURITY: Category := "security"
  const ACCOUNT: Category := "account"
  const SYSTEM: Category := "system"

  const CHANNELS: seq<Channel> := [EMAIL, INAPP, WEBHOOK]
  const CATEGORIES: seq<Category> := [SECURITY, ACCOUNT, SYSTEM]

  predicate ValidChannel(c: Channel) {
    c == EMAIL || c == INAPP || c == WEBHOOK
  }

  predicate ValidCategory(c: Category) {
    c == SECURITY || c == ACCOUNT || c == SYSTEM
  }

  datatype Error =
    | NotFound
    | InvalidTransition
    | InvalidNotification
    | DuplicateIdempotencyKey
    | Conflict
    | Unavailable

  datatype Status = Pending | Sending | Sent | Failed | Dead

  predicate AllowedTransition(from: Status, to: Status) {
    match from
    case Pending => to.Sending?
    case Sending => to.Sent? || to.Failed? || to.Dead? || to.Pending?
    case Failed => to.Pending? || to.Dead?
    case Sent => false
    case Dead => false
  }

  predicate Terminal(s: Status) {
    s.Sent? || s.Dead?
  }

  /** What a notification is: fixed at enqueue, and never written by a settle. */
  datatype Envelope = Envelope(
    id: Id,
    recipient: Id,
    channel: Channel,
    category: Category,
    templateKey: string,
    payload: Payload,
    idempotencyKey: string,
    createdAt: Time)

  /** Where its delivery stands: the five fields a settle owns. "" is "no error". */
  datatype Delivery = Delivery(
    status: Status,
    attempts: int,
    nextAttemptAt: Time,
    lastError: Bytes,
    sentAt: Option<Time>)

  datatype Entity = Entity(envelope: Envelope, delivery: Delivery, readAt: Option<Time>)

  /** The bytes of an ASCII text. */
  function Ascii(text: string): (b: Bytes)
    ensures |b| == |text| && forall i :: 0 <= i < |b| ==> b[i] == text[i] as int % 256
  {
    seq(|text|, i requires 0 <= i < |text| => text[i] as int % 256)
  }

  const STALLED_REASON: Bytes := Ascii("delivery stalled: claimed but never settled")

  /** NewNotification: refuses what no dispatcher could ever deliver. */
  function NewNotification(e: Envelope, now: Time): (r: Result<Entity, Error>)
    ensures r.Ok? <==>
      && e.id != NIL_ID && e.recipient != NIL_ID
      && e.channel in CHANNELS && e.category in CATEGORIES && e.templateKey != ""
    ensures r.Ok? ==>
              && r.value.envelope == e.(createdAt := now) && r.value.readAt.None?
              && r.value.delivery == Delivery(Pending, 0, now, [], None)
    ensures r.Err? ==> r.error == InvalidNotification
  {
    if e.id == NIL_ID then Err(InvalidNotification)
    else if e.recipient == NIL_ID then Err(InvalidNotification)
    else if !ValidChannel(e.channel) then Err(InvalidNotification)
    else if !ValidCategory(e.category) then Err(InvalidNotification)
    else if e.templateKey == "" then Err(InvalidNotification)
    else Ok(Entity(e.(createdAt := now), Delivery(Pending, 0, now, [], None), None))
  }

  /** What the four state changes do to a delivery; an error leaves it as it was. */
  function MarkedSent(d: Delivery, now: Time): Result<Delivery, Error> {
    if !AllowedTransition(d.status, Status.Sent) then Err(InvalidTransition)
    else Ok(d.(status := Status.Sent, sentAt := Some(now), lastError := []))
  }

  function MarkedDead(d: Delivery, reason: Bytes): Result<Delivery, Error> {
    if !AllowedTransition(d.status, Dead) then Err(InvalidTransition)
    else Ok(d.(status := Dead, lastError := Clipped(reason)))
  }

  /** One more failed attempt: dead when the budget is spent, else due again later. */
  function Charged(d: Delivery, now: Time, retryAfter: Duration, maxAttempts: int, reason: Bytes): Delivery {
    var failed := d.(attempts := d.attempts + 1, lastError := reason);
    if failed.attempts >= maxAttempts then failed.(status := Dead)
    else failed.(status := Pending, nextAttemptAt := now + retryAfter)
  }

  function FailureRecorded(d: Delivery, now: Time, retryAfter: Duration, maxAttempts: int, reason: Bytes):
    Result<Delivery, Error>
  {
    if !AllowedTransition(d.status, Failed) then Err(InvalidTransition)
    else Ok(Charged(d, now, retryAfter, maxAttempts, Clipped(reason)))
  }

  function StallRecovered(d: Delivery, now: Time, retryAfter: Duration, maxAttempts: int): Result<Delivery, Error> {
    if !d.status.Sending? then Err(InvalidTransition)
    else Ok(Charged(d, now, retryAfter, maxAttempts, STALLED_REASON))
  }

  /** What is kept of a reason: all of it up to 512 bytes, else a valid prefix
      that no longer valid prefix within 512 bytes extends. */
  predicate KeptReason(reason: Bytes, kept: Bytes) {
    && (|reason| <= 512 ==> kept == reason)
    && (|reason| > 512 ==>
          && kept <= reason && |kept| <= 512 && Valid(kept)
          && forall k :: |kept| < k <= 512 ==> !Valid(reason[..k]))
  }

  lemma ClippedIsKept(reason: Bytes)
    ensures KeptReason(reason, Clipped(reason))
  {
  }

  class Notification {
    const envelope: Envelope
    var readAt: Option<Time>
    var status: Status
    var attempts: int
    var nextAttemptAt: Time
    var lastError: Bytes
    var sentAt: Option<Time>

    constructor (e: Entity)
      ensures Value() == e
    {
      envelope := e.envelope;
      readAt := e.readAt;
      status := e.delivery.status;
      attempts := e.delivery.attempts;
      nextAttemptAt := e.delivery.nextAttemptAt;
      lastError := e.delivery.lastError;
      sentAt := e.delivery.sentAt;
    }

    function Progress(): Delivery
      reads this
    {
      Delivery(status, attempts, nextAttemptAt, lastError, sentAt)
    }

    function Value(): Entity
      reads this
    {
      Entity(envelope, Progress(), readAt)
    }

    /** The primitive behind every state change. */
    method TransitionTo(next: Status) returns (r: Result<(), Error>)
      modifies this`status
      ensures r == if AllowedTransition(old(status), next) then Ok(()) else Err(InvalidTransition)
      ensures r.Ok? <==>
                || (old(status).Pending? && next.Sending?)
                || (old(status).Sending? && !next.Sending?)
                || (old(status).Failed? && (next.Pending? || next.Dead?))
      ensures status == if r.Ok? then next else old(status)
    {
      if !AllowedTransition(status, next) {
        return Err(InvalidTransition);
      }
      status := next;
      return Ok(());
    }

    method MarkSent(now: Time) returns (r: Result<(), Error>)
      modifies this`status, this`sentAt, this`lastError
      ensures r.Ok? <==> MarkedSent(old(Progress()), now).Ok?
      ensures Progress() == if r.Ok? then MarkedSent(old(Progress()), now).value else old(Progress())
      ensures r.Ok? <==> old(status).Sending?
      ensures r.Ok? ==> status == Status.Sent && sentAt == Some(now) && lastError == []
    {
      r := TransitionTo(Status.Sent);
      if r.Err? {
        return;
      }
      sentAt := Some(now);
      lastError := [];
    }

    method MarkDead(reason: Bytes) returns (r: Result<(), Error>)
      modifies this`status, this`lastError
      ensures r.Ok? <==> MarkedDead(old(Progress()), reason).Ok?
      ensures Progress() == if r.Ok? then MarkedDead(old(Progress()), reason).value else old(Progress())
      ensures r.Ok? <==> old(status).Sending? || old(status).Failed?
      ensures r.Ok? ==> status == Dead && KeptReason(reason, lastError)
    {
      r := TransitionTo(Dead);
      if r.Err? {
        return;
      }
      lastError := TruncateReason(reason);
    }

    method RecordFailure(now: Time, retryAfter: Duration, maxAttempts: int, reason: Bytes)
      returns (r: Result<(), Error>)
      modifies this`status, this`attempts, this`lastError, this`nextAttemptAt
      ensures r.Ok? <==> FailureRecorded(old(Progress()), now, retryAfter, maxAttempts, reason).Ok?
      ensures Progress() ==
              if r.Ok? then FailureRecorded(old(Progress()), now, retryAfter, maxAttempts, reason).value
              else old(Progress())
      ensures r.Ok? <==> old(status).Sending?
      ensures r.Ok? ==> attempts == old(attempts) + 1 && KeptReason(reason, lastError)
      ensures r.Ok? && attempts >= maxAttempts ==> status == Dead && nextAttemptAt == old(nextAttemptAt)
      ensures r.Ok? && attempts < maxAttempts ==> status == Pending && nextAttemptAt == now + retryAfter
    {
      r := TransitionTo(Failed);
      if r.Err? {
        return;
      }
      attempts := attempts + 1;
      lastError := TruncateReason(reason);
      if attempts >= maxAttempts {
        var _ := TransitionTo(Dead);
        return;
      }
      var _ := TransitionTo(Pending);
      nextAttemptAt := now + retryAfter;
    }

    method RecoverStalled(now: Time, retryAfter: Duration, maxAttempts: int) returns (r: Result<(), Error>)
      modifies this`status, this`attempts, this`lastError, this`nextAttemptAt
      ensures r.Ok? <==> StallRecovered(old(Progress()), now, retryAfter, maxAttempts).Ok?
      ensures Progress() ==
              if r.Ok? then StallRecovered(old(Progress()), now, retryAfter, maxAttempts).value
              else old(Progress())
      ensures r.Ok? <==> old(status).Sending?
      ensures r.Ok? ==> attempts == old(attempts) + 1
      ensures r.Ok? ==> lastError == Ascii("delivery stalled: claimed but never settled")
      ensures r.Ok? && attempts >= maxAttempts ==> status == Dead && nextAttemptAt == old(nextAttemptAt)
      ensures r.Ok? && attempts < maxAttempts ==> status == Pending && nextAttemptAt == now + retryAfter
    {
      if status != Sending {
        return Err(InvalidTransition);
      }
      attempts := attempts + 1;
      lastError := STALLED_REASON;
      if attempts >= maxAttempts {
        var _ := TransitionTo(Dead);
        return Ok(());
      }
      var _ := TransitionTo(Pending);
      nextAttemptAt := now + retryAfter;
      return Ok(());
    }
  }

  /** What every stored delivery satisfies. */
  predicate Consistent(d: Delivery, maxAttempts: int) {
    && 0 <= d.attempts <= maxAttempts
    && (d.status.Pending? || d.status.Sending? ==> d.attempts < maxAttempts)
    && (d.status.Sent? <==> d.sentAt.Some?)
    && !d.status.Failed?
    && |d.lastError| <= MAX_LAST_ERROR_LEN
  }

  /** The four ways a delivery is settled. */
  datatype Outcome =
    | Delivered
    | NonRetryable(reason: Bytes)
    | Retryable(reason: Bytes)
    | Stalled

  function Settled(d: Delivery, o: Outcome, now: Time, retryAfter: Duration, maxAttempts: int):
    Result<Delivery, Error>
  {
    match o
    case Delivered => MarkedSent(d, now)
    case NonRetryable(reason) => MarkedDead(d, reason)
    case Retryable(reason) => FailureRecorded(d, now, retryAfter, maxAttempts, reason)
    case Stalled => StallRecovered(d, now, retryAfter, maxAttempts)
  }

  /** Settling a claimed delivery always succeeds, keeps it consistent, leaves
      it out of sending, and either ends it or spends exactly one attempt. */
  lemma SettleSpends(d: Delivery, o: Outcome, now: Time, retryAfter: Duration, maxAttempts: int)
    requires Consistent(d, maxAttempts) && d.status.Sending?
    ensures var r := Settled(d, o, now, retryAfter, maxAttempts);
            && r.Ok?
            && Consistent(r.value, maxAttempts)
            && (Terminal(r.value.status) || r.value.status.Pending?)
            && (r.value.status.Pending? ==> r.value.attempts == d.attempts + 1)
            && (r.value.status.Sent? <==> o.Delivered?)
            && (o.Delivered? ==> r.value.sentAt == Some(now) && r.value.lastError == [])
            && (o.Delivered? || o.NonRetryable? ==> r.value.attempts == d.attempts)
            && (o.NonRetryable? ==> r.value.status.Dead?)
            && (o.Retryable? || o.Stalled? ==>
                  && r.value.attempts == d.attempts + 1
                  && (r.value.status.Dead? <==> d.attempts + 1 == maxAttempts))
            && r.value.nextAttemptAt == (if r.value.status.Pending? then now + retryAfter else d.nextAttemptAt)
            && (!o.Delivered? ==> r.value.sentAt == d.sentAt)
  {
  }

  /** Only a claimed delivery can be settled. In particular a retryable failure
      or a stall never moves a delivery that is already sent or dead. */
  lemma SettleNeedsClaim(d: Delivery, o: Outcome, now: Time, retryAfter: Duration, maxAttempts: int)
    requires Consistent(d, maxAttempts)
    ensures Settled(d, o, now, retryAfter, maxAttempts).Ok? <==> d.status.Sending?
  {
  }

  /** k retryable failures in a row, whoever reports them: each is claimed at
      some instant and settled with the delay of its own rung. */
  function Ladder(
    d: Delivery, outcomes: seq<Outcome>, times: seq<Time>, draws: seq<Option<real>>,
    base: Duration, cap: Duration, maxAttempts: int): Delivery
    requires |outcomes| == |times| == |draws|
    decreases |outcomes|
  {
    if outcomes == [] || !d.status.Pending? then d
    else
      var claimed := d.(status := Sending);
      var retryAfter := Jittered(claimed.attempts, base, cap, draws[0]);
      var r := Settled(claimed, outcomes[0], times[0], retryAfter, maxAttempts);
      if r.Err? then claimed
      else Ladder(r.value, outcomes[1..], times[1..], draws[1..], base, cap, maxAttempts)
  }

  /** The whole retry ladder of a fresh row. After k < maxAttempts failures the
      row is due again k-th-rung later, the k-th rung being
      min(base * 2^(k-1), cap) spread over its top half; after maxAttempts it is
      dead, and stays dead however many outcomes follow. */
  lemma {:induction false} LadderRungs(
    d: Delivery, outcomes: seq<Outcome>, times: seq<Time>, draws: seq<Option<real>>,
    base: Duration, cap: Duration, maxAttempts: int)
    requires |outcomes| == |times| == |draws|
    requires forall o :: o in outcomes ==> o.Retryable? || o.Stalled?
    requires Consistent(d, maxAttempts) && d.status.Pending?
    ensures var end := Ladder(d, outcomes, times, draws, base, cap, maxAttempts);
            var k := d.attempts + |outcomes|;
            && Consistent(end, maxAttempts)
            && end.attempts == Min(k, maxAttempts)
            && (end.status.Dead? <==> k >= maxAttempts)
            && (end.status.Pending? <==> k < maxAttempts)
            && (0 < |outcomes| && k < maxAttempts ==>
                  OnRung(end.nextAttemptAt - times[|outcomes| - 1], k - 1, base, cap, draws[|outcomes| - 1]))
    decreases |outcomes|
  {
    if outcomes != [] {
      var next := ChargedOnce(d, outcomes[0], times[0], draws[0], base, cap, maxAttempts);
      if next.status.Pending? {
        LadderRungs(next, outcomes[1..], times[1..], draws[1..], base, cap, maxAttempts);
      }
    }
  }

  /** One failure of a row that is claimed. */
  lemma ChargedOnce(
    d: Delivery, o: Outcome, at: Time, draw: Option<real>, base: Duration, cap: Duration, maxAttempts: int)
    returns (next: Delivery)
    requires o.Retryable? || o.Stalled?
    requires Consistent(d, maxAttempts) && d.status.Pending?
    ensures Settled(d.(status := Sending), o, at, Jittered(d.attempts, base, cap, draw), maxAttempts) == Ok(next)
    ensures Consistent(next, maxAttempts) && next.attempts == d.attempts + 1
    ensures next.status == if d.attempts + 1 == maxAttempts then Dead else Pending
    ensures next.status.Pending? ==> OnRung(next.nextAttemptAt - at, d.attempts, base, cap, draw)
  {
    var retryAfter := Jittered(d.attempts, base, cap, draw);
    SettleSpends(d.(status := Sending), o, at, retryAfter, maxAttempts);
    JitteredIsOnRung(d.attempts, base, cap, draw);
    next := Settled(d.(status := Sending), o, at, retryAfter, maxAttempts).value;
  }
}
