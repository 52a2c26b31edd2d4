/** The outbox as a protocol: any number of workers and sweepers, each holding
    private copies of the rows it claimed, over one table and one clock. A step
    label carries every choice a step makes, so a run is a sequence of labels. */
module OutboxProtocol {
  import opened Wrappers
  import opened Utf8
  import opened Backoff
  import opened NotificationDomain
  import opened Outbox

  datatype Config = Config(batchSize: int, maxAttempts: int, base: Duration, cap: Duration, stalledAfter: int)

  /** What the dispatcher's constructor insists on. */
  predicate Configured(c: Config) {
    c.batchSize > 0 && c.maxAttempts > 0 && c.base > 0 && c.cap > 0 && c.stalledAfter > 0
  }

  datatype Role = Worker | Sweeper

  /** One batch in flight: who took it, the clock reading it is stamped with,
      the copies not yet settled, and when it last made progress. */
  datatype Holder = Holder(role: Role, stamp: Time, queue: seq<Entity>, progress: Time)

  datatype State = State(rows: Table, holders: map<nat, Holder>, now: Time)

  datatype Step =
    | Tick(to: Time)
    | Enqueue(e: Envelope, at: Time)
    | Read(recipient: Id, id: Id, at: Time)
    | Claim(h: nat, stamp: Time, locked: set<Id>, ids: seq<Id>)
    | Sweep(h: nat, stamp: Time, locked: set<Id>, ids: seq<Id>)
      // the first copy is settled and its Save lands
    | Settle(h: nat, outcome: Outcome, at: Time, draw: Option<real>)
      // the first copy is given up: a panic below settle, or a Save that never lands
    | Drop(h: nat)
      // the holder dies, with whatever it holds
    | Crash(h: nat)

  function Start(now: Time): State {
    State(map[], map[], now)
  }

  predicate Holding(s: State, h: nat) {
    h in s.holders && s.holders[h].queue != []
  }

  predicate Enabled(c: Config, s: State, step: Step) {
    match step
    case Tick(to) => s.now <= to
    case Enqueue(e, at) => at <= s.now && NewNotification(e, at).Ok?
    case Read(_, _, at) => at <= s.now
    case Claim(h, stamp, locked, ids) =>
      h !in s.holders && stamp <= s.now && PicksDue(s.rows, c.batchSize, stamp, locked, ids)
    case Sweep(h, stamp, locked, ids) =>
      h !in s.holders && stamp <= s.now && PicksStuck(s.rows, c.batchSize, stamp - c.stalledAfter, locked, ids)
    case Settle(h, outcome, at, _) =>
      Holding(s, h) && at <= s.now &&
      if s.holders[h].role.Worker? then !outcome.Stalled? else outcome.Stalled? && at == s.holders[h].stamp
    case Drop(h) => Holding(s, h)
    case Crash(h) => h in s.holders
  }

  /** What a holder's first copy becomes; the delay is read off the attempts
      already counted, before this one. */
  function SettledCopy(c: Config, n: Entity, outcome: Outcome, at: Time, draw: Option<real>): Result<Entity, Error> {
    var retryAfter := Jittered(n.delivery.attempts, c.base, c.cap, draw);
    var r := Settled(n.delivery, outcome, at, retryAfter, c.maxAttempts);
    if r.Err? then Err(r.error) else Ok(n.(delivery := r.value))
  }

  /** What a settle makes of a claimed copy, field by field. A failure or a stall
      spends one attempt, and a copy that has one left is due again on the rung
      of the failures before this one. */
  predicate IsSettled(c: Config, n: Entity, outcome: Outcome, at: Time, draw: Option<real>, z: Entity) {
    && z.envelope == n.envelope && z.readAt == n.readAt
    && (outcome.Delivered? ==>
          && z.delivery.status == Status.Sent && z.delivery.sentAt == Some(at) && z.delivery.lastError == []
          && z.delivery.attempts == n.delivery.attempts && z.delivery.nextAttemptAt == n.delivery.nextAttemptAt)
    && (!outcome.Delivered? ==> z.delivery.sentAt == n.delivery.sentAt)
    && (outcome.NonRetryable? ==>
          && z.delivery.status == Dead && KeptReason(outcome.reason, z.delivery.lastError)
          && z.delivery.attempts == n.delivery.attempts && z.delivery.nextAttemptAt == n.delivery.nextAttemptAt)
    && (outcome.Retryable? ==> KeptReason(outcome.reason, z.delivery.lastError))
    && (outcome.Stalled? ==> z.delivery.lastError == Ascii("delivery stalled: claimed but never settled"))
    && (outcome.Retryable? || outcome.Stalled? ==>
          && z.delivery.attempts == n.delivery.attempts + 1
          && (n.delivery.attempts + 1 >= c.maxAttempts ==>
                z.delivery.status == Dead && z.delivery.nextAttemptAt == n.delivery.nextAttemptAt)
          && (n.delivery.attempts + 1 < c.maxAttempts ==>
                && z.delivery.status == Pending
                && OnRung(z.delivery.nextAttemptAt - at, n.delivery.attempts, c.base, c.cap, draw)))
  }

  lemma SettledCopyIsSettled(c: Config, n: Entity, outcome: Outcome, at: Time, draw: Option<real>)
    requires n.delivery.status.Sending?
    ensures var r := SettledCopy(c, n, outcome, at, draw); r.Ok? && IsSettled(c, n, outcome, at, draw, r.value)
  {
    JitteredIsOnRung(n.delivery.attempts, c.base, c.cap, draw);
    if outcome.NonRetryable? || outcome.Retryable? {
      ClippedIsKept(outcome.reason);
    }
  }

  function Popped(s: State, h: nat): State
    requires Holding(s, h)
  {
    var hd := s.holders[h];
    s.(holders := s.holders[h := hd.(queue := hd.queue[1..], progress := s.now)])
  }

  function Apply(c: Config, s: State, step: Step): State
    requires Enabled(c, s, step)
  {
    match step
    case Tick(to) => s.(now := to)
    case Enqueue(e, at) =>
      var r := Inserted(s.rows, NewNotification(e, at).value);
      if r.Ok? then s.(rows := r.value) else s
    case Read(recipient, id, at) =>
      var r := MarkedRead(s.rows, recipient, id, at);
      if r.Ok? then s.(rows := r.value) else s
    case Claim(h, stamp, _, ids) =>
      var rows := Claimed(s.rows, ids, stamp);
      State(rows, s.holders[h := Holder(Worker, stamp, Returned(rows, ids), s.now)], s.now)
    case Sweep(h, stamp, _, ids) =>
      var rows := Restamped(s.rows, ids, stamp);
      State(rows, s.holders[h := Holder(Sweeper, stamp, Returned(rows, ids), s.now)], s.now)
    case Settle(h, outcome, at, draw) =>
      var copy := SettledCopy(c, s.holders[h].queue[0], outcome, at, draw);
      if copy.Err? then Popped(s, h)
      else
        var r := Saved(s.rows, copy.value);
        Popped(if r.Ok? then s.(rows := r.value) else s, h)
    case Drop(h) => Popped(s, h)
    case Crash(h) => s.(holders := s.holders - {h})
  }

  predicate IsRun(c: Config, s: State, steps: seq<Step>)
    decreases |steps|
  {
    steps == [] || (Enabled(c, s, steps[0]) && IsRun(c, Apply(c, s, steps[0]), steps[1..]))
  }

  function Exec(c: Config, s: State, steps: seq<Step>): State
    requires IsRun(c, s, steps)
    decreases |steps|
  {
    if steps == [] then s else Exec(c, Apply(c, s, steps[0]), steps[1..])
  }

  lemma {:induction false} RunsCompose(c: Config, s: State, a: seq<Step>, b: seq<Step>)
    requires IsRun(c, s, a)
    ensures IsRun(c, s, a + b) <==> IsRun(c, Exec(c, s, a), b)
    ensures IsRun(c, s, a + b) ==> Exec(c, s, a + b) == Exec(c, Exec(c, s, a), b)
    decreases |a|
  {
    if a == [] {
      assert a + b == b;
    } else {
      assert (a + b)[0] == a[0] && (a + b)[1..] == a[1..] + b;
      RunsCompose(c, Apply(c, s, a[0]), a[1..], b);
    }
  }

  // ------------------------------------------- invariants of every interleaving

  /** A stored row: under its own id, which is not nil, within its budget, sent exactly when stamped sent, never
      stored as failed, and stamped whenever it is claimed. */
  predicate RowOk(c: Config, id: Id, r: Row) {
    && r.id == id != NIL_ID
    && Consistent(DeliveryOf(r), c.maxAttempts)
    && (r.status.Sending? ==> r.claimedAt.Some?)
  }

  predicate RowsOk(c: Config, t: Table) {
    forall id :: id in t ==> RowOk(c, id, t[id])
  }

  predicate KeysUnique(t: Table) {
    forall i, j :: i in t && j in t && t[i].idempotencyKey.Some? && t[i].idempotencyKey == t[j].idempotencyKey
                   ==> i == j
  }

  /** A copy is a claimed delivery of a row that exists; nothing says it is current. */
  predicate CopyOk(c: Config, t: Table, n: Entity) {
    && n.delivery.status.Sending?
    && Consistent(n.delivery, c.maxAttempts)
    && n.envelope.id in t
    && EnvelopeOf(t[n.envelope.id]) == n.envelope
  }

  predicate CopiesOk(c: Config, s: State) {
    forall h, i :: h in s.holders && 0 <= i < |s.holders[h].queue| ==> CopyOk(c, s.rows, s.holders[h].queue[i])
  }

  predicate Inv(c: Config, s: State) {
    RowsOk(c, s.rows) && KeysUnique(s.rows) && CopiesOk(c, s)
  }

  /** Rows are never deleted, and no settle, stale or not, rewrites what a row is. */
  predicate Carries(t: Table, u: Table) {
    forall id :: id in t ==>
      && id in u
      && EnvelopeOf(u[id]) == EnvelopeOf(t[id])
      && u[id].idempotencyKey == t[id].idempotencyKey
  }

  lemma StepCarries(c: Config, s: State, step: Step)
    requires Enabled(c, s, step)
    ensures Carries(s.rows, Apply(c, s, step).rows)
  {
  }

  lemma SettledCopyIsFinal(c: Config, t: Table, n: Entity, outcome: Outcome, at: Time, draw: Option<real>)
    requires CopyOk(c, t, n)
    ensures var r := SettledCopy(c, n, outcome, at, draw);
            && r.Ok?
            && r.value.envelope == n.envelope
            && Consistent(r.value.delivery, c.maxAttempts)
            && !r.value.delivery.status.Sending?
  {
    var retryAfter := Jittered(n.delivery.attempts, c.base, c.cap, draw);
    SettleSpends(n.delivery, outcome, at, retryAfter, c.maxAttempts);
  }

  /** A save by whoever holds a copy, however old, leaves its row well formed. */
  lemma SaveKeepsRows(c: Config, t: Table, n: Entity)
    requires RowsOk(c, t) && n.envelope.id in t
    requires Consistent(n.delivery, c.maxAttempts) && !n.delivery.status.Sending?
    ensures RowsOk(c, Saved(t, n).value)
  {
    SaveWritesTheDelivery(t, n);
  }

  lemma EnqueueKeepsRows(c: Config, t: Table, e: Envelope, at: Time)
    requires Configured(c) && RowsOk(c, t) && NewNotification(e, at).Ok?
    requires Inserted(t, NewNotification(e, at).value).Ok?
    ensures RowsOk(c, Inserted(t, NewNotification(e, at).value).value)
  {
    var row := ToRow(NewNotification(e, at).value);
    assert RowOk(c, row.id, row);
  }

  lemma ClaimKeepsRows(c: Config, t: Table, ids: seq<Id>, now: Time)
    requires RowsOk(c, t) && forall id :: id in ids ==> id in t && t[id].status.Pending?
    ensures RowsOk(c, Claimed(t, ids, now))
  {
    var u := Claimed(t, ids, now);
    forall id | id in u
      ensures RowOk(c, id, u[id])
    {
      assert RowOk(c, id, t[id]);
    }
  }

  lemma SweepKeepsRows(c: Config, t: Table, ids: seq<Id>, now: Time)
    requires RowsOk(c, t)
    ensures RowsOk(c, Restamped(t, ids, now))
  {
    var u := Restamped(t, ids, now);
    forall id | id in u
      ensures RowOk(c, id, u[id])
    {
      assert RowOk(c, id, t[id]);
    }
  }

  lemma StepKeepsRows(c: Config, s: State, step: Step)
    requires Configured(c) && Inv(c, s) && Enabled(c, s, step)
    ensures RowsOk(c, Apply(c, s, step).rows)
  {
    match step
    case Enqueue(e, at) =>
      if Inserted(s.rows, NewNotification(e, at).value).Ok? {
        EnqueueKeepsRows(c, s.rows, e, at);
      }
    case Claim(h, stamp, locked, ids) =>
      ClaimKeepsRows(c, s.rows, ids, stamp);
    case Sweep(h, stamp, locked, ids) =>
      SweepKeepsRows(c, s.rows, ids, stamp);
    case Settle(h, outcome, at, draw) =>
      var copy := s.holders[h].queue[0];
      assert CopyOk(c, s.rows, copy);
      SettledCopyIsFinal(c, s.rows, copy, outcome, at, draw);
      SaveKeepsRows(c, s.rows, SettledCopy(c, copy, outcome, at, draw).value);
    case Read(recipient, id, at) =>
      if id in s.rows {
        assert RowOk(c, id, s.rows[id]);
      }
    case Tick(_) =>
    case Drop(_) =>
    case Crash(_) =>
  }

  /** The partial unique index: two stored rows never share a key. */
  lemma StepKeepsKeys(c: Config, s: State, step: Step)
    requires KeysUnique(s.rows) && Enabled(c, s, step)
    ensures KeysUnique(Apply(c, s, step).rows)
  {
    StepCarries(c, s, step);
    var t := s.rows;
    var u := Apply(c, s, step).rows;
    if step.Enqueue? {
      var n := NewNotification(step.e, step.at).value;
      var r := Inserted(t, n);
      if r.Ok? {
        var row := ToRow(n);
        assert !KeyTaken(t, row.idempotencyKey);
        forall i, j | i in u && j in u && u[i].idempotencyKey.Some? && u[i].idempotencyKey == u[j].idempotencyKey
          ensures i == j
        {
          assert i in t ==> u[i] == t[i];
          assert j in t ==> u[j] == t[j];
        }
      }
    } else {
      assert u.Keys == t.Keys;
    }
  }

  lemma TakenCopiesOk(c: Config, s: State, step: Step, i: nat)
    requires RowsOk(c, s.rows) && Enabled(c, s, step) && (step.Claim? || step.Sweep?) && i < |step.ids|
    ensures var z := Apply(c, s, step); CopyOk(c, z.rows, z.holders[step.h].queue[i])
  {
    var id := step.ids[i];
    assert id in step.ids;
    assert id in s.rows && RowOk(c, id, s.rows[id]);
  }

  lemma KeptCopiesOk(c: Config, t: Table, u: Table, n: Entity)
    requires Carries(t, u) && CopyOk(c, t, n)
    ensures CopyOk(c, u, n)
  {
  }

  lemma StepKeepsCopies(c: Config, s: State, step: Step)
    requires Inv(c, s) && Enabled(c, s, step)
    ensures CopiesOk(c, Apply(c, s, step))
  {
    StepCarries(c, s, step);
    var z := Apply(c, s, step);
    forall h, i | h in z.holders && 0 <= i < |z.holders[h].queue|
      ensures CopyOk(c, z.rows, z.holders[h].queue[i])
    {
      if (step.Claim? || step.Sweep?) && h == step.h {
        TakenCopiesOk(c, s, step, i);
      } else {
        var k := if (step.Settle? || step.Drop?) && h == step.h then i + 1 else i;
        KeptCopiesOk(c, s.rows, z.rows, s.holders[h].queue[k]);
      }
    }
  }

  lemma StepKeepsInv(c: Config, s: State, step: Step)
    requires Configured(c) && Inv(c, s) && Enabled(c, s, step)
    ensures Inv(c, Apply(c, s, step))
  {
    StepKeepsRows(c, s, step);
    StepKeepsKeys(c, s, step);
    StepKeepsCopies(c, s, step);
  }

  /** In every run, stale overwriting saves and crashes included: each stored
      row keeps its identity, stays within its budget, is sent exactly when it
      is stamped sent, is never stored as failed, and carries a claim stamp
      while it is claimed; and keys stay unique. */
  lemma {:induction false} EveryRunKeepsInv(c: Config, s: State, steps: seq<Step>)
    requires Configured(c) && Inv(c, s) && IsRun(c, s, steps)
    ensures Inv(c, Exec(c, s, steps))
    ensures Carries(s.rows, Exec(c, s, steps).rows)
    decreases |steps|
  {
    if steps != [] {
      StepKeepsInv(c, s, steps[0]);
      StepCarries(c, s, steps[0]);
      EveryRunKeepsInv(c, Apply(c, s, steps[0]), steps[1..]);
    }
  }

  /** No row is stuck for good: whatever led there, a claimed row becomes
      eligible for the sweep StalledAfter past its stamp, and a sweep that
      finds it unlocked takes it, or takes a full batch of rows claimed no later. */
  lemma StuckRowsAreSweepable(c: Config, now: Time, steps: seq<Step>, id: Id, h: nat, stamp: Time,
                              locked: set<Id>, ids: seq<Id>)
    requires Configured(c) && IsRun(c, Start(now), steps)
    requires var s := Exec(c, Start(now), steps);
             && id in s.rows && s.rows[id].status.Sending? && id !in locked
             && Enabled(c, s, Sweep(h, stamp, locked, ids))
    ensures var s := Exec(c, Start(now), steps);
            && s.rows[id].claimedAt.Some?
            && (stamp > s.rows[id].claimedAt.value + c.stalledAfter ==>
                  || id in ids
                  || (&& |ids| == c.batchSize
                      && forall other :: other in ids ==>
                           && s.rows[other].claimedAt.Some?
                           && s.rows[other].claimedAt.value <= s.rows[id].claimedAt.value))
  {
    EveryRunKeepsInv(c, Start(now), steps);
    var s := Exec(c, Start(now), steps);
    assert RowOk(c, id, s.rows[id]);
    if stamp > s.rows[id].claimedAt.value + c.stalledAfter && id !in ids {
      assert id in Stuck(s.rows, stamp - c.stalledAfter);
      forall other | other in ids
        ensures s.rows[other].claimedAt.Some? && s.rows[other].claimedAt.value <= s.rows[id].claimedAt.value
      {
        assert other in Stuck(s.rows, stamp - c.stalledAfter);
        assert ClaimRank(s.rows)[other] <= ClaimRank(s.rows)[id];
      }
    }
  }

  /** The step saves an outcome of this kind on the row. */
  predicate Reports(s: State, step: Step, id: Id, delivered: bool) {
    && step.Settle? && Holding(s, step.h) && s.holders[step.h].queue[0].envelope.id == id
    && (if delivered then step.outcome.Delivered? else step.outcome.NonRetryable?)
  }

  predicate Reported(c: Config, s: State, steps: seq<Step>, id: Id, delivered: bool)
    requires IsRun(c, s, steps)
    decreases |steps|
  {
    steps != [] &&
    (Reports(s, steps[0], id, delivered) || Reported(c, Apply(c, s, steps[0]), steps[1..], id, delivered))
  }

  predicate Justified(c: Config, r: Row, delivered: bool, rejected: bool) {
    && (r.status.Sent? ==> delivered)
    && (r.status.Dead? ==> rejected || r.attempts == c.maxAttempts)
  }

  lemma StepJustifies(c: Config, s: State, step: Step, id: Id, delivered: bool, rejected: bool)
    requires Configured(c) && Inv(c, s) && Enabled(c, s, step)
    requires id in s.rows ==> Justified(c, s.rows[id], delivered, rejected)
    ensures var z := Apply(c, s, step);
            id in z.rows ==>
              Justified(c, z.rows[id], delivered || Reports(s, step, id, true), rejected || Reports(s, step, id, false))
  {
    if step.Settle? {
      var copy := s.holders[step.h].queue[0];
      assert CopyOk(c, s.rows, copy);
      SettleSpends(copy.delivery, step.outcome, step.at,
                   Jittered(copy.delivery.attempts, c.base, c.cap, step.draw), c.maxAttempts);
    }
  }

  lemma {:induction false} RunJustifies(c: Config, s: State, steps: seq<Step>, id: Id, delivered: bool, rejected: bool)
    requires Configured(c) && Inv(c, s) && IsRun(c, s, steps)
    requires id in s.rows ==> Justified(c, s.rows[id], delivered, rejected)
    ensures var z := Exec(c, s, steps);
            id in z.rows ==>
              Justified(c, z.rows[id], delivered || Reported(c, s, steps, id, true),
                        rejected || Reported(c, s, steps, id, false))
    decreases |steps|
  {
    if steps != [] {
      StepKeepsInv(c, s, steps[0]);
      StepJustifies(c, s, steps[0], id, delivered, rejected);
      RunJustifies(c, Apply(c, s, steps[0]), steps[1..], id,
                   delivered || Reports(s, steps[0], id, true), rejected || Reports(s, steps[0], id, false));
    }
  }

  /** At-least-once: in every run, a row is marked sent only if some holder's
      delivery of it succeeded, and dead only if one was refused for good or
      its whole budget of failures is spent. */
  lemma NothingSettlesUnearned(c: Config, now: Time, steps: seq<Step>, id: Id)
    requires Configured(c) && IsRun(c, Start(now), steps) && id in Exec(c, Start(now), steps).rows
    ensures var row := Exec(c, Start(now), steps).rows[id];
            && (row.status.Sent? ==> Reported(c, Start(now), steps, id, true))
            && (row.status.Dead? ==> row.attempts == c.maxAttempts || Reported(c, Start(now), steps, id, false))
  {
    RunJustifies(c, Start(now), steps, id, false, false);
  }
}
