/** The exact condition under which sent and dead are final: the batch fits the
    stall window. When it does not, a run that keeps every time limit reopens a
    sent row. */
module OutboxSafety {
  import opened Wrappers
  import opened Backoff
  import opened NotificationDomain
  import opened Outbox
  import opened OutboxProtocol
  import opened OutboxTiming

  function Plain(id: Id): Envelope {
    Envelope(id, 1, EMAIL, SECURITY, "k", map[], "", 0)
  }

  function Fresh(id: Id): Row {
    ToRow(Entity(Plain(id), Delivery(Pending, 0, 0, [], None), None))
  }

  function FreshRows(k: nat): Table {
    map id: Id | 1 <= id <= k :: Fresh(id)
  }

  function ClaimedRows(k: nat): Table {
    map id: Id | 1 <= id <= k :: Fresh(id).(status := Sending, claimedAt := Some(0))
  }

  /** 1, 2, ..., k. */
  function Ids(k: nat): (r: seq<Id>)
    ensures |r| == k && forall i :: 0 <= i < k ==> r[i] == i + 1
  {
    seq(k, i requires 0 <= i < k => i + 1)
  }

  /** k, 1, 2, ..., k - 1. */
  function LastFirst(k: nat): (r: seq<Id>)
    requires k > 0
    ensures |r| == k && r[0] == k && forall i :: 0 < i < k ==> r[i] == i
  {
    [k] + Ids(k - 1)
  }

  lemma IdsCover(ids: seq<Id>, k: nat)
    requires ids == Ids(k) || (k > 0 && ids == LastFirst(k))
    ensures Distinct(ids)
    ensures forall id: Id :: 1 <= id <= k <==> id in ids
  {
    forall id: Id | 1 <= id <= k
      ensures id in ids
    {
      if ids == Ids(k) {
        assert ids[id - 1] == id;
      } else {
        assert ids[if id == k then 0 else id] == id;
      }
    }
  }

  /** k rows are enqueued at instant 0. */
  lemma {:induction false} Fill(c: Config, t: Timing, k: nat) returns (steps: seq<Step>)
    requires Configured(c)
    ensures TimelyRun(c, t, Start(0), steps)
    ensures Exec(c, Start(0), steps) == State(FreshRows(k), map[], 0)
    decreases k
  {
    steps := [];
    if k > 0 {
      var shorter := Fill(c, t, k - 1);
      var s := State(FreshRows(k - 1), map[], 0);
      var step := Enqueue(Plain(k), 0);
      assert Plain(k).(createdAt := 0) == Plain(k);
      assert Apply(c, s, step).rows == FreshRows(k);
      assert TimelyRun(c, t, s, [step]) && Exec(c, s, [step]) == State(FreshRows(k), map[], 0) by {
        Single(c, t, s, step);
      }
      TimelyRunsCompose(c, t, Start(0), shorter, [step]);
      steps := shorter + [step];
    } else {
      assert FreshRows(0) == map[];
    }
  }

  lemma Single(c: Config, t: Timing, s: State, step: Step)
    requires Enabled(c, s, step) && Timely(t, s, step)
    ensures TimelyRun(c, t, s, [step]) && Exec(c, s, [step]) == Apply(c, s, step)
  {
    assert [step][1..] == [];
    assert TimelyRun(c, t, Apply(c, s, step), []);
  }

  lemma Double(c: Config, t: Timing, s: State, a: Step, b: Step)
    requires Enabled(c, s, a) && Timely(t, s, a)
    requires Enabled(c, Apply(c, s, a), b) && Timely(t, Apply(c, s, a), b)
    ensures TimelyRun(c, t, s, [a, b]) && Exec(c, s, [a, b]) == Apply(c, Apply(c, s, a), b)
  {
    Single(c, t, s, a);
    Single(c, t, Apply(c, s, a), b);
    TimelyRunsCompose(c, t, s, [a], [b]);
    assert [a] + [b] == [a, b];
  }

  lemma AllAreDue(k: nat)
    ensures PicksDue(FreshRows(k), k, 0, {}, Ids(k))
    ensures Claimed(FreshRows(k), Ids(k), 0) == ClaimedRows(k)
  {
    IdsCover(Ids(k), k);
  }

  /** The worker claims the k rows under stamp 0, as late as it may. */
  lemma ClaimAll(c: Config, t: Timing, k: nat) returns (steps: seq<Step>)
    requires Configured(c) && k == c.batchSize
    ensures var s := State(FreshRows(k), map[], 0); var now := t.claimLatency;
            var queue := Returned(ClaimedRows(k), Ids(k));
            && TimelyRun(c, t, s, steps)
            && Exec(c, s, steps) == State(ClaimedRows(k), map[0 := Holder(Worker, 0, queue, now)], now)
  {
    var s := State(FreshRows(k), map[], 0);
    var late := s.(now := t.claimLatency);
    var claim := Claim(0, 0, {}, Ids(k));
    AllAreDue(k);
    Double(c, t, s, Tick(t.claimLatency), claim);
    steps := [Tick(t.claimLatency), claim];
  }

  /** It gives up all but its last row, taking its full time over each. */
  lemma {:induction false} DropTo(c: Config, t: Timing, rows: Table, queue: seq<Entity>, now: Time)
    returns (steps: seq<Step>)
    requires |queue| > 0
    ensures var s := State(rows, map[0 := Holder(Worker, 0, queue, now)], now);
            var end := now + (|queue| - 1) * t.settleTime;
            && TimelyRun(c, t, s, steps)
            && Exec(c, s, steps) == State(rows, map[0 := Holder(Worker, 0, queue[|queue| - 1..], end)], end)
    decreases |queue|
  {
    var s := State(rows, map[0 := Holder(Worker, 0, queue, now)], now);
    if |queue| == 1 {
      steps := [];
      assert queue[|queue| - 1..] == queue;
    } else {
      var next := now + t.settleTime;
      var z := State(rows, map[0 := Holder(Worker, 0, queue[1..], next)], next);
      assert Apply(c, s, Tick(next)) == s.(now := next);
      assert Apply(c, s.(now := next), Drop(0)) == z;
      Double(c, t, s, Tick(next), Drop(0));
      var rest := DropTo(c, t, rows, queue[1..], next);
      TimelyRunsCompose(c, t, s, [Tick(next), Drop(0)], rest);
      steps := [Tick(next), Drop(0)] + rest;
      assert queue[1..][|queue| - 2..] == queue[|queue| - 1..];
      assert (|queue| - 1) * t.settleTime == t.settleTime + (|queue| - 2) * t.settleTime;
    }
  }

  /** Both the late worker and the sweeper hold the last row at the last instant. */
  ghost predicate Contested(c: Config, t: Timing, s: State, id: Id) {
    && s.now == t.claimLatency + c.batchSize * t.settleTime
    && id in s.rows && s.rows[id].status.Sending?
    && Consistent(DeliveryOf(s.rows[id]), c.maxAttempts)
    && Live(t, s, 0, 0) && s.holders[0].role.Worker? && Copy(s, 0, 0) == FromRow(s.rows[id])
    && Live(t, s, 1, 0) && s.holders[1].role.Sweeper? && s.holders[1].stamp == s.now
    && Copy(s, 1, 0) == FromRow(s.rows[id])
    && s.rows[id].id == id
  }

  /** The late worker, one settle time before its last instant. */
  function Late(t: Timing, k: nat): State
    requires k > 0
  {
    var now := t.claimLatency + (k - 1) * t.settleTime;
    State(ClaimedRows(k), map[0 := Holder(Worker, 0, Returned(ClaimedRows(k), Ids(k))[k - 1..], now)], now)
  }

  lemma Join(c: Config, t: Timing, s: State, a: seq<Step>, mid: State, b: seq<Step>, end: State)
    requires TimelyRun(c, t, s, a) && Exec(c, s, a) == mid
    requires TimelyRun(c, t, mid, b) && Exec(c, mid, b) == end
    ensures TimelyRun(c, t, s, a + b) && Exec(c, s, a + b) == end
  {
    TimelyRunsCompose(c, t, s, a, b);
  }

  lemma ReachClaimed(c: Config, t: Timing, k: nat) returns (steps: seq<Step>)
    requires Configured(c) && k == c.batchSize
    ensures TimelyRun(c, t, Start(0), steps)
    ensures var now := t.claimLatency;
            Exec(c, Start(0), steps) ==
            State(ClaimedRows(k), map[0 := Holder(Worker, 0, Returned(ClaimedRows(k), Ids(k)), now)], now)
  {
    var now := t.claimLatency;
    var filled := Fill(c, t, k);
    var claimed := ClaimAll(c, t, k);
    Join(c, t, Start(0), filled, State(FreshRows(k), map[], 0), claimed,
         State(ClaimedRows(k), map[0 := Holder(Worker, 0, Returned(ClaimedRows(k), Ids(k)), now)], now));
    steps := filled + claimed;
  }

  lemma ReachLate(c: Config, t: Timing, k: nat) returns (steps: seq<Step>)
    requires Configured(c) && k == c.batchSize
    ensures TimelyRun(c, t, Start(0), steps)
    ensures Exec(c, Start(0), steps) == Late(t, k)
  {
    var queue := Returned(ClaimedRows(k), Ids(k));
    var now := t.claimLatency;
    var claimed := ReachClaimed(c, t, k);
    var dropped := DropTo(c, t, ClaimedRows(k), queue, now);
    Join(c, t, Start(0), claimed, State(ClaimedRows(k), map[0 := Holder(Worker, 0, queue, now)], now),
         dropped, Late(t, k));
    steps := claimed + dropped;
  }

  lemma AllAreStuck(c: Config, k: nat, stamp: Time)
    requires k > 0 && stamp > c.stalledAfter && c.batchSize == k
    ensures PicksStuck(ClaimedRows(k), k, stamp - c.stalledAfter, {}, LastFirst(k))
  {
    IdsCover(LastFirst(k), k);
  }

  /** The last row, held by the late worker and by a sweep of everything. */
  lemma BothHold(c: Config, t: Timing, k: nat, z: State)
    requires Configured(c) && k == c.batchSize && z.now == t.claimLatency + k * t.settleTime
    requires z.rows == Restamped(ClaimedRows(k), LastFirst(k), z.now)
    requires 0 in z.holders && z.holders[0] == Late(t, k).holders[0]
    requires forall id :: id in LastFirst(k) ==> id in z.rows
    requires 1 in z.holders && z.holders[1] == Holder(Sweeper, z.now, Returned(z.rows, LastFirst(k)), z.now)
    ensures Contested(c, t, z, k)
  {
    LateWorkerHolds(t, k, z);
    SweepHolds(k, ClaimedRows(k), z.now);
    LastRowIsSending(c, k, z.rows, z.now);
    JustTaken(t, z, 1);
  }

  lemma LastRowIsSending(c: Config, k: nat, rows: Table, now: Time)
    requires Configured(c) && k > 0 && rows == Restamped(ClaimedRows(k), LastFirst(k), now)
    ensures k in rows && rows[k] == ClaimedRows(k)[k].(claimedAt := Some(now))
    ensures rows[k].id == k && rows[k].status.Sending? && Consistent(DeliveryOf(rows[k]), c.maxAttempts)
    ensures FromRow(rows[k]) == FromRow(ClaimedRows(k)[k])
  {
    IdsCover(LastFirst(k), k);
  }

  lemma JustTaken(t: Timing, s: State, h: nat)
    requires h in s.holders && s.holders[h].queue != [] && s.holders[h].progress == s.now
    ensures Live(t, s, h, 0)
  {
    TimesMonotone(0, 1, t.settleTime);
  }

  lemma LateWorkerHolds(t: Timing, k: nat, z: State)
    requires k > 0 && z.now == t.claimLatency + k * t.settleTime
    requires 0 in z.holders && z.holders[0] == Late(t, k).holders[0]
    ensures Live(t, z, 0, 0) && z.holders[0].role.Worker?
    ensures k in ClaimedRows(k) && Copy(z, 0, 0) == FromRow(ClaimedRows(k)[k])
  {
    assert k * t.settleTime == (k - 1) * t.settleTime + t.settleTime;
  }

  lemma SweepHolds(k: nat, rows: Table, now: Time)
    requires k > 0 && rows == ClaimedRows(k)
    ensures forall id :: id in LastFirst(k) ==> id in rows
    ensures var queue := Returned(Restamped(rows, LastFirst(k), now), LastFirst(k));
            k in rows && queue[0] == FromRow(rows[k].(claimedAt := Some(now)))
  {
    IdsCover(LastFirst(k), k);
  }

  lemma SweepAll(c: Config, t: Timing, k: nat) returns (steps: seq<Step>)
    requires Configured(c) && k == c.batchSize && !BatchFits(c, t)
    ensures TimelyRun(c, t, Late(t, k), steps)
    ensures Contested(c, t, Exec(c, Late(t, k), steps), k)
  {
    var last := t.claimLatency + k * t.settleTime;
    assert k * t.settleTime == (k - 1) * t.settleTime + t.settleTime;
    AllAreStuck(c, k, last);
    var s := Late(t, k);
    var late := s.(now := last);
    var sweep := Sweep(1, last, {}, LastFirst(k));
    assert Enabled(c, late, sweep);
    Double(c, t, s, Tick(last), sweep);
    steps := [Tick(last), sweep];
    IdsCover(LastFirst(k), k);
    BothHold(c, t, k, Exec(c, s, steps));
  }

  /** If the batch does not fit, a timely run lets two holders settle one row. */
  lemma TwoHolders(c: Config, t: Timing) returns (steps: seq<Step>)
    requires Configured(c) && !BatchFits(c, t)
    ensures TimelyRun(c, t, Start(0), steps)
    ensures Contested(c, t, Exec(c, Start(0), steps), c.batchSize)
  {
    var reach := ReachLate(c, t, c.batchSize);
    var sweep := SweepAll(c, t, c.batchSize);
    TimelyRunsCompose(c, t, Start(0), reach, sweep);
    steps := reach + sweep;
  }

  /** The worker reports success; then the sweeper's stale copy overwrites it. */
  lemma StaleSaveReopens(c: Config, t: Timing, s: State, id: Id) returns (before: Step, after: Step)
    requires Configured(c) && Contested(c, t, s, id)
    ensures Enabled(c, s, before) && Timely(t, s, before)
    ensures var mid := Apply(c, s, before);
            && Enabled(c, mid, after) && Timely(t, mid, after)
            && id in mid.rows && mid.rows[id].status.Sent?
            && id in Apply(c, mid, after).rows && !Apply(c, mid, after).rows[id].status.Sent?
  {
    before := Settle(0, Delivered, s.now, None);
    after := Settle(1, Stalled, s.now, None);
    TimesMonotone(0, 1, t.settleTime);
    var copy := Copy(s, 0, 0);
    var mid := Apply(c, s, before);
    SettleSpends(copy.delivery, Delivered, s.now, Jittered(copy.delivery.attempts, c.base, c.cap, None), c.maxAttempts);
    SettleSpends(copy.delivery, Stalled, s.now, Jittered(copy.delivery.attempts, c.base, c.cap, None), c.maxAttempts);
    assert mid.holders[1] == s.holders[1];
  }

  /** Sent and dead are final in every timely run exactly when the claim
      latency plus a full batch at the settle time fits in StalledAfter. */
  lemma FinalExactlyWhenBatchFits(c: Config, t: Timing)
    requires Configured(c)
    ensures FinalIsFinal(c, t) <==> BatchFits(c, t)
  {
    if BatchFits(c, t) {
      forall before, rest, id
        ensures !Reopens(c, t, before, rest, id)
      {
        if Reopens(c, t, before, rest, id) {
          EveryTimelyRunIsExclusive(c, t, Start(0), before);
          FinalStaysFinal(c, t, Exec(c, Start(0), before), rest, id);
        }
      }
    } else {
      var steps := TwoHolders(c, t);
      var s := Exec(c, Start(0), steps);
      var first, second := StaleSaveReopens(c, t, s, c.batchSize);
      Single(c, t, s, first);
      TimelyRunsCompose(c, t, Start(0), steps, [first]);
      Single(c, t, Apply(c, s, first), second);
      assert Reopens(c, t, steps + [first], [second], c.batchSize);
    }
  }
}
