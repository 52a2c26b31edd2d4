/** When the outbox is safe: Save filters on the id alone, so nothing in the
    database fences a stale copy. Exclusion rests on time. A statement that
    claims runs within `claimLatency` of the clock reading it is stamped with,
    and every row of a batch is settled or given up within `settleTime` of the
    one before; a holder that falls behind settles nothing more. */
module OutboxTiming {
  import opened Wrappers
  import opened Backoff
  import opened NotificationDomain
  import opened Outbox
  import opened OutboxProtocol

  datatype Timing = Timing(claimLatency: nat, settleTime: nat)

  /** The condition: a whole batch, handled at the slowest, ends no later than
      the stall window of its own claim. */
  predicate BatchFits(c: Config, t: Timing) {
    t.claimLatency + c.batchSize * t.settleTime <= c.stalledAfter
  }

  predicate Timely(t: Timing, s: State, step: Step) {
    match step
    case Claim(_, stamp, _, _) => s.now <= stamp + t.claimLatency
    case Sweep(_, stamp, _, _) => s.now <= stamp + t.claimLatency
    case Settle(h, _, _, _) => h in s.holders ==> s.now <= s.holders[h].progress + t.settleTime
    case Drop(h) => h in s.holders ==> s.now <= s.holders[h].progress + t.settleTime
    case _ => true
  }

  predicate TimelyRun(c: Config, t: Timing, s: State, steps: seq<Step>)
    ensures TimelyRun(c, t, s, steps) ==> IsRun(c, s, steps)
    decreases |steps|
  {
    steps == [] ||
    (Enabled(c, s, steps[0]) && Timely(t, s, steps[0]) && TimelyRun(c, t, Apply(c, s, steps[0]), steps[1..]))
  }

  lemma {:induction false} TimelyRunsCompose(c: Config, t: Timing, s: State, a: seq<Step>, b: seq<Step>)
    requires TimelyRun(c, t, s, a)
    ensures TimelyRun(c, t, s, a + b) <==> TimelyRun(c, t, Exec(c, s, a), b)
    ensures TimelyRun(c, t, s, a + b) ==> Exec(c, s, a + b) == Exec(c, Exec(c, s, a), b)
    decreases |a|
  {
    if a == [] {
      assert a + b == b;
    } else {
      assert (a + b)[0] == a[0] && (a + b)[1..] == a[1..] + b;
      TimelyRunsCompose(c, t, Apply(c, s, a[0]), a[1..], b);
    }
  }

  // ----------------------------------------------------------------- exclusion

  /** The last instant at which a timely holder can settle its i-th copy. */
  function Deadline(t: Timing, hd: Holder, i: nat): Time {
    hd.progress + (i + 1) * t.settleTime
  }

  /** The holder may still settle its i-th copy. */
  predicate Live(t: Timing, s: State, h: nat, i: nat) {
    h in s.holders && i < |s.holders[h].queue| && s.now <= Deadline(t, s.holders[h], i)
  }

  function Copy(s: State, h: nat, i: nat): Entity
    requires h in s.holders && i < |s.holders[h].queue|
  {
    s.holders[h].queue[i]
  }

  /** Room for the rest of a full batch. */
  predicate OnSchedule(c: Config, t: Timing, hd: Holder) {
    hd.progress + |hd.queue| * t.settleTime <= hd.stamp + t.claimLatency + c.batchSize * t.settleTime
  }

  /** A live copy is the row: still sending, under this holder's stamp, unchanged. */
  predicate Current(t: Timing, s: State, h: nat, i: nat)
    requires h in s.holders && i < |s.holders[h].queue|
  {
    var copy := Copy(s, h, i);
    && copy.envelope.id in s.rows
    && var row := s.rows[copy.envelope.id];
       && row.status.Sending?
       && row.claimedAt == Some(s.holders[h].stamp)
       && DeliveryOf(row) == copy.delivery
  }

  ghost predicate Exclusive(t: Timing, s: State) {
    && (forall h: nat, i: nat :: Live(t, s, h, i) ==> Current(t, s, h, i))
    && (forall h: nat, i: nat, g: nat, j: nat ::
          (Live(t, s, h, i) && Live(t, s, g, j) && Copy(s, h, i).envelope.id == Copy(s, g, j).envelope.id) ==>
            h == g && i == j)
  }

  ghost predicate TimedInv(c: Config, t: Timing, s: State) {
    && Inv(c, s)
    && (forall h :: h in s.holders ==> OnSchedule(c, t, s.holders[h]))
    && Exclusive(t, s)
  }

  /** Derived, not assumed: no copy can still be settled once its row is stalled. */
  lemma LiveIsInWindow(c: Config, t: Timing, s: State, h: nat, i: nat)
    requires BatchFits(c, t) && Live(t, s, h, i) && OnSchedule(c, t, s.holders[h])
    ensures s.now <= s.holders[h].stamp + c.stalledAfter
  {
    var hd := s.holders[h];
    TimesMonotone(i + 1, |hd.queue|, t.settleTime);
  }

  lemma TimesMonotone(a: nat, b: nat, d: nat)
    requires a <= b
    ensures a * d <= b * d
  {
  }

  /** Making progress in time never brings a later copy to life. */
  lemma PoppedStaysLive(t: Timing, s: State, h: nat, i: nat)
    requires Holding(s, h) && s.now <= s.holders[h].progress + t.settleTime
    requires i + 1 < |s.holders[h].queue|
    ensures Live(t, s, h, i + 1)
    ensures Live(t, s, h, 0)
  {
    TimesMonotone(1, i + 2, t.settleTime);
  }

  lemma StepKeepsSchedule(c: Config, t: Timing, s: State, step: Step)
    requires Configured(c) && TimedInv(c, t, s) && Enabled(c, s, step) && Timely(t, s, step)
    ensures forall h :: h in Apply(c, s, step).holders ==> OnSchedule(c, t, Apply(c, s, step).holders[h])
  {
    var z := Apply(c, s, step);
    forall h | h in z.holders
      ensures OnSchedule(c, t, z.holders[h])
    {
      if (step.Claim? || step.Sweep?) && h == step.h {
        TimesMonotone(|step.ids|, c.batchSize, t.settleTime);
      } else if (step.Settle? || step.Drop?) && h == step.h {
        var q := |s.holders[h].queue|;
        assert q * t.settleTime == (q - 1) * t.settleTime + t.settleTime;
      } else {
        assert z.holders[h] == s.holders[h];
      }
    }
  }

  /** What both claims do to the table: the picked rows are sending under the
      new stamp, and the others are as they were. */
  predicate Takes(s: State, rows: Table, ids: seq<Id>, stamp: Time) {
    && rows.Keys == s.rows.Keys
    && (forall id :: id in ids ==> id in rows && rows[id].status.Sending? && rows[id].claimedAt == Some(stamp))
    && (forall id :: id in rows && id !in ids ==> rows[id] == s.rows[id])
  }

  /** The picked rows belong to the new holder and to no live other. */
  lemma TakingKeepsExclusive(t: Timing, s: State, rows: Table, ids: seq<Id>, h0: nat, role: Role, stamp: Time)
    requires Exclusive(t, s) && Takes(s, rows, ids, stamp) && Distinct(ids) && h0 !in s.holders
    requires forall id :: id in ids ==> rows[id].id == id
    requires forall h: nat, i: nat :: Live(t, s, h, i) ==> Copy(s, h, i).envelope.id !in ids
    ensures Exclusive(t, State(rows, s.holders[h0 := Holder(role, stamp, Returned(rows, ids), s.now)], s.now))
  {
    var hd := Holder(role, stamp, Returned(rows, ids), s.now);
    var z := State(rows, s.holders[h0 := hd], s.now);
    forall h: nat, i: nat | Live(t, z, h, i) && h != h0
      ensures Live(t, s, h, i) && Copy(z, h, i) == Copy(s, h, i) && Current(t, z, h, i)
    {
      assert Live(t, s, h, i);
      assert Current(t, s, h, i);
    }
    forall i: nat | Live(t, z, h0, i)
      ensures Copy(z, h0, i).envelope.id == ids[i] && Current(t, z, h0, i)
    {
      assert ids[i] in ids;
    }
  }

  lemma ClaimKeepsExclusive(c: Config, t: Timing, s: State, step: Step)
    requires TimedInv(c, t, s) && Enabled(c, s, step) && step.Claim?
    requires forall h: nat, i: nat :: Live(t, s, h, i) ==> Copy(s, h, i).envelope.id !in step.ids
    ensures Exclusive(t, Apply(c, s, step))
  {
    var rows := Claimed(s.rows, step.ids, step.stamp);
    assert Picks(Due(s.rows, step.stamp), DueRank(s.rows), c.batchSize, step.locked, step.ids);
    assert forall id :: id in step.ids ==> id in Due(s.rows, step.stamp) && RowOk(c, id, s.rows[id]);
    TakingKeepsExclusive(t, s, rows, step.ids, step.h, Worker, step.stamp);
  }

  lemma SweepKeepsExclusive(c: Config, t: Timing, s: State, step: Step)
    requires TimedInv(c, t, s) && Enabled(c, s, step) && step.Sweep?
    requires forall h: nat, i: nat :: Live(t, s, h, i) ==> Copy(s, h, i).envelope.id !in step.ids
    ensures Exclusive(t, Apply(c, s, step))
  {
    var rows := Restamped(s.rows, step.ids, step.stamp);
    var before := step.stamp - c.stalledAfter;
    assert Picks(Stuck(s.rows, before), ClaimRank(s.rows), c.batchSize, step.locked, step.ids);
    assert forall id :: id in step.ids ==> id in Stuck(s.rows, before) && RowOk(c, id, s.rows[id]);
    TakingKeepsExclusive(t, s, rows, step.ids, step.h, Sweeper, step.stamp);
  }

  /** A pop changes no row but the one whose copy is popped. */
  lemma PopTouchesOneRow(c: Config, s: State, step: Step)
    requires Inv(c, s) && Enabled(c, s, step) && (step.Settle? || step.Drop?)
    ensures var head := Copy(s, step.h, 0).envelope.id; var z := Apply(c, s, step);
            forall id :: id in s.rows && id != head ==> id in z.rows && z.rows[id] == s.rows[id]
  {
    var head := Copy(s, step.h, 0);
    assert CopyOk(c, s.rows, head);
    if step.Settle? {
      SettledCopyIsFinal(c, s.rows, head, step.outcome, step.at, step.draw);
    }
  }

  /** Its holder's copies move up by one, and nobody else's move. */
  lemma PopShifts(c: Config, t: Timing, s: State, step: Step, h: nat, i: nat)
    requires Enabled(c, s, step) && Timely(t, s, step) && (step.Settle? || step.Drop?)
    requires Live(t, Apply(c, s, step), h, i)
    ensures var k := if h == step.h then i + 1 else i;
            Live(t, s, h, k) && Live(t, s, step.h, 0) && Copy(Apply(c, s, step), h, i) == Copy(s, h, k)
    ensures Apply(c, s, step).holders[h].stamp == s.holders[h].stamp
  {
    TimesMonotone(0, 1, t.settleTime);
    if h == step.h {
      PoppedStaysLive(t, s, h, i);
    }
  }

  lemma PopKeepsExclusive(c: Config, t: Timing, s: State, step: Step)
    requires TimedInv(c, t, s) && Enabled(c, s, step) && Timely(t, s, step)
    requires step.Settle? || step.Drop?
    ensures Exclusive(t, Apply(c, s, step))
  {
    var z := Apply(c, s, step);
    PopTouchesOneRow(c, s, step);
    forall h: nat, i: nat | Live(t, z, h, i)
      ensures var k := if h == step.h then i + 1 else i;
              Live(t, s, h, k) && Copy(z, h, i) == Copy(s, h, k) && Current(t, z, h, i)
    {
      PopShifts(c, t, s, step, h, i);
      var k := if h == step.h then i + 1 else i;
      assert Current(t, s, h, k);
    }
  }

  lemma QuietKeepsExclusive(c: Config, t: Timing, s: State, step: Step)
    requires Configured(c) && TimedInv(c, t, s) && Enabled(c, s, step)
    requires step.Tick? || step.Enqueue? || step.Read? || step.Crash?
    ensures Exclusive(t, Apply(c, s, step))
  {
    var z := Apply(c, s, step);
    forall h: nat, i: nat | Live(t, z, h, i)
      ensures Live(t, s, h, i) && Copy(z, h, i) == Copy(s, h, i) && Current(t, z, h, i)
    {
      assert Live(t, s, h, i);
      assert Current(t, s, h, i);
    }
  }

  lemma TimelyStepKeepsInv(c: Config, t: Timing, s: State, step: Step)
    requires Configured(c) && BatchFits(c, t)
    requires TimedInv(c, t, s) && Enabled(c, s, step) && Timely(t, s, step)
    ensures TimedInv(c, t, Apply(c, s, step))
  {
    StepKeepsInv(c, s, step);
    StepKeepsSchedule(c, t, s, step);
    if step.Claim? || step.Sweep? {
      forall h: nat, i: nat | Live(t, s, h, i)
        ensures Copy(s, h, i).envelope.id !in step.ids
      {
        assert Current(t, s, h, i);
        LiveIsInWindow(c, t, s, h, i);
      }
      if step.Claim? {
        ClaimKeepsExclusive(c, t, s, step);
      } else {
        SweepKeepsExclusive(c, t, s, step);
      }
    } else if step.Settle? || step.Drop? {
      PopKeepsExclusive(c, t, s, step);
    } else {
      QuietKeepsExclusive(c, t, s, step);
    }
  }

  /** In every timely run, a row being sent has at most one holder that can
      still settle it, and that holder's copy is the row. */
  lemma {:induction false} EveryTimelyRunIsExclusive(c: Config, t: Timing, s: State, steps: seq<Step>)
    requires Configured(c) && BatchFits(c, t)
    requires TimedInv(c, t, s) && TimelyRun(c, t, s, steps)
    ensures TimedInv(c, t, Exec(c, s, steps))
    decreases |steps|
  {
    if steps != [] {
      TimelyStepKeepsInv(c, t, s, steps[0]);
      EveryTimelyRunIsExclusive(c, t, Apply(c, s, steps[0]), steps[1..]);
    }
  }

  // --------------------------------------------------- what a row goes through

  /** A row's life within one step: untouched, claimed, re-stamped, or settled. */
  predicate LegalMove(c: Config, before: Row, after: Row) {
    || DeliveryOf(after) == DeliveryOf(before)
    || (before.status.Pending? && DeliveryOf(after) == DeliveryOf(before).(status := Sending))
    || (before.status.Sending? && Terminal(after.status) && before.attempts <= after.attempts)
    || (before.status.Sending? && after.status.Pending? && after.attempts == before.attempts + 1)
  }

  /** Under timing, statuses move only pending -> sending -> {sent, dead,
      pending}, and coming back to pending costs an attempt. */
  lemma TimelyStepIsLegal(c: Config, t: Timing, s: State, step: Step, id: Id)
    requires Configured(c) && TimedInv(c, t, s) && Enabled(c, s, step) && Timely(t, s, step) && id in s.rows
    ensures id in Apply(c, s, step).rows
    ensures LegalMove(c, s.rows[id], Apply(c, s, step).rows[id])
  {
    if step.Settle? {
      var copy := Copy(s, step.h, 0);
      assert Live(t, s, step.h, 0);
      assert Current(t, s, step.h, 0);
      assert CopyOk(c, s.rows, copy);
      var retryAfter := Jittered(copy.delivery.attempts, c.base, c.cap, step.draw);
      SettleSpends(copy.delivery, step.outcome, step.at, retryAfter, c.maxAttempts);
      SaveWritesTheDelivery(s.rows, SettledCopy(c, copy, step.outcome, step.at, step.draw).value);
    }
  }

  /** How many more times a row can be claimed for delivery. */
  function ClaimsLeft(c: Config, r: Row): int {
    match r.status
    case Pending => c.maxAttempts - r.attempts
    case Sending => c.maxAttempts - r.attempts - 1
    case _ => 0
  }

  function Rank(s: Status): nat {
    match s case Pending => 2 case Sending => 1 case _ => 0
  }

  /** A measure that every status change lowers: attempts left, then position. */
  function Measure(c: Config, r: Row): int {
    3 * (c.maxAttempts - r.attempts) + Rank(r.status)
  }

  lemma StatusChangeLowersMeasure(c: Config, before: Row, after: Row)
    requires Configured(c) && LegalMove(c, before, after)
    requires Consistent(DeliveryOf(before), c.maxAttempts) && Consistent(DeliveryOf(after), c.maxAttempts)
    ensures before.status != after.status ==> 0 <= Measure(c, after) < Measure(c, before)
    ensures before.status == after.status ==> Measure(c, after) == Measure(c, before)
    ensures Terminal(before.status) ==> DeliveryOf(after) == DeliveryOf(before)
  {
  }

  function ClaimsOf(steps: seq<Step>, id: Id): nat {
    if steps == [] then 0
    else (if steps[0].Claim? && id in steps[0].ids then 1 else 0) + ClaimsOf(steps[1..], id)
  }

  function ClaimsLeftAt(c: Config, t: Table, id: Id): int {
    if id in t then ClaimsLeft(c, t[id]) else c.maxAttempts
  }

  lemma StepSpendsClaims(c: Config, t: Timing, s: State, step: Step, id: Id)
    requires Configured(c) && BatchFits(c, t)
    requires TimedInv(c, t, s) && Enabled(c, s, step) && Timely(t, s, step)
    ensures var z := Apply(c, s, step);
            && 0 <= ClaimsLeftAt(c, z.rows, id)
            && ClaimsOf([step], id) + ClaimsLeftAt(c, z.rows, id) <= ClaimsLeftAt(c, s.rows, id)
  {
    StepKeepsInv(c, s, step);
    var z := Apply(c, s, step);
    if id in z.rows {
      assert RowOk(c, id, z.rows[id]);
    }
    if id in s.rows {
      assert RowOk(c, id, s.rows[id]);
      TimelyStepIsLegal(c, t, s, step, id);
    }
  }

  /** However workers, sweepers, failed saves and crashes interleave, a row is
      claimed for delivery at most MaxAttempts times. */
  lemma {:induction false} ClaimsAreBudgeted(c: Config, t: Timing, s: State, steps: seq<Step>, id: Id)
    requires Configured(c) && BatchFits(c, t)
    requires TimedInv(c, t, s) && TimelyRun(c, t, s, steps)
    ensures 0 <= ClaimsLeftAt(c, Exec(c, s, steps).rows, id)
    ensures ClaimsOf(steps, id) + ClaimsLeftAt(c, Exec(c, s, steps).rows, id) <= ClaimsLeftAt(c, s.rows, id)
    decreases |steps|
  {
    if steps == [] {
      if id in s.rows {
        assert RowOk(c, id, s.rows[id]);
      }
    } else {
      StepSpendsClaims(c, t, s, steps[0], id);
      TimelyStepKeepsInv(c, t, s, steps[0]);
      ClaimsAreBudgeted(c, t, Apply(c, s, steps[0]), steps[1..], id);
    }
  }

  /** The budget, from an empty outbox. */
  lemma DeliveredAtMostMaxAttempts(c: Config, t: Timing, now: Time, steps: seq<Step>, id: Id)
    requires Configured(c) && BatchFits(c, t) && TimelyRun(c, t, Start(now), steps)
    ensures ClaimsOf(steps, id) <= c.maxAttempts
  {
    ClaimsAreBudgeted(c, t, Start(now), steps, id);
  }

  // ------------------------------------------------------------ final statuses

  /** A row that is sent or dead stays exactly as it was settled. */
  lemma {:induction false} FinalStaysFinal(c: Config, t: Timing, s: State, steps: seq<Step>, id: Id)
    requires Configured(c) && BatchFits(c, t)
    requires TimedInv(c, t, s) && TimelyRun(c, t, s, steps)
    requires id in s.rows && Terminal(s.rows[id].status)
    ensures id in Exec(c, s, steps).rows
    ensures DeliveryOf(Exec(c, s, steps).rows[id]) == DeliveryOf(s.rows[id])
    decreases |steps|
  {
    if steps != [] {
      TimelyStepIsLegal(c, t, s, steps[0], id);
      TimelyStepKeepsInv(c, t, s, steps[0]);
      FinalStaysFinal(c, t, Apply(c, s, steps[0]), steps[1..], id);
    }
  }

  /** After `before` the row is final, and after `rest` it is no longer what it was. */
  ghost predicate Reopens(c: Config, t: Timing, before: seq<Step>, rest: seq<Step>, id: Id) {
    && TimelyRun(c, t, Start(0), before)
    && TimelyRun(c, t, Exec(c, Start(0), before), rest)
    && var mid := Exec(c, Start(0), before);
       var end := Exec(c, mid, rest);
       && id in mid.rows && Terminal(mid.rows[id].status)
       && id in end.rows && DeliveryOf(end.rows[id]) != DeliveryOf(mid.rows[id])
  }

  ghost predicate FinalIsFinal(c: Config, t: Timing) {
    forall before, rest, id :: !Reopens(c, t, before, rest, id)
  }
}
