/** The retry schedule over runs of the outbox: which rung a failure puts a row
    on, and that no claim comes before it. */
module OutboxSchedule {
  import opened Wrappers
  import opened Backoff
  import opened NotificationDomain
  import opened Outbox
  import opened OutboxProtocol
  import opened OutboxTiming

  /** The step saves an outcome of this row, whoever holds the copy. */
  predicate SettlesRow(s: State, step: Step, id: Id) {
    step.Settle? && Holding(s, step.h) && s.holders[step.h].queue[0].envelope.id == id
  }

  /** The outcome is a failure worth retrying, or a stall. */
  predicate Charges(s: State, step: Step, id: Id) {
    SettlesRow(s, step, id) && (step.outcome.Retryable? || step.outcome.Stalled?)
  }

  lemma SettleWritesTheCopy(c: Config, s: State, step: Step, id: Id)
    requires Configured(c) && Inv(c, s) && Enabled(c, s, step) && SettlesRow(s, step, id)
    ensures var copy := s.holders[step.h].queue[0];
            && id in Apply(c, s, step).rows
            && exists z :: IsSettled(c, copy, step.outcome, step.at, step.draw, z)
                           && DeliveryOf(Apply(c, s, step).rows[id]) == z.delivery
  {
    var copy := s.holders[step.h].queue[0];
    assert CopyOk(c, s.rows, copy);
    SettledCopyIsSettled(c, copy, step.outcome, step.at, step.draw);
    var z := SettledCopy(c, copy, step.outcome, step.at, step.draw).value;
    SaveWritesTheDelivery(s.rows, z);
    assert IsSettled(c, copy, step.outcome, step.at, step.draw, z);
  }

  /** In every reachable state, by worker or sweeper, on a copy however old: a
      failure spends one attempt of the copy; the last one leaves the row dead,
      and any other leaves it due again on the rung of those before. */
  lemma ChargeWaitsItsRung(c: Config, s: State, step: Step, id: Id)
    requires Configured(c) && Inv(c, s) && Enabled(c, s, step) && Charges(s, step, id)
    ensures id in Apply(c, s, step).rows
    ensures var failed := s.holders[step.h].queue[0].delivery.attempts;
            var row := Apply(c, s, step).rows[id];
            var rung := Max(0, Min(c.base * Pow2(Max(failed, 0)), c.cap));
            var wait := row.nextAttemptAt - step.at;
            && row.attempts == failed + 1
            && (failed + 1 >= c.maxAttempts ==> row.status == Dead)
            && (failed + 1 < c.maxAttempts ==>
                  && row.status == Pending && rung / 2 <= wait <= rung
                  && (step.draw.None? ==> wait == rung)
                  && (step.draw.Some? && rung > 0 ==> wait < rung))
  {
    SettleWritesTheCopy(c, s, step, id);
  }

  // ---------------------------------------------------------- the k-th failure

  function ChargesOf(c: Config, s: State, steps: seq<Step>, id: Id): nat
    requires IsRun(c, s, steps)
    decreases |steps|
  {
    if steps == [] then 0
    else (if Charges(s, steps[0], id) then 1 else 0) + ChargesOf(c, Apply(c, s, steps[0]), steps[1..], id)
  }

  function AttemptsAt(t: Table, id: Id): int {
    if id in t then t[id].attempts else 0
  }

  lemma StepCountsCharges(c: Config, t: Timing, s: State, step: Step, id: Id)
    requires Configured(c) && TimedInv(c, t, s) && Enabled(c, s, step) && Timely(t, s, step)
    ensures AttemptsAt(Apply(c, s, step).rows, id) == AttemptsAt(s.rows, id) + if Charges(s, step, id) then 1 else 0
  {
    if SettlesRow(s, step, id) {
      TimesMonotone(0, 1, t.settleTime);
      assert Live(t, s, step.h, 0);
      assert Current(t, s, step.h, 0);
      assert CopyOk(c, s.rows, Copy(s, step.h, 0));
      SettleWritesTheCopy(c, s, step, id);
    } else if step.Settle? {
      PopTouchesOneRow(c, s, step);
      StepKeepsOtherKeys(c, s, step);
    }
  }

  lemma StepKeepsOtherKeys(c: Config, s: State, step: Step)
    requires Enabled(c, s, step) && step.Settle?
    ensures Apply(c, s, step).rows.Keys == s.rows.Keys
  {
  }

  /** Under timing the attempts of a row are its failures, none counted twice. */
  lemma {:induction false} AttemptsAreCharges(c: Config, t: Timing, s: State, steps: seq<Step>, id: Id)
    requires Configured(c) && BatchFits(c, t) && TimedInv(c, t, s) && TimelyRun(c, t, s, steps)
    ensures AttemptsAt(Exec(c, s, steps).rows, id) == AttemptsAt(s.rows, id) + ChargesOf(c, s, steps, id)
    decreases |steps|
  {
    if steps != [] {
      StepCountsCharges(c, t, s, steps[0], id);
      TimelyStepKeepsInv(c, t, s, steps[0]);
      AttemptsAreCharges(c, t, Apply(c, s, steps[0]), steps[1..], id);
    }
  }

  /** From an empty outbox, with batches that fit: the k-th failure of a row, be
      it reported by a worker or found by a sweep, is its k-th attempt. Up to the
      last it leaves the row due again min(base * 2^(k-1), cap) later, in the
      upper half of that with a jitter source; the MaxAttempts-th leaves it dead,
      and there is none after it. */
  lemma KthFailureWaitsTheKthRung(c: Config, t: Timing, now: Time, steps: seq<Step>, step: Step, id: Id)
    requires Configured(c) && BatchFits(c, t) && TimelyRun(c, t, Start(now), steps)
    requires var s := Exec(c, Start(now), steps);
             Enabled(c, s, step) && Timely(t, s, step) && Charges(s, step, id)
    ensures var s := Exec(c, Start(now), steps);
            var k := ChargesOf(c, Start(now), steps, id) + 1;
            && k <= c.maxAttempts && id in Apply(c, s, step).rows
            && var row := Apply(c, s, step).rows[id];
               var rung := Max(0, Min(c.base * Pow2(k - 1), c.cap));
               var wait := row.nextAttemptAt - step.at;
               && row.attempts == k
               && (k == c.maxAttempts ==> row.status == Dead)
               && (k < c.maxAttempts ==>
                     && row.status == Pending && rung / 2 <= wait <= rung
                     && (step.draw.None? ==> wait == rung)
                     && (step.draw.Some? && rung > 0 ==> wait < rung))
  {
    EveryTimelyRunIsExclusive(c, t, Start(now), steps);
    AttemptsAreCharges(c, t, Start(now), steps, id);
    var s := Exec(c, Start(now), steps);
    TimesMonotone(0, 1, t.settleTime);
    assert Live(t, s, step.h, 0);
    assert Current(t, s, step.h, 0);
    assert CopyOk(c, s.rows, Copy(s, step.h, 0));
    ChargeWaitsItsRung(c, s, step, id);
  }

  // ------------------------------------------------------ no claim comes early

  /** Nobody saves an outcome of the row meanwhile. */
  predicate Unsettled(c: Config, s: State, steps: seq<Step>, id: Id)
    requires IsRun(c, s, steps)
    decreases |steps|
  {
    steps == [] || (!SettlesRow(s, steps[0], id) && Unsettled(c, Apply(c, s, steps[0]), steps[1..], id))
  }

  lemma StepKeepsDue(c: Config, s: State, step: Step, id: Id)
    requires Configured(c) && Inv(c, s) && Enabled(c, s, step) && id in s.rows && !SettlesRow(s, step, id)
    ensures id in Apply(c, s, step).rows && Apply(c, s, step).rows[id].nextAttemptAt == s.rows[id].nextAttemptAt
  {
    if step.Settle? {
      PopTouchesOneRow(c, s, step);
    }
  }

  lemma {:induction false} RunKeepsDue(c: Config, s: State, steps: seq<Step>, id: Id)
    requires Configured(c) && Inv(c, s) && IsRun(c, s, steps) && id in s.rows && Unsettled(c, s, steps, id)
    ensures id in Exec(c, s, steps).rows
    ensures Exec(c, s, steps).rows[id].nextAttemptAt == s.rows[id].nextAttemptAt
    decreases |steps|
  {
    if steps != [] {
      StepKeepsDue(c, s, steps[0], id);
      StepKeepsInv(c, s, steps[0]);
      RunKeepsDue(c, Apply(c, s, steps[0]), steps[1..], id);
    }
  }

  /** In every interleaving, whatever else happened to the row since: a claim
      that takes it is stamped no earlier than the next attempt its last settle
      wrote, or its enqueue if it has not been settled. */
  lemma NoClaimBeforeItIsDue(c: Config, now: Time, before: seq<Step>, since: seq<Step>, claim: Step, id: Id)
    requires Configured(c) && IsRun(c, Start(now), before)
    requires var s := Exec(c, Start(now), before);
             && IsRun(c, s, since) && id in s.rows && Unsettled(c, s, since, id)
             && Enabled(c, Exec(c, s, since), claim) && claim.Claim? && id in claim.ids
    ensures Exec(c, Start(now), before).rows[id].nextAttemptAt <= claim.stamp
  {
    EveryRunKeepsInv(c, Start(now), before);
    var s := Exec(c, Start(now), before);
    RunKeepsDue(c, s, since, id);
    PicksDueByColumns(Exec(c, s, since).rows, c.batchSize, claim.stamp, claim.locked, claim.ids);
  }

  /** So a row that failed is left alone for its backoff: no claim takes it
      before half its rung is over, or the whole of it without a jitter source. */
  lemma NoClaimWithinTheBackoff(
    c: Config, now: Time, before: seq<Step>, charge: Step, since: seq<Step>, claim: Step, id: Id)
    requires Configured(c) && IsRun(c, Start(now), before)
    requires var s := Exec(c, Start(now), before);
             && Enabled(c, s, charge) && Charges(s, charge, id)
             && s.holders[charge.h].queue[0].delivery.attempts + 1 < c.maxAttempts
             && var z := Apply(c, s, charge);
                && IsRun(c, z, since) && Unsettled(c, z, since, id)
                && Enabled(c, Exec(c, z, since), claim) && claim.Claim? && id in claim.ids
    ensures var failed := Exec(c, Start(now), before).holders[charge.h].queue[0].delivery.attempts;
            var rung := Max(0, Min(c.base * Pow2(Max(failed, 0)), c.cap));
            && claim.stamp >= charge.at + rung / 2
            && (charge.draw.None? ==> claim.stamp >= charge.at + rung)
  {
    EveryRunKeepsInv(c, Start(now), before);
    var s := Exec(c, Start(now), before);
    var z := Apply(c, s, charge);
    ChargeWaitsItsRung(c, s, charge, id);
    StepKeepsInv(c, s, charge);
    RunKeepsDue(c, z, since, id);
    PicksDueByColumns(Exec(c, z, since).rows, c.batchSize, claim.stamp, claim.locked, claim.ids);
  }
}
