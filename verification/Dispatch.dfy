/** The dispatch cycle, the stalled-row sweep and the drain loop, as the code
    runs them: statement by statement, with anything else happening in between.
    Each is shown to be a run of the protocol, so what holds in every run holds
    of them. */
module Dispatch {
  import opened Wrappers
  import opened Utf8
  import opened Backoff
  import opened NotificationDomain
  import opened Outbox
  import opened OutboxProtocol
  import opened OutboxTiming
  import opened OutboxDrain

  /** What a holder did with its copies, in order: each settled or given up. */
  function Handled(steps: seq<Step>, h: nat): seq<Step> {
    if steps == [] then [] else HandledIn(steps[0], h) + Handled(steps[1..], h)
  }

  function HandledIn(step: Step, h: nat): seq<Step> {
    if (step.Settle? || step.Drop?) && step.h == h then [step] else []
  }

  lemma {:induction false} HandledAdds(a: seq<Step>, b: seq<Step>, h: nat)
    ensures Handled(a + b, h) == Handled(a, h) + Handled(b, h)
  {
    if a == [] {
      assert a + b == b;
    } else {
      assert (a + b)[1..] == a[1..] + b;
      HandledAdds(a[1..], b, h);
    }
  }

  function Settles(own: seq<Step>): nat {
    if own == [] then 0 else Settles(own[..|own| - 1]) + if own[|own| - 1].Settle? then 1 else 0
  }

  lemma {:induction false} SettlesAdd(a: seq<Step>, b: seq<Step>)
    ensures Settles(a + b) == Settles(a) + Settles(b)
  {
    if b == [] {
      assert a + b == a;
    } else {
      assert (a + b)[..|a + b| - 1] == a + b[..|b| - 1];
      SettlesAdd(a, b[..|b| - 1]);
    }
  }

  /** The copies of a holder that were settled, as opposed to given up. */
  function SettledBy(steps: seq<Step>, h: nat): nat {
    Settles(Handled(steps, h))
  }

  predicate Touches(step: Step, h: nat) {
    match step
    case Claim(g, _, _, _) => g == h
    case Sweep(g, _, _, _) => g == h
    case Settle(g, _, _, _) => g == h
    case Drop(g) => g == h
    case Crash(g) => g == h
    case _ => false
  }

  predicate LeaveAlone(steps: seq<Step>, h: nat) {
    forall i :: 0 <= i < |steps| ==> !Touches(steps[i], h)
  }

  /** A holder's copies are private: no step of anyone else reaches them. */
  lemma {:induction false} HoldersArePrivate(c: Config, s: State, steps: seq<Step>, h: nat)
    requires IsRun(c, s, steps) && LeaveAlone(steps, h)
    ensures var z := Exec(c, s, steps);
            (h in z.holders <==> h in s.holders) && (h in s.holders ==> z.holders[h] == s.holders[h])
    ensures Handled(steps, h) == []
    decreases |steps|
  {
    if steps != [] {
      assert !Touches(steps[0], h);
      HoldersArePrivate(c, Apply(c, s, steps[0]), steps[1..], h);
    }
  }

  /** Everything the code shares: the repository, the clock, and the rest of
      the world, which acts between any two statements. */
  class World {
    const cfg: Config
    const timing: Timing
    /** Whether producers are silent. */
    const quiet: bool
    const repo: NotificationRepo
    var state: State
    ghost const origin: Time
    ghost var history: seq<Step>

    constructor (cfg: Config, timing: Timing, quiet: bool, now: Time)
      ensures Valid() && state == Start(now) && history == []
      ensures this.cfg == cfg && this.timing == timing && this.quiet == quiet
      ensures fresh(repo)
    {
      this.cfg, this.timing, this.quiet := cfg, timing, quiet;
      repo := new NotificationRepo();
      state := Start(now);
      origin := now;
      history := [];
    }

    ghost predicate Recorded()
      reads this
    {
      TimelyRun(cfg, timing, Start(origin), history) && Exec(cfg, Start(origin), history) == state
    }

    ghost predicate Valid()
      reads this, repo
    {
      Recorded() && state.rows == repo.rows
    }

    /** History only grows; in a quiet world nothing is enqueued meanwhile. */
    ghost predicate Since(past: seq<Step>, from: Time)
      reads this
    {
      && past <= history
      && (quiet ==> Enqueues(history) == Enqueues(past))
      && TotalClaimed(past) <= TotalClaimed(history)
      && from <= state.now
    }

    twostate predicate Continues()
      reads this
    {
      Since(old(history), old(state.now))
    }

    /** The copies of batch h still in hand are these objects, just picked up. */
    ghost predicate InHand(h: nat, role: Role, batch: seq<Notification>)
      reads this, batch
    {
      && h in state.holders
      && state.holders[h].role == role && state.holders[h].stamp <= state.now == state.holders[h].progress
      && |state.holders[h].queue| == |batch|
      && forall k :: 0 <= k < |batch| ==>
           batch[k].status.Sending? && batch[k].Value() == state.holders[h].queue[k]
    }

    /** Batch h is what it was, less its first i copies. */
    ghost predicate HandsOn(h: nat, hd: Holder, i: nat)
      requires i <= |hd.queue|
      reads this
    {
      && hd.stamp <= state.now
      && h in state.holders && state.holders[h] == hd.(queue := hd.queue[i..], progress := state.now)
    }

    /** The first copy of batch h is off it, by this step. */
    twostate predicate PoppedOff(h: nat, step: Step)
      requires old(h in state.holders && state.holders[h].queue != [])
      reads this
    {
      && h in state.holders
      && state.holders[h] ==
         old(state.holders[h]).(queue := old(state.holders[h].queue)[1..], progress := state.now)
      && Handled(history, h) == Handled(old(history), h) + [step]
    }

    /** One step of this code, whose effect on the table has just happened. */
    method Record(step: Step)
      requires Recorded() && Enabled(cfg, state, step) && Timely(timing, state, step)
      requires quiet ==> !step.Enqueue?
      modifies this`state, this`history
      ensures Recorded() && Continues()
      ensures history == old(history) + [step]
      ensures state == Apply(cfg, old(state), step)
      ensures TotalClaimed(history) == TotalClaimed(old(history)) + (if step.Claim? then |step.ids| else 0)
      ensures forall h :: Handled(history, h) == Handled(old(history), h) + HandledIn(step, h)
    {
      assert [step][0] == step && [step][1..] == [];
      assert TimelyRun(cfg, timing, Apply(cfg, state, step), []);
      TimelyRunsCompose(cfg, timing, Start(origin), history, [step]);
      TotalsAdd(history, [step]);
      forall h
        ensures Handled(history + [step], h) == Handled(history, h) + HandledIn(step, h)
      {
        HandledAdds(history, [step], h);
        assert Handled([step], h) == HandledIn(step, h) + Handled([], h);
      }
      state := Apply(cfg, state, step);
      history := history + [step];
    }

    /** Whatever the other workers, sweepers and producers do before `until`,
        without touching the batch of holder `mine`. */
    method Others(mine: nat, until: Time)
      requires Valid() && state.now <= until
      modifies this, repo
      ensures Valid() && Continues() && state.now <= until
      ensures mine in state.holders <==> mine in old(state.holders)
      ensures mine in state.holders ==> state.holders[mine] == old(state.holders[mine])
      ensures Handled(history, mine) == Handled(old(history), mine)
    {
      var steps: seq<Step> := *;
      if TimelyRun(cfg, timing, state, steps) && LeaveAlone(steps, mine) && (quiet ==> NothingEnqueued(steps)) {
        var z := Exec(cfg, state, steps);
        if z.now <= until {
          TimelyRunsCompose(cfg, timing, Start(origin), history, steps);
          TotalsAdd(history, steps);
          NoEnqueues(steps);
          HandledAdds(history, steps, mine);
          HoldersArePrivate(cfg, state, steps, mine);
          TimeAdvances(cfg, state, steps);
          state := z;
          repo.rows := z.rows;
          history := history + steps;
        }
      }
    }

    /** The answer is lost, and with it the copies. */
    method GiveUp(h: nat)
      requires Valid() && h in state.holders
      modifies this`state, this`history
      ensures Valid() && Continues() && h !in state.holders && state.rows == old(state.rows)
      ensures Handled(history, h) == Handled(old(history), h)
    {
      Record(Crash(h));
    }

    /** A held copy is of a row that exists: no save misses. */
    lemma HeldRowExists(h: nat)
      requires Valid() && Configured(cfg) && Holding(state, h)
      ensures state.holders[h].queue[0].envelope.id in repo.rows
    {
      EveryRunKeepsInv(cfg, Start(origin), history);
      assert CopyOk(cfg, state.rows, state.holders[h].queue[0]);
    }

    /** The row holds the copy, and is out of sending. */
    ghost predicate Stores(n: Notification)
      reads n, repo
    {
      && n.envelope.id in repo.rows
      && DeliveryOf(repo.rows[n.envelope.id]) == n.Progress()
      && !n.status.Sending?
    }

    /** Save, and the protocol step it amounts to: a save that arrives settles
        the copy, one that does not gives it up. */
    method Store(n: Notification, step: Step, fault: Fault) returns (ok: bool)
      requires Valid() && Configured(cfg)
      requires step.Settle? && Enabled(cfg, state, step) && Timely(timing, state, step)
      requires SettledCopy(cfg, state.holders[step.h].queue[0], step.outcome, step.at, step.draw) == Ok(n.Value())
      modifies this, repo
      ensures Valid() && Continues() && PoppedOff(step.h, if fault.NotSent? then Drop(step.h) else step)
      ensures ok <==> fault.Works?
      ensures ok ==> n.envelope.id in repo.rows && DeliveryOf(repo.rows[n.envelope.id]) == n.Progress()
    {
      HeldRowExists(step.h);
      var saved := repo.Save(n, fault);
      if fault.NotSent? {
        Record(Drop(step.h));
      } else {
        Record(step);
      }
      ok := saved.Ok?;
    }

    /** The objects are of these rows, in order. */
    ghost predicate AreRows(ids: seq<Id>, batch: seq<Notification>)
      reads repo
    {
      && |ids| == |batch|
      && forall i :: 0 <= i < |ids| ==> ids[i] in repo.rows && repo.rows[ids[i]].channel == batch[i].envelope.channel
    }

    /** What a claim did to the holders: it took these rows, all of them sending. */
    ghost predicate Took(s: State, h: nat, role: Role, stamp: Time, ids: seq<Id>, z: State)
      requires h !in s.holders
    {
      && (forall id :: id in ids ==> id in z.rows && z.rows[id].status.Sending?)
      && z.now == s.now
      && z.holders == s.holders[h := Holder(role, stamp, Returned(z.rows, ids), s.now)]
    }

    /** The objects that come back from the statement are the copies taken. */
    lemma TookTheseObjects(s: State, h: nat, role: Role, stamp: Time, ids: seq<Id>, batch: seq<Notification>)
      requires h !in s.holders && stamp <= s.now && Took(s, h, role, stamp, ids, state) && state.rows == repo.rows
      requires |batch| == |ids|
      requires forall i :: 0 <= i < |ids| ==> ids[i] in repo.rows && batch[i].Value() == FromRow(repo.rows[ids[i]])
      ensures InHand(h, role, batch) && AreRows(ids, batch) && state.holders[h].stamp == stamp
    {
      forall i | 0 <= i < |ids|
        ensures batch[i].status.Sending? && batch[i].Value() == state.holders[h].queue[i]
        ensures repo.rows[ids[i]].channel == batch[i].envelope.channel
      {
        assert ids[i] in ids;
        assert batch[i].Value().delivery.status == repo.rows[ids[i]].status;
      }
    }

    /** The protocol step of a claim whose effect on the table has just happened. */
    method RecordClaim(h: nat, stamp: Time, locked: set<Id>, ids: seq<Id>)
      requires Recorded() && h !in state.holders && stamp <= state.now <= stamp + timing.claimLatency
      requires PicksDue(state.rows, cfg.batchSize, stamp, locked, ids)
      modifies this`state, this`history
      ensures Recorded() && Continues() && Took(old(state), h, Worker, stamp, ids, state)
      ensures state.rows == Claimed(old(state.rows), ids, stamp)
      ensures history == old(history) + [Claim(h, stamp, locked, ids)]
      ensures TotalClaimed(history) == TotalClaimed(old(history)) + |ids|
      ensures Handled(history, h) == Handled(old(history), h)
    {
      assert forall id :: id in ids ==> id in Due(state.rows, stamp);
      Record(Claim(h, stamp, locked, ids));
    }

    method RecordSweep(h: nat, now: Time, locked: set<Id>, ids: seq<Id>)
      requires Recorded() && h !in state.holders && now <= state.now <= now + timing.claimLatency
      requires PicksStuck(state.rows, cfg.batchSize, now - cfg.stalledAfter, locked, ids)
      modifies this`state, this`history
      ensures Recorded() && Continues() && Took(old(state), h, Sweeper, now, ids, state)
      ensures state.rows == Restamped(old(state.rows), ids, now)
      ensures history == old(history) + [Step.Sweep(h, now, locked, ids)]
      ensures Handled(history, h) == Handled(old(history), h)
    {
      StuckAreSending(state.rows, cfg.batchSize, now - cfg.stalledAfter, locked, ids);
      Record(Step.Sweep(h, now, locked, ids));
    }

    /** A claim under an earlier clock reading. If its answer is lost, so are
        the copies: nobody holds the rows it marked. */
    method TakeDue(h: nat, stamp: Time, fault: Fault) returns (r: Result<seq<Notification>, Error>)
      requires Valid() && Configured(cfg) && h !in state.holders
      requires stamp <= state.now <= stamp + timing.claimLatency
      modifies this, repo
      ensures Valid() && Continues()
      ensures r.Ok? <==> fault.Works?
      ensures r.Err? ==> h !in state.holders
      ensures r.Ok? ==> fresh(r.value) && Distinct(r.value) && |r.value| <= cfg.batchSize && InHand(h, Worker, r.value)
      ensures r.Ok? ==> TotalClaimed(history) == TotalClaimed(old(history)) + |r.value|
      ensures r.Ok? ==>
                && |history| == |old(history)| + 1 && IsClaim(history[|old(history)|], h, stamp, |r.value|)
                && AreRows(history[|old(history)|].ids, r.value)
      ensures Handled(history, h) == Handled(old(history), h)
    {
      var locked: set<Id> := *;
      var ids: seq<Id>;
      r, ids := repo.ClaimBatch(cfg.batchSize, stamp, locked, fault);
      if fault.NotSent? {
        return;
      }
      ghost var before := state;
      RecordClaim(h, stamp, locked, ids);
      if r.Err? {
        GiveUp(h);
        return;
      }
      TookTheseObjects(before, h, Worker, stamp, ids, r.value);
    }

    /** The sweep's statement arrives, and the step it amounts to. */
    method SendSweep(h: nat, now: Time, fault: Fault) returns (r: Result<seq<Notification>, Error>, ids: seq<Id>)
      requires Valid() && Configured(cfg) && h !in state.holders && !fault.NotSent?
      requires now <= state.now <= now + timing.claimLatency
      modifies this, repo
      ensures Valid() && Continues() && Took(old(state), h, Sweeper, now, ids, state)
      ensures |history| == |old(history)| + 1 && IsSweep(history[|old(history)|], h, now, |ids|)
      ensures Handled(history, h) == Handled(old(history), h)
      ensures (r.Ok? <==> fault.Works?) && |ids| <= cfg.batchSize
      ensures r.Ok? ==> fresh(r.value) && Distinct(r.value) && |r.value| == |ids|
      ensures r.Ok? ==> forall i :: 0 <= i < |ids| ==>
                          ids[i] in repo.rows && r.value[i].Value() == FromRow(repo.rows[ids[i]])
    {
      var locked: set<Id> := *;
      r, ids := repo.ClaimStalled(cfg.batchSize, now - cfg.stalledAfter, now, locked, fault);
      RecordSweep(h, now, locked, ids);
    }

    /** The sweep's claim, of rows claimed before its stall window began. */
    method TakeStalled(h: nat, now: Time, fault: Fault) returns (r: Result<seq<Notification>, Error>)
      requires Valid() && Configured(cfg) && h !in state.holders
      requires now <= state.now <= now + timing.claimLatency
      modifies this, repo
      ensures Valid() && Continues()
      ensures r.Ok? <==> fault.Works?
      ensures r.Err? ==> h !in state.holders
      ensures r.Ok? ==> fresh(r.value) && Distinct(r.value) && |r.value| <= cfg.batchSize && InHand(h, Sweeper, r.value)
      ensures r.Ok? ==> state.holders[h].stamp == now
      ensures r.Ok? ==> |history| == |old(history)| + 1 && IsSweep(history[|old(history)|], h, now, |r.value|)
      ensures Handled(history, h) == Handled(old(history), h)
    {
      if fault.NotSent? {
        return Err(Unavailable);
      }
      ghost var before := state;
      var ids;
      r, ids := SendSweep(h, now, fault);
      if r.Err? {
        GiveUp(h);
        return;
      }
      TookTheseObjects(before, h, Sweeper, now, ids, r.value);
    }
  }

  predicate IsClaim(step: Step, h: nat, stamp: Time, taken: nat) {
    step.Claim? && step.h == h && step.stamp == stamp && |step.ids| == taken
  }

  predicate IsSweep(step: Step, h: nat, stamp: Time, taken: nat) {
    step.Sweep? && step.h == h && step.stamp == stamp && |step.ids| == taken
  }

  /** What a recorded claim took was a pick of what was due, or stalled, in the
      table it found. */
  lemma RecordedPicks(c: Config, s: State, steps: seq<Step>, i: nat)
    requires IsRun(c, s, steps) && i < |steps|
    ensures IsRun(c, s, steps[..i])
    ensures var z := Exec(c, s, steps[..i]); var step := steps[i];
            && (step.Claim? ==> PicksDue(z.rows, c.batchSize, step.stamp, step.locked, step.ids))
            && (step.Sweep? ==>
                  PicksStuck(z.rows, c.batchSize, step.stamp - c.stalledAfter, step.locked, step.ids))
  {
    PrefixIsRun(c, s, steps, i);
    var before, after := steps[..i], steps[i..];
    assert before + after == steps && after[0] == steps[i];
    RunsCompose(c, s, before, after);
    FirstIsEnabled(c, Exec(c, s, before), after);
  }

  lemma FirstIsEnabled(c: Config, s: State, steps: seq<Step>)
    requires IsRun(c, s, steps) && steps != []
    ensures Enabled(c, s, steps[0])
  {
  }

  lemma {:induction false} PrefixIsRun(c: Config, s: State, steps: seq<Step>, i: nat)
    requires IsRun(c, s, steps) && i <= |steps|
    ensures IsRun(c, s, steps[..i])
    decreases i
  {
    if i > 0 {
      PrefixIsRun(c, Apply(c, s, steps[0]), steps[1..], i - 1);
      assert steps[..i][0] == steps[0] && steps[..i][1..] == steps[1..][..i - 1];
    }
  }

  lemma {:induction false} TimeAdvances(c: Config, s: State, steps: seq<Step>)
    requires IsRun(c, s, steps)
    ensures s.now <= Exec(c, s, steps).now
    decreases |steps|
  {
    if steps != [] {
      TimeAdvances(c, Apply(c, s, steps[0]), steps[1..]);
    }
  }

  /** How rendering and sending one message can go. */
  datatype Attempt =
    | RenderFailed(reason: Bytes)
    | SendFailed(reason: Bytes, retryable: bool)
    | SendOk
    | Panicked(reason: Bytes)

  /** What happens to one claimed row: the delivery, a panic below it, the
      jitter drawn, and the save. */
  datatype Turn = Turn(attempt: Attempt, panicked: bool, draw: Option<real>, save: Fault)
  {
    /** The row is settled, whether or not anybody hears of it. */
    predicate Arrives() {
      !panicked && !save.NotSent?
    }

    predicate Lands() {
      !panicked && save.Works?
    }
  }

  /** How many of the first n rows are settled. */
  function Arrived(turns: nat -> Turn, n: nat): (r: nat)
    ensures r <= n && (AllLand(turns, n) ==> r == n)
  {
    if n == 0 then 0 else Arrived(turns, n - 1) + if turns(n - 1).Arrives() then 1 else 0
  }

  function AllLand(turns: nat -> Turn, n: nat): (r: bool)
    ensures r <==> forall i: nat :: i < n ==> turns(i).Lands()
  {
    n == 0 || (AllLand(turns, n - 1) && turns(n - 1).Lands())
  }

  class Service {
    const world: World
    /** The channels with a registered sender. */
    const senders: set<Channel>

    constructor (world: World, senders: set<Channel>)
      ensures this.world == world && this.senders == senders
    {
      this.world, this.senders := world, senders;
    }

    /** A channel nobody can deliver and a message nobody can render are never
        retried, whatever the sender would have said; a panic always is, and a
        refused send is as the sender classified it. */
    predicate Verdict(ch: Channel, attempt: Attempt, outcome: Outcome) {
      && !outcome.Stalled?
      && (ch !in senders ==> outcome.NonRetryable?)
      && (ch in senders ==>
            && (outcome.Delivered? <==> attempt.SendOk?)
            && (outcome.NonRetryable? <==> attempt.RenderFailed? || (attempt.SendFailed? && !attempt.retryable))
            && (!outcome.Delivered? ==> outcome.reason == attempt.reason))
    }

    method AttemptDelivery(n: Notification, attempt: Attempt) returns (outcome: Outcome)
      ensures Verdict(n.envelope.channel, attempt, outcome)
      ensures outcome.Delivered? <==> n.envelope.channel in senders && attempt.SendOk?
      ensures outcome.Retryable? <==>
                && n.envelope.channel in senders
                && (attempt.Panicked? || (attempt.SendFailed? && attempt.retryable))
      ensures outcome.NonRetryable? <==>
                || n.envelope.channel !in senders
                || attempt.RenderFailed? || (attempt.SendFailed? && !attempt.retryable)
      ensures n.envelope.channel in senders && !outcome.Delivered? ==> outcome.reason == attempt.reason
    {
      if n.envelope.channel !in senders {
        var why: Bytes := *;
        return NonRetryable(why);
      }
      match attempt
      case RenderFailed(reason) => return NonRetryable(reason);
      case SendFailed(reason, retryable) => return if retryable then Retryable(reason) else NonRetryable(reason);
      case SendOk => return Delivered;
      case Panicked(reason) => return Retryable(reason);
    }

    /** The state change an outcome calls for, on a claimed copy. */
    method Transition(n: Notification, outcome: Outcome, at: Time, draw: Option<real>)
      requires n.status.Sending? && !outcome.Stalled?
      modifies n
      ensures SettledCopy(world.cfg, old(n.Value()), outcome, at, draw) == Ok(n.Value())
      ensures IsSettled(world.cfg, old(n.Value()), outcome, at, draw, n.Value())
      ensures outcome.Retryable? && old(n.attempts) + 1 < world.cfg.maxAttempts ==>
                var rung := Max(0, Min(world.cfg.base * Pow2(Max(old(n.attempts), 0)), world.cfg.cap));
                && n.status == Pending && n.attempts == old(n.attempts) + 1
                && rung / 2 <= n.nextAttemptAt - at <= rung
                && (draw.None? ==> n.nextAttemptAt == at + rung)
                && (draw.Some? && rung > 0 ==> n.nextAttemptAt < at + rung)
      ensures !n.status.Sending?
    {
      SettledCopyIsSettled(world.cfg, n.Value(), outcome, at, draw);
      var r: Result<(), Error>;
      match outcome {
        case Delivered =>
          r := n.MarkSent(at);
        case NonRetryable(reason) =>
          r := n.MarkDead(reason);
        case Retryable(reason) =>
          var retryAfter := Jittered(n.attempts, world.cfg.base, world.cfg.cap, draw);
          r := n.RecordFailure(at, retryAfter, world.cfg.maxAttempts, reason);
      }
    }

    /** The step that takes a copy off its batch answers its own turn: given up,
        or settled as the verdict on its own attempt has it, at an instant of the
        settle, with the jitter drawn for it. */
    predicate Answers(step: Step, ch: Channel, turn: Turn, h: nat, from: Time, to: Time) {
      if !turn.Arrives() then step == Drop(h)
      else
        && step.Settle? && step.h == h && step.draw == turn.draw
        && from <= step.at <= to && Verdict(ch, turn.attempt, step.outcome)
    }

    /** Delivers the first copy of batch h and writes the outcome back. The copy
        is off the batch afterwards, whatever happened; ok means it was saved,
        and it is unless something below panics or the save does not work. */
    method Settle(n: Notification, h: nat, turn: Turn) returns (ok: bool, ghost step: Step)
      requires world.Valid() && Configured(world.cfg) && Holding(world.state, h)
      requires world.state.holders[h].role.Worker? && world.state.holders[h].queue[0] == n.Value()
      requires n.status.Sending? && world.state.now == world.state.holders[h].progress
      modifies n, world, world.repo
      ensures world.Valid() && world.Continues() && world.PoppedOff(h, step)
      ensures Answers(step, n.envelope.channel, turn, h, old(world.state.now), world.state.now)
      ensures turn.Arrives() ==>
                && SettledCopy(world.cfg, old(n.Value()), step.outcome, step.at, step.draw) == Ok(n.Value())
                && IsSettled(world.cfg, old(n.Value()), step.outcome, step.at, turn.draw, n.Value())
      ensures ok <==> !turn.panicked && turn.save.Works?
      ensures ok ==> world.Stores(n)
    {
      var until := world.state.now + world.timing.settleTime;
      var outcome := AttemptDelivery(n, turn.attempt);
      world.Others(h, until);
      var at := world.state.now;
      if turn.panicked {
        step := Drop(h);
        world.Record(Drop(h));
        return false, step;
      }
      ghost var copy := n.Value();
      Transition(n, outcome, at, turn.draw);
      ghost var settled := n.Value();
      world.Others(h, until);
      step := if turn.save.NotSent? then Drop(h) else Step.Settle(h, outcome, at, turn.draw);
      ok := world.Store(n, Step.Settle(h, outcome, at, turn.draw), turn.save);
      assert SettledCopy(world.cfg, copy, outcome, at, turn.draw) == Ok(settled) && n.Value() == settled;
    }

    /** One cycle. It reports the rows it claimed whatever became of them, and
        leaves none of them in hand. A claim that works takes a batch of what is
        due, and each of its rows is answered for by the step of its own turn;
        `failed` is exactly the infrastructure's failures, and without one every
        row that was claimed is settled. */
    method DispatchBatch(h: nat, claim: Fault, turns: nat -> Turn)
      returns (claimed: nat, failed: bool, ghost at: nat, ghost own: seq<Step>)
      requires world.Valid() && Configured(world.cfg) && h !in world.state.holders
      modifies world, world.repo
      ensures world.Valid() && world.Continues()
      ensures h in world.state.holders ==> world.state.holders[h].queue == []
      ensures claimed <= world.cfg.batchSize
      ensures TotalClaimed(world.history) >= TotalClaimed(old(world.history)) + claimed
      ensures claim.Works? ==>
                && |old(world.history)| <= at < |world.history|
                && IsClaim(world.history[at], h, old(world.state.now), claimed)
                && forall i :: 0 <= i < claimed ==>
                     Answered(own, i, world.history[at].ids[i], turns(i), h, old(world.state.now), world.state.now)
      ensures |own| == claimed && Handled(world.history, h) == Handled(old(world.history), h) + own
      ensures !claim.Works? ==> claimed == 0
      ensures failed <==> !claim.Works? || !AllLand(turns, claimed)
      ensures SettledBy(world.history, h) == SettledBy(old(world.history), h) + Arrived(turns, claimed)
    {
      var r;
      r, at := TakeBatch(h, claim);
      if r.Err? {
        claimed, failed, own := 0, true, [];
        return;
      }
      ghost var past, rows, from := world.history, world.repo.rows, world.state.now;
      claimed := |r.value|;
      failed, own := SettleAll(r.value, h, turns);
      RowsCarry(world.cfg, world.timing, world.origin, past, world.history);
      RowsAreAnswered(past[at].ids, rows, own, r.value, turns, h, old(world.state.now), from, world.state.now);
      SettlesAdd(Handled(past, h), own);
      ArrivedSettle(own, turns);
    }

    /** The claim of a cycle, under the clock reading of its start. */
    method TakeBatch(h: nat, claim: Fault) returns (r: Result<seq<Notification>, Error>, ghost at: nat)
      requires world.Valid() && Configured(world.cfg) && h !in world.state.holders
      modifies world, world.repo
      ensures world.Valid() && world.Continues()
      ensures r.Ok? <==> claim.Works?
      ensures r.Err? ==> h !in world.state.holders
      ensures r.Ok? ==> fresh(r.value) && Distinct(r.value) && |r.value| <= world.cfg.batchSize
      ensures r.Ok? ==> world.InHand(h, Worker, r.value)
      ensures r.Ok? ==> TotalClaimed(world.history) >= TotalClaimed(old(world.history)) + |r.value|
      ensures r.Ok? ==>
                && |old(world.history)| <= at < |world.history|
                && IsClaim(world.history[at], h, old(world.state.now), |r.value|)
                && world.AreRows(world.history[at].ids, r.value)
      ensures Handled(world.history, h) == Handled(old(world.history), h)
    {
      var stamp := world.state.now;
      world.Others(h, stamp + world.timing.claimLatency);
      at := |world.history|;
      r := world.TakeDue(h, stamp, claim);
    }

    lemma RowsAreAnswered(
      ids: seq<Id>, rows: Table, own: seq<Step>, batch: seq<Notification>, turns: nat -> Turn, h: nat,
      start: Time, from: Time, to: Time)
      requires |ids| == |batch| == |own| && start <= from && AllAnswered(own, batch, turns, h, from, to)
      requires forall i :: 0 <= i < |ids| ==> ids[i] in rows && rows[ids[i]].channel == batch[i].envelope.channel
      requires Carries(rows, world.repo.rows)
      ensures forall i :: 0 <= i < |ids| ==> Answered(own, i, ids[i], turns(i), h, start, to)
    {
      forall i | 0 <= i < |ids|
        ensures Answered(own, i, ids[i], turns(i), h, start, to)
      {
        assert EnvelopeOf(world.repo.rows[ids[i]]).channel == EnvelopeOf(rows[ids[i]]).channel;
      }
    }

    /** The row's own step is the answer to its turn. */
    ghost predicate Answered(own: seq<Step>, i: nat, id: Id, turn: Turn, h: nat, from: Time, to: Time)
      reads world, world.repo
    {
      i < |own| && id in world.repo.rows && Answers(own[i], world.repo.rows[id].channel, turn, h, from, to)
    }

    lemma {:induction false} ArrivedSettle(own: seq<Step>, turns: nat -> Turn)
      requires forall i :: 0 <= i < |own| ==> (own[i].Settle? <==> turns(i).Arrives())
      ensures Settles(own) == Arrived(turns, |own|)
    {
      if own != [] {
        ArrivedSettle(own[..|own| - 1], turns);
      }
    }

    /** The loop over a batch: one row that fails costs that row. */
    method SettleAll(batch: seq<Notification>, h: nat, turns: nat -> Turn) returns (failed: bool, ghost own: seq<Step>)
      requires world.Valid() && Configured(world.cfg) && world.InHand(h, Worker, batch) && Distinct(batch)
      modifies batch, world, world.repo
      ensures world.Valid() && world.Continues()
      ensures h in world.state.holders && world.state.holders[h].queue == []
      ensures failed <==> !AllLand(turns, |batch|)
      ensures |own| == |batch| && Handled(world.history, h) == Handled(old(world.history), h) + own
      ensures AllAnswered(own, batch, turns, h, old(world.state.now), world.state.now)
    {
      failed, own := false, [];
      ghost var hd, past, from := world.state.holders[h], world.history, world.state.now;
      assert hd.queue[|batch|..] == [];
      for i := 0 to |batch|
        invariant world.Valid() && world.Since(past, from)
        invariant world.HandsOn(h, hd, i) && Untouched(batch, hd.queue, i)
        invariant failed <==> !AllLand(turns, i)
        invariant |own| == i && Handled(world.history, h) == Handled(past, h) + own
        invariant AllAnswered(own, batch, turns, h, from, world.state.now)
      {
        failed, own := SettleNext(batch, i, h, hd, turns, failed, own, past, from);
      }
    }

    ghost predicate AllAnswered(
      own: seq<Step>, batch: seq<Notification>, turns: nat -> Turn, h: nat, from: Time, to: Time)
      requires |own| <= |batch|
    {
      forall i :: 0 <= i < |own| ==> Answers(own[i], batch[i].envelope.channel, turns(i), h, from, to)
    }

    lemma OneMoreAnswered(
      own: seq<Step>, step: Step, batch: seq<Notification>, turns: nat -> Turn, h: nat,
      from: Time, before: Time, to: Time)
      requires |own| < |batch| && from <= before <= to && AllAnswered(own, batch, turns, h, from, before)
      requires Answers(step, batch[|own|].envelope.channel, turns(|own|), h, before, to)
      ensures AllAnswered(own + [step], batch, turns, h, from, to)
    {
    }

    /** One turn of the loop. */
    method SettleNext(
      batch: seq<Notification>, i: nat, h: nat, ghost hd: Holder, turns: nat -> Turn, before: bool,
      ghost owned: seq<Step>, ghost past: seq<Step>, ghost from: Time)
      returns (failed: bool, ghost own: seq<Step>)
      requires world.Valid() && Configured(world.cfg) && Distinct(batch)
      requires |owned| == i < |batch| == |hd.queue| && hd.role.Worker? && (before <==> !AllLand(turns, i))
      requires world.HandsOn(h, hd, i) && Untouched(batch, hd.queue, i) && world.Since(past, from)
      requires Handled(world.history, h) == Handled(past, h) + owned
      requires AllAnswered(owned, batch, turns, h, from, world.state.now)
      modifies batch[i], world, world.repo
      ensures world.Valid() && world.Since(past, from)
      ensures world.HandsOn(h, hd, i + 1) && Untouched(batch, hd.queue, i + 1)
      ensures failed <==> !AllLand(turns, i + 1)
      ensures |own| == i + 1 && Handled(world.history, h) == Handled(past, h) + own
      ensures AllAnswered(own, batch, turns, h, from, world.state.now)
    {
      assert hd.queue[i..][0] == hd.queue[i] && hd.queue[i..][1..] == hd.queue[i + 1..];
      var ok;
      ghost var step, start := Drop(h), world.state.now;
      ok, step := Settle(batch[i], h, turns(i));
      OneMoreAnswered(owned, step, batch, turns, h, from, start, world.state.now);
      own := owned + [step];
      failed := before || !ok;
    }
  }

  /** A row is what it is, from any point of the history on. */
  lemma RowsCarry(c: Config, t: Timing, origin: Time, before: seq<Step>, after: seq<Step>)
    requires Configured(c) && before <= after
    requires TimelyRun(c, t, Start(origin), before) && TimelyRun(c, t, Start(origin), after)
    ensures Carries(Exec(c, Start(origin), before).rows, Exec(c, Start(origin), after).rows)
  {
    var rest := after[|before|..];
    assert before + rest == after;
    TimelyRunsCompose(c, t, Start(origin), before, rest);
    EveryRunKeepsInv(c, Start(origin), before);
    EveryRunKeepsInv(c, Exec(c, Start(origin), before), rest);
  }

  /** From the i-th on, the objects are still the copies that were claimed. */
  ghost predicate Untouched(batch: seq<Notification>, queue: seq<Entity>, i: nat)
    requires |batch| == |queue|
    reads batch
  {
    forall k :: i <= k < |batch| ==> batch[k].status.Sending? && batch[k].Value() == queue[k]
  }

  /** How the saves of a sweep go, and how long each recovered row waits. */
  datatype Rescue = Rescue(draw: Option<real>, save: Fault)

  function RescuesArrived(rescues: nat -> Rescue, taken: nat): (n: nat)
    ensures Rescued(rescues, taken) <= n <= taken
  {
    if taken == 0 then 0
    else RescuesArrived(rescues, taken - 1) + if rescues(taken - 1).save.NotSent? then 0 else 1
  }

  function Rescued(rescues: nat -> Rescue, taken: nat): (n: nat)
    ensures n <= taken
    ensures n == taken <==> forall i: nat :: i < taken ==> rescues(i).save.Works?
  {
    if taken == 0 then 0
    else Rescued(rescues, taken - 1) + if rescues(taken - 1).save.Works? then 1 else 0
  }

  class Dispatcher {
    const service: Service
    const world: World

    constructor (service: Service)
      ensures this.service == service && world == service.world
    {
      this.service, this.world := service, service.world;
    }

    /** The copy spent an attempt, and waits its own rung if it has one left. */
    ghost predicate Recovered(before: Entity, now: Time, draw: Option<real>, after: Entity) {
      SettledCopy(world.cfg, before, Outcome.Stalled, now, draw) == Ok(after)
    }

    /** The step that takes a stalled copy off the sweep: given up, or charged at
        the sweep's own clock reading with the jitter drawn for it. */
    function RescueStep(h: nat, now: Time, rescue: Rescue): Step {
      if rescue.save.NotSent? then Drop(h) else Step.Settle(h, Outcome.Stalled, now, rescue.draw)
    }

    /** Recovers one stalled row at the sweep's own clock reading. */
    method Recover(n: Notification, h: nat, now: Time, rescue: Rescue) returns (ok: bool)
      requires world.Valid() && Configured(world.cfg) && Holding(world.state, h)
      requires world.state.holders[h].role.Sweeper? && world.state.holders[h].queue[0] == n.Value()
      requires world.state.holders[h].stamp == now <= world.state.now
      requires n.status.Sending? && world.state.now == world.state.holders[h].progress
      modifies n, world, world.repo
      ensures world.Valid() && world.Continues() && world.PoppedOff(h, RescueStep(h, now, rescue))
      ensures ok <==> rescue.save.Works?
      ensures ok ==> world.Stores(n)
      ensures Recovered(old(n.Value()), now, rescue.draw, n.Value())
      ensures IsSettled(world.cfg, old(n.Value()), Outcome.Stalled, now, rescue.draw, n.Value())
      ensures old(n.attempts) + 1 < world.cfg.maxAttempts ==>
                var rung := Max(0, Min(world.cfg.base * Pow2(Max(old(n.attempts), 0)), world.cfg.cap));
                && n.status == Pending && n.attempts == old(n.attempts) + 1
                && rung / 2 <= n.nextAttemptAt - now <= rung
                && (rescue.draw.None? ==> n.nextAttemptAt == now + rung)
                && (rescue.draw.Some? && rung > 0 ==> n.nextAttemptAt < now + rung)
    {
      var retryAfter := Jittered(n.attempts, world.cfg.base, world.cfg.cap, rescue.draw);
      ghost var copy := n.Value();
      SettledCopyIsSettled(world.cfg, copy, Outcome.Stalled, now, rescue.draw);
      var r := n.RecoverStalled(now, retryAfter, world.cfg.maxAttempts);
      assert Recovered(copy, now, rescue.draw, n.Value());
      world.Others(h, world.state.now + world.timing.settleTime);
      ok := world.Store(n, Step.Settle(h, Outcome.Stalled, now, rescue.draw), rescue.save);
    }

    /** What a sweep does with the rows it took, in order. */
    function RescueSteps(h: nat, now: Time, rescues: nat -> Rescue, n: nat): (own: seq<Step>)
      ensures |own| == n && forall i :: 0 <= i < n ==> own[i] == RescueStep(h, now, rescues(i))
    {
      if n == 0 then [] else RescueSteps(h, now, rescues, n - 1) + [RescueStep(h, now, rescues(n - 1))]
    }

    lemma {:induction false} RescuesSettle(h: nat, now: Time, rescues: nat -> Rescue, n: nat)
      ensures Settles(RescueSteps(h, now, rescues, n)) == RescuesArrived(rescues, n)
    {
      if n > 0 {
        RescuesSettle(h, now, rescues, n - 1);
        var own := RescueSteps(h, now, rescues, n);
        assert own[..n - 1] == RescueSteps(h, now, rescues, n - 1);
      }
    }

    /** Recovers up to one batch of stalled rows. A claim that works takes a
        batch of what is stalled, and each of its rows is charged and saved, or
        given up, in turn; what is reported is the number of recoveries that
        were saved, and `failed` is exactly the infrastructure's failures. */
    method Sweep(h: nat, claim: Fault, rescues: nat -> Rescue) returns (recovered: nat, failed: bool, ghost taken: nat)
      requires world.Valid() && Configured(world.cfg) && h !in world.state.holders
      modifies world, world.repo
      ensures world.Valid() && world.Continues()
      ensures h in world.state.holders ==> world.state.holders[h].queue == []
      ensures taken <= world.cfg.batchSize
      ensures claim.Works? ==>
                exists i :: |old(world.history)| <= i < |world.history|
                            && IsSweep(world.history[i], h, old(world.state.now), taken)
      ensures !claim.Works? ==> taken == 0
      ensures Handled(world.history, h) ==
              Handled(old(world.history), h) + RescueSteps(h, old(world.state.now), rescues, taken)
      ensures recovered == Rescued(rescues, taken)
      ensures failed <==> !claim.Works? || recovered < taken
      ensures SettledBy(world.history, h) == SettledBy(old(world.history), h) + RescuesArrived(rescues, taken)
    {
      var now := world.state.now;
      world.Others(h, now + world.timing.claimLatency);
      ghost var at := |world.history|;
      var r := world.TakeStalled(h, now, claim);
      if r.Err? {
        return 0, true, 0;
      }
      ghost var past := world.history;
      taken := |r.value|;
      recovered := RecoverAll(r.value, h, now, rescues);
      failed := recovered < |r.value|;
      assert world.history[at] == past[at];
      SettlesAdd(Handled(past, h), RescueSteps(h, now, rescues, taken));
      RescuesSettle(h, now, rescues, taken);
    }

    /** The loop over the stalled rows. */
    method RecoverAll(stalled: seq<Notification>, h: nat, now: Time, rescues: nat -> Rescue)
      returns (recovered: nat)
      requires world.Valid() && Configured(world.cfg) && world.InHand(h, Sweeper, stalled) && Distinct(stalled)
      requires world.state.holders[h].stamp == now
      modifies stalled, world, world.repo
      ensures world.Valid() && world.Continues()
      ensures h in world.state.holders && world.state.holders[h].queue == []
      ensures recovered == Rescued(rescues, |stalled|)
      ensures Handled(world.history, h) ==
              Handled(old(world.history), h) + RescueSteps(h, now, rescues, |stalled|)
    {
      recovered := 0;
      ghost var hd, past, from := world.state.holders[h], world.history, world.state.now;
      assert hd.queue[|stalled|..] == [];
      for i := 0 to |stalled|
        invariant world.Valid() && world.Since(past, from)
        invariant world.HandsOn(h, hd, i) && Untouched(stalled, hd.queue, i)
        invariant recovered == Rescued(rescues, i)
        invariant Handled(world.history, h) == Handled(past, h) + RescueSteps(h, now, rescues, i)
      {
        recovered := RecoverNext(stalled, i, h, hd, rescues, recovered, past, from);
      }
    }

    /** One turn of the loop. */
    method RecoverNext(
      stalled: seq<Notification>, i: nat, h: nat, ghost hd: Holder, rescues: nat -> Rescue, before: nat,
      ghost past: seq<Step>, ghost from: Time)
      returns (recovered: nat)
      requires world.Valid() && Configured(world.cfg) && Distinct(stalled)
      requires i < |stalled| == |hd.queue| && hd.role.Sweeper? && before == Rescued(rescues, i)
      requires world.HandsOn(h, hd, i) && Untouched(stalled, hd.queue, i) && world.Since(past, from)
      requires Handled(world.history, h) == Handled(past, h) + RescueSteps(h, hd.stamp, rescues, i)
      modifies stalled[i], world, world.repo
      ensures world.Valid() && world.Since(past, from)
      ensures world.HandsOn(h, hd, i + 1) && Untouched(stalled, hd.queue, i + 1)
      ensures recovered == Rescued(rescues, i + 1)
      ensures Handled(world.history, h) == Handled(past, h) + RescueSteps(h, hd.stamp, rescues, i + 1)
    {
      assert hd.queue[i..][0] == hd.queue[i] && hd.queue[i..][1..] == hd.queue[i + 1..];
      var ok := Recover(stalled[i], h, world.state.holders[h].stamp, rescues(i));
      recovered := before;
      if ok {
        recovered := recovered + 1;
      }
    }

    /** Cycles until a short batch or shutdown, and for no other reason: every
        cycle but the last claimed a full batch, whatever became of its rows.
        With nothing enqueued meanwhile and batches that fit the stall window it
        ends, however many other workers and sweepers run, however short the
        retry delays, and whichever saves fail: every full batch spends from the
        budget. */
    method Drain(claims: nat -> Fault, turns: nat -> nat -> Turn, shutdown: nat -> bool) returns (sizes: seq<nat>)
      requires world.Valid() && Configured(world.cfg)
      requires service.world == world && world.quiet && BatchFits(world.cfg, world.timing)
      modifies world, world.repo
      ensures world.Valid() && world.Continues()
      ensures Cycles(old(world.history), world.history, claims, sizes)
      ensures StopsThere(world.cfg, shutdown, sizes)
    {
      BudgetIsLeft();
      sizes := [];
      ghost var past, from := world.history, world.state.now;
      while true
        invariant world.Valid() && world.Since(past, from)
        invariant Budget(world.cfg, world.repo.rows) >= 0
        invariant Cycles(past, world.history, claims, sizes)
        invariant GoesOn(world.cfg, shutdown, sizes)
        decreases Budget(world.cfg, world.repo.rows)
      {
        ghost var before := world.history;
        var claimed := Cycle(claims(|sizes|), turns(|sizes|));
        OneMoreCycle(past, before, world.history, claims, sizes, claimed);
        NextCycle(world.cfg, shutdown, sizes, claimed);
        var stop := claimed == 0 || claimed < world.cfg.batchSize || shutdown(|sizes|);
        sizes := sizes + [claimed];
        if stop {
          return;
        }
      }
    }

    /** One cycle of the drain, under a holder of its own. */
    method Cycle(claim: Fault, turns: nat -> Turn) returns (claimed: nat)
      requires world.Valid() && Configured(world.cfg)
      requires service.world == world && world.quiet && BatchFits(world.cfg, world.timing)
      modifies world, world.repo
      ensures world.Valid() && world.Continues() && claimed <= world.cfg.batchSize
      ensures if claim.Works? then ClaimedSince(old(world.history), world.history, claimed) else claimed == 0
      ensures 0 <= Budget(world.cfg, world.repo.rows) <= Budget(world.cfg, old(world.repo.rows)) - claimed
    {
      var h := FreshHolder();
      ghost var past := world.history;
      var failed;
      ghost var at, own;
      claimed, failed, at, own := service.DispatchBatch(h, claim, turns);
      CycleSpends(world.cfg, world.timing, world.origin, past, world.history);
    }

    lemma BudgetIsLeft()
      requires world.Valid() && Configured(world.cfg)
      ensures Budget(world.cfg, world.repo.rows) >= 0
    {
      EveryRunKeepsInv(world.cfg, Start(world.origin), world.history);
      BudgetNonNegative(world.cfg, world.state.rows);
    }

    method FreshHolder() returns (h: nat)
      ensures h !in world.state.holders
    {
      h := 0;
      ghost var untried := world.state.holders.Keys;
      while h in world.state.holders
        invariant forall k: nat :: k in world.state.holders && k >= h ==> k in untried
        decreases untried
      {
        untried := untried - {h};
        h := h + 1;
      }
    }
  }

  /** Full batches and no shutdown so far. */
  predicate GoesOn(c: Config, shutdown: nat -> bool, sizes: seq<nat>) {
    forall k :: 0 <= k < |sizes| ==> sizes[k] == c.batchSize && !shutdown(k)
  }

  /** So up to the last cycle, which was short or met the shutdown. */
  predicate StopsThere(c: Config, shutdown: nat -> bool, sizes: seq<nat>) {
    && sizes != [] && GoesOn(c, shutdown, sizes[..|sizes| - 1])
    && (sizes[|sizes| - 1] < c.batchSize || shutdown(|sizes| - 1))
  }

  lemma NextCycle(c: Config, shutdown: nat -> bool, sizes: seq<nat>, claimed: nat)
    requires Configured(c) && GoesOn(c, shutdown, sizes) && claimed <= c.batchSize
    ensures if claimed < c.batchSize || shutdown(|sizes|) then StopsThere(c, shutdown, sizes + [claimed])
            else GoesOn(c, shutdown, sizes + [claimed])
  {
    assert (sizes + [claimed])[..|sizes|] == sizes;
  }

  /** Some claim in between took this many rows. */
  predicate ClaimedSince(past: seq<Step>, history: seq<Step>, taken: nat) {
    exists i :: |past| <= i < |history| && history[i].Claim? && |history[i].ids| == taken
  }

  /** The sizes of cycles are those of recorded claims; a claim that does not
      work is a cycle of none. */
  predicate Cycles(past: seq<Step>, history: seq<Step>, claims: nat -> Fault, sizes: seq<nat>) {
    forall k :: 0 <= k < |sizes| ==>
      if claims(k).Works? then ClaimedSince(past, history, sizes[k]) else sizes[k] == 0
  }

  lemma OneMoreCycle(
    past: seq<Step>, before: seq<Step>, after: seq<Step>, claims: nat -> Fault, sizes: seq<nat>, claimed: nat)
    requires past <= before <= after && Cycles(past, before, claims, sizes)
    requires if claims(|sizes|).Works? then ClaimedSince(before, after, claimed) else claimed == 0
    ensures Cycles(past, after, claims, sizes + [claimed])
  {
    var all := sizes + [claimed];
    forall k | 0 <= k < |all|
      ensures if claims(k).Works? then ClaimedSince(past, after, all[k]) else all[k] == 0
    {
      if claims(k).Works? && k < |sizes| {
        var i :| |past| <= i < |before| && before[i].Claim? && |before[i].ids| == sizes[k];
        assert after[i] == before[i];
      }
    }
  }

  /** A stretch of a quiet history spends at least what it claims. */
  lemma CycleSpends(c: Config, t: Timing, origin: Time, before: seq<Step>, after: seq<Step>)
    requires Configured(c) && BatchFits(c, t)
    requires before <= after && TimelyRun(c, t, Start(origin), before) && TimelyRun(c, t, Start(origin), after)
    requires Enqueues(after) == Enqueues(before)
    ensures 0 <= Budget(c, Exec(c, Start(origin), after).rows)
    ensures TotalClaimed(after) - TotalClaimed(before) + Budget(c, Exec(c, Start(origin), after).rows)
            <= Budget(c, Exec(c, Start(origin), before).rows)
  {
    var rest := after[|before|..];
    assert before + rest == after;
    TimelyRunsCompose(c, t, Start(origin), before, rest);
    TotalsAdd(before, rest);
    NoEnqueues(rest);
    EveryTimelyRunIsExclusive(c, t, Start(origin), before);
    ClaimsSpendTheBudget(c, t, Exec(c, Start(origin), before), rest);
  }
}
