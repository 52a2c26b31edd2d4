/** Why draining ends: with nothing enqueued meanwhile, every claim spends from
    a finite budget, even if every retry is due at once and saves keep failing. */
module OutboxDrain {
  import opened NotificationDomain
  import opened Outbox
  import opened OutboxProtocol
  import opened OutboxTiming

  ghost function Sum(m: map<Id, int>): int {
    if m == map[] then 0
    else
      var id :| id in m;
      m[id] + Sum(m - {id})
  }

  lemma {:induction false} SumSplits(m: map<Id, int>, id: Id)
    requires id in m
    ensures Sum(m) == m[id] + Sum(m - {id})
    decreases |m|
  {
    var first :| first in m && Sum(m) == m[first] + Sum(m - {first});
    if first != id {
      SumSplits(m - {first}, id);
      SumSplits(m - {id}, first);
      assert m - {first} - {id} == m - {id} - {first};
    }
  }

  /** A drop of one at each picked key shows up in the sum. */
  lemma {:induction false} SumDrops(m: map<Id, int>, n: map<Id, int>, picked: set<Id>)
    requires m.Keys == n.Keys && picked <= m.Keys
    requires forall id :: id in m ==> n[id] + (if id in picked then 1 else 0) <= m[id]
    ensures Sum(n) + |picked| <= Sum(m)
    decreases |m|
  {
    if m != map[] {
      var id :| id in m;
      SumSplits(m, id);
      SumSplits(n, id);
      SumDrops(m - {id}, n - {id}, picked - {id});
    } else {
      assert picked == {};
      assert n == map[];
    }
  }

  function AsSet(ids: seq<Id>): set<Id> {
    set id: Id | id in ids
  }

  lemma {:induction false} DistinctSize(ids: seq<Id>)
    requires Distinct(ids)
    ensures |AsSet(ids)| == |ids|
  {
    if ids != [] {
      var rest := ids[1..];
      DistinctSize(rest);
      assert ids == [ids[0]] + rest;
      assert AsSet(ids) == AsSet(rest) + {ids[0]};
      assert ids[0] !in AsSet(rest);
    }
  }

  ghost function Budget(c: Config, t: Table): int {
    Sum(map id | id in t :: ClaimsLeft(c, t[id]))
  }

  lemma {:induction false} SumNonNegative(m: map<Id, int>)
    requires forall id :: id in m ==> m[id] >= 0
    ensures Sum(m) >= 0
    decreases |m|
  {
    if m != map[] {
      var first :| first in m && Sum(m) == m[first] + Sum(m - {first});
      SumNonNegative(m - {first});
    }
  }

  lemma BudgetNonNegative(c: Config, t: Table)
    requires RowsOk(c, t)
    ensures Budget(c, t) >= 0
  {
    forall id | id in t
      ensures ClaimsLeft(c, t[id]) >= 0
    {
      assert RowOk(c, id, t[id]);
    }
    SumNonNegative(map id | id in t :: ClaimsLeft(c, t[id]));
  }

  /** How many rows the claims of a run took, together. */
  function TotalClaimed(steps: seq<Step>): nat {
    if steps == [] then 0
    else (if steps[0].Claim? then |steps[0].ids| else 0) + TotalClaimed(steps[1..])
  }

  predicate NothingEnqueued(steps: seq<Step>) {
    forall i :: 0 <= i < |steps| ==> !steps[i].Enqueue?
  }

  function Picked(step: Step): set<Id> {
    if step.Claim? then AsSet(step.ids) else {}
  }

  lemma PickedAreStored(c: Config, s: State, step: Step)
    requires Enabled(c, s, step)
    ensures Picked(step) <= s.rows.Keys
    ensures |Picked(step)| == TotalClaimed([step])
  {
    if step.Claim? {
      DistinctSize(step.ids);
      assert Picks(Due(s.rows, step.stamp), DueRank(s.rows), c.batchSize, step.locked, step.ids);
    }
  }

  lemma KeysStay(c: Config, s: State, step: Step)
    requires Enabled(c, s, step) && !step.Enqueue?
    ensures Apply(c, s, step).rows.Keys == s.rows.Keys
  {
  }

  lemma StepSpendsBudget(c: Config, t: Timing, s: State, step: Step)
    requires Configured(c) && BatchFits(c, t)
    requires TimedInv(c, t, s) && Enabled(c, s, step) && Timely(t, s, step) && !step.Enqueue?
    ensures TotalClaimed([step]) + Budget(c, Apply(c, s, step).rows) <= Budget(c, s.rows)
  {
    var u := Apply(c, s, step).rows;
    KeysStay(c, s, step);
    PickedAreStored(c, s, step);
    var m := map id | id in s.rows :: ClaimsLeft(c, s.rows[id]);
    var n := map id | id in u :: ClaimsLeft(c, u[id]);
    forall id | id in m
      ensures n[id] + (if id in Picked(step) then 1 else 0) <= m[id]
    {
      StepSpendsClaims(c, t, s, step, id);
    }
    SumDrops(m, n, Picked(step));
  }

  /** In any timely run without enqueues, all the claims of all the workers
      together take no more rows than the claims left at its start. */
  lemma {:induction false} ClaimsSpendTheBudget(c: Config, t: Timing, s: State, steps: seq<Step>)
    requires Configured(c) && BatchFits(c, t)
    requires TimedInv(c, t, s) && TimelyRun(c, t, s, steps) && NothingEnqueued(steps)
    ensures 0 <= Budget(c, Exec(c, s, steps).rows)
    ensures TotalClaimed(steps) + Budget(c, Exec(c, s, steps).rows) <= Budget(c, s.rows)
    decreases |steps|
  {
    if steps == [] {
      BudgetNonNegative(c, s.rows);
    } else {
      StepSpendsBudget(c, t, s, steps[0]);
      TimelyStepKeepsInv(c, t, s, steps[0]);
      ClaimsSpendTheBudget(c, t, Apply(c, s, steps[0]), steps[1..]);
    }
  }

  function Enqueues(steps: seq<Step>): nat {
    if steps == [] then 0 else (if steps[0].Enqueue? then 1 else 0) + Enqueues(steps[1..])
  }

  lemma {:induction false} NoEnqueues(steps: seq<Step>)
    ensures Enqueues(steps) == 0 <==> NothingEnqueued(steps)
  {
    if steps != [] {
      NoEnqueues(steps[1..]);
      assert forall i :: 0 < i < |steps| ==> steps[i] == steps[1..][i - 1];
      assert NothingEnqueued(steps) ==> forall i :: 0 <= i < |steps[1..]| ==> steps[1..][i] == steps[i + 1];
    }
  }

  lemma {:induction false} TotalsAdd(a: seq<Step>, b: seq<Step>)
    ensures TotalClaimed(a + b) == TotalClaimed(a) + TotalClaimed(b)
    ensures Enqueues(a + b) == Enqueues(a) + Enqueues(b)
  {
    if a == [] {
      assert a + b == b;
    } else {
      assert (a + b)[1..] == a[1..] + b;
      TotalsAdd(a[1..], b);
    }
  }
}
