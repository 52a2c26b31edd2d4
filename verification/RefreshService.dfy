/** Refresh as the code runs it: separate store calls, with other requests in
    between. Each execution is shown to be a stretch of a protocol run. */
module RefreshService {
  import opened Wrappers
  import opened RefreshTokens
  import opened RefreshProtocol

  predicate Touches(step: Step, k: nat) {
    match step
    case Present(j, _) => j == k
    case Lookup(j, _) => j == k
    case Prepare(j, _, _, _) => j == k
    case Rotate(j, _) => j == k
    case Issue(j, _) => j == k
    case Trace(j, _) => j == k
    case Revoke(j, _) => j == k
    case _ => false
  }

  predicate LeaveAlone(steps: seq<Step>, k: nat) {
    forall i :: 0 <= i < |steps| ==> !Touches(steps[i], k)
  }

  lemma {:induction false} CallsArePrivate(s: State, steps: seq<Step>, k: nat)
    requires IsRun(s, steps) && LeaveAlone(steps, k)
    ensures var z := Exec(s, steps);
            (k in z.calls <==> k in s.calls) && (k in s.calls ==> z.calls[k] == s.calls[k])
    decreases |steps|
  {
    if steps != [] {
      assert !Touches(steps[0], k);
      CallsArePrivate(Apply(s, steps[0]), steps[1..], k);
    }
  }

  lemma {:induction false} RunsCompose(s: State, a: seq<Step>, b: seq<Step>)
    requires IsRun(s, a) && IsRun(Exec(s, a), b)
    ensures IsRun(s, a + b) && Exec(s, a + b) == Exec(Exec(s, a), b)
    decreases |a|
  {
    if a == [] {
      assert a + b == b;
    } else {
      assert (a + b)[0] == a[0] && (a + b)[1..] == a[1..] + b;
      RunsCompose(Apply(s, a[0]), a[1..], b);
    }
  }

  /** The store, and every other request that uses it. */
  class World {
    const store: RefreshTokenStore
    var state: State
    ghost const origin: Time
    ghost var history: seq<Step>

    constructor (now: Time)
      ensures Valid() && state == Start(now) && fresh(store)
    {
      store := new RefreshTokenStore();
      state := Start(now);
      origin := now;
      history := [];
    }

    ghost predicate Recorded()
      reads this
    {
      IsRun(Start(origin), history) && Exec(Start(origin), history) == state
    }

    ghost predicate Valid()
      reads this, store
    {
      Recorded() && state.rows == store.rows
    }

    method Record(step: Step)
      requires Recorded() && Enabled(state, step)
      modifies this
      ensures Recorded() && state == Apply(old(state), step)
    {
      assert [step][0] == step && [step][1..] == [];
      assert IsRun(Apply(state, step), []);
      RunsCompose(Start(origin), history, [step]);
      state := Apply(state, step);
      history := history + [step];
    }

    /** Whatever logins, logouts and other calls do meanwhile, and time. */
    method Others(k: nat)
      requires Valid()
      modifies this, store
      ensures Valid()
      ensures k in state.calls <==> k in old(state.calls)
      ensures k in state.calls ==> state.calls[k] == old(state.calls[k])
      ensures Inherits(old(store.rows), store.rows) && old(state.now) <= state.now
    {
      var steps: seq<Step> := *;
      if IsRun(state, steps) && LeaveAlone(steps, k) {
        EveryRunKeepsInv(Start(origin), history);
        EveryRunInherits(state, steps);
        RunsCompose(Start(origin), history, steps);
        CallsArePrivate(state, steps, k);
        state := Exec(state, steps);
        store.rows := state.rows;
        history := history + steps;
      }
    }
  }

  /** What the audit stream is told about a detected reuse. */
  datatype Reuse = Reuse(user: UserId, family: FamilyId, revoked: nat, failed: bool)

  /** How the parts of one call go: whether FindValid and FindAny fail, whether
      the user is found and a token generated, which token that is, how the two
      writes go, and whether signing works. */
  datatype Faults = Faults(lookup: bool, trace: bool, ready: bool, newHash: Hash, expiresAt: Time,
                           rotate: Fault, signed: bool, revoke: Fault)
  {
    predicate None() {
      !lookup && !trace && ready && rotate.Works? && signed && revoke.Works?
    }
  }

  class Service {
    const world: World

    constructor (world: World)
      ensures this.world == world
    {
      this.world := world;
    }

    /** What an audit event tells is true: the presented token's own family and
        user, at most one session killed, and, unless it says otherwise, a dead family. */
    ghost predicate Reported(reuse: Reuse, hash: Hash)
      reads world.store
    {
      && reuse.revoked <= 1
      && InFamily(world.store.rows, hash, reuse.family)
      && world.store.rows[hash].user == reuse.user
      && (!reuse.failed ==> FamilyDead(world.store.rows, reuse.family))
    }

    /** The token was presented before, or its family revoked. */
    predicate Known(t: Table, hash: Hash) {
      hash in t && !Unspent(t, hash)
    }

    /** Exchanges a token for a new one. A token that came back new succeeds the
        one presented. Any other outcome leaves the call refused: a token that
        was spent when it was presented is always detected if the trace and the
        revocation work, whatever else fails, and its family is dead then; and
        if nothing fails, a stored token is refused without an audit event only
        for its expiry or a clash of the new hash. */
    method Refresh(k: nat, token: Option<Hash>, f: Faults) returns (r: Result<Hash, Error>, audit: Option<Reuse>)
      requires world.Valid() && k !in world.state.calls
      modifies world, world.store
      ensures world.Valid()
      ensures token.None? ==> r == Err(Invalid) && audit.None? && world.store.rows == old(world.store.rows)
      ensures token.Some? ==>
                && k in world.state.calls
                && world.state.calls[k] == if r.Ok? then Issued(token.value, r.value) else Refused(token.value)
      ensures r.Ok? ==>
                && token.Some? && audit.None? && r.value == f.newHash
                && Succeeds(world.store.rows, token.value, r.value)
                && IsGoodFor(token.value, r.value, f.expiresAt)
      ensures audit.Some? ==> token.Some? && r == Err(Invalid) && Reported(audit.value, token.value)
      ensures token.Some? && !f.trace && f.revoke.Works? && Known(old(world.store.rows), token.value) ==>
                && audit.Some? && !audit.value.failed
                && audit.value.family == old(world.store.rows)[token.value].family
                && FamilyDead(world.store.rows, audit.value.family)
      ensures token.Some? && f.None() && token.value in old(world.store.rows) && r.Err? && audit.None? ==>
                LegitimatelyRefused(token.value, f.newHash)
    {
      if token.None? {
        return Err(Invalid), None;
      }
      var hash := token.value;
      world.Record(Present(k, hash));
      world.Others(k);
      var found := world.store.FindValid(hash, world.state.now);
      world.Record(Lookup(k, f.lookup));
      if found.Err? || f.lookup {
        audit := HandleUnusable(k, hash, f.trace, f.revoke);
        return Err(Invalid), audit;
      }
      r, audit := Exchange(k, found.value, f);
    }

    /** The presented token is spent, and the new one is stored for the same user
        and family, another token, with its own expiry. */
    ghost predicate IsGoodFor(spent: Hash, issued: Hash, expiresAt: Time)
      reads world.store
    {
      var rows := world.store.rows;
      && spent in rows && rows[spent].usedAt.Some? && rows[spent].revoked
      && issued in rows && issued != spent && rows[issued].expiresAt == expiresAt
      && rows[issued].user == rows[spent].user && rows[issued].family == rows[spent].family
    }

    /** The token has expired unspent, or the new hash was taken. */
    ghost predicate LegitimatelyRefused(hash: Hash, newHash: Hash)
      reads world, world.store
    {
      || newHash in world.store.rows
      || (hash in world.store.rows && world.store.rows[hash].expiresAt <= world.state.now)
    }

    /** The second half of a call whose token was usable when it looked. */
    method Exchange(k: nat, stored: Token, f: Faults) returns (r: Result<Hash, Error>, audit: Option<Reuse>)
      requires world.Valid() && k in world.state.calls
      requires world.state.calls[k].Looked? && world.state.calls[k].hash == stored.hash
      requires world.state.calls[k].stored == stored
      modifies world, world.store
      ensures world.Valid() && k in world.state.calls
      ensures world.state.calls[k] == if r.Ok? then Issued(stored.hash, r.value) else Refused(stored.hash)
      ensures r.Ok? ==> audit.None? && r.value == f.newHash && Succeeds(world.store.rows, stored.hash, r.value)
      ensures r.Ok? ==> IsGoodFor(stored.hash, r.value, f.expiresAt)
      ensures audit.Some? ==> r == Err(Invalid) && Reported(audit.value, stored.hash)
      ensures f.None() && r.Err? && audit.None? ==> f.newHash in world.store.rows
    {
      world.Others(k);
      world.Record(Prepare(k, f.ready, f.newHash, f.expiresAt));
      if !f.ready {
        return Err(Invalid), None;
      }
      var next := Token(stored.user, f.newHash, f.expiresAt, stored.family, false, false);
      world.Others(k);
      var rotated := RotateTo(k, stored, next, f.rotate);
      if rotated.Err? {
        if rotated.error.AlreadyUsed? {
          audit := RevokeForReuse(k, stored, f.revoke);
          return Err(Invalid), audit;
        }
        return Err(Unavailable), None;
      }
      world.Others(k);
      world.Record(Issue(k, f.signed));
      if !f.signed {
        return Err(Unavailable), None;
      }
      EveryRunKeepsInv(Start(world.origin), world.history);
      assert CallOk(world.state, world.state.calls[k]);
      return Ok(f.newHash), None;
    }

    /** The rotation, and where its answer leaves the call. */
    method RotateTo(k: nat, stored: Token, next: Token, fault: Fault) returns (rotated: Result<(), Error>)
      requires world.Valid() && k in world.state.calls && world.state.calls[k].Ready?
      requires var call := world.state.calls[k];
               call.hash == stored.hash && call.stored == stored && call.next == next
      modifies world, world.store
      ensures world.Valid() && k in world.state.calls
      ensures rotated.Ok? ==> world.state.calls[k] == Exchanged(stored.hash, next.hash)
      ensures rotated.Ok? ==> next.hash in world.store.rows && world.store.rows[next.hash].expiresAt == next.expiresAt
      ensures rotated == Err(AlreadyUsed) ==>
                && stored.family.Some?
                && world.state.calls[k] == Evidence(stored.hash, stored.family.value)
                && stored.hash in world.store.rows && world.store.rows[stored.hash].user == stored.user
      ensures rotated.Err? && rotated != Err(AlreadyUsed) ==> world.state.calls[k] == Refused(stored.hash)
      ensures fault.Works? ==> (rotated == Err(AlreadyUsed) <==> !Unspent(old(world.store.rows), stored.hash))
      ensures fault.Works? && rotated.Err? && rotated != Err(AlreadyUsed) ==> next.hash in world.store.rows
    {
      EveryRunKeepsInv(Start(world.origin), world.history);
      assert CallOk(world.state, world.state.calls[k]);
      rotated := world.store.Rotate(stored.hash, next, 0, world.state.now, fault);
      world.Record(Step.Rotate(k, fault));
    }

    /** Establishes why a token was not usable: unknown, expired, or spent. One
        that was spent is detected, unless the trace itself fails; and one that
        was there and is not reported was only expired. */
    method HandleUnusable(k: nat, hash: Hash, fails: bool, revoke: Fault) returns (audit: Option<Reuse>)
      requires world.Valid() && k in world.state.calls && world.state.calls[k] == Missed(hash)
      modifies world, world.store
      ensures world.Valid()
      ensures k in world.state.calls && world.state.calls[k] == Refused(hash)
      ensures audit.Some? ==> Reported(audit.value, hash) && (audit.value.failed <==> !revoke.Works?)
      ensures !fails && Known(old(world.store.rows), hash) ==>
                audit.Some? && audit.value.family == old(world.store.rows)[hash].family
      ensures !fails && hash in old(world.store.rows) && audit.None? ==>
                Unspent(world.store.rows, hash)
      ensures Inherits(old(world.store.rows), world.store.rows) && old(world.state.now) <= world.state.now
    {
      EveryRunKeepsInv(Start(world.origin), world.history);
      world.Others(k);
      var known := world.store.FindAny(hash);
      world.Record(Trace(k, fails));
      if known.Err? || fails {
        return None;
      }
      if known.value.used || known.value.revoked {
        audit := RevokeForReuse(k, known.value, revoke);
        return;
      }
      return None;
    }

    /** Kills the whole chain and records the event. */
    method RevokeForReuse(k: nat, token: Token, fault: Fault) returns (audit: Option<Reuse>)
      requires world.Valid() && k in world.state.calls && token.family.Some?
      requires world.state.calls[k] == Evidence(token.hash, token.family.value)
      requires token.hash in world.store.rows && world.store.rows[token.hash].user == token.user
      modifies world, world.store
      ensures world.Valid()
      ensures k in world.state.calls && world.state.calls[k] == Refused(token.hash)
      ensures audit.Some? && Reported(audit.value, token.hash)
      ensures audit.value.failed <==> !fault.Works?
      ensures audit.value.family == token.family.value
      ensures Inherits(old(world.store.rows), world.store.rows) && old(world.state.now) == world.state.now
    {
      var family := token.family.value;
      EveryRunKeepsInv(Start(world.origin), world.history);
      AtMostOneLive(world.origin, world.history, family);
      assert CallOk(world.state, world.state.calls[k]);
      var revoked := world.store.RevokeFamily(family, world.state.now, fault);
      world.Record(Revoke(k, fault));
      assert InFamily(world.store.rows, token.hash, family);
      if revoked.Err? {
        return Some(Reuse(token.user, family, 0, true));
      }
      return Some(Reuse(token.user, family, revoked.value, false));
    }
  }
}
