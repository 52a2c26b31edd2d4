/** Any number of logins, logouts and Refresh calls over one token table. A
    Refresh is a sequence of separate statements; other calls run in between. */
module RefreshProtocol {
  import opened Wrappers
  import opened RefreshTokens

  /** Where one Refresh call stands. */
  datatype Call =
    | Presented(hash: Hash)
    | Looked(hash: Hash, stored: Token, at: Time)
    | Ready(hash: Hash, stored: Token, at: Time, next: Token)
    | Exchanged(hash: Hash, newHash: Hash)
    | Issued(hash: Hash, newHash: Hash)
    | Missed(hash: Hash)
    | Evidence(hash: Hash, family: FamilyId)
    | Refused(hash: Hash)

  datatype State = State(rows: Table, calls: map<nat, Call>, now: Time)

  datatype Step =
    | Tick(to: Time)
      // a login or a verified second factor stores the first token of a new family
    | Login(user: UserId, hash: Hash, expiresAt: Time, family: FamilyId)
    | Logout(user: UserId)
    | Present(k: nat, hash: Hash)
      // FindValid; any error sends the call down the same path as a miss
    | Lookup(k: nat, fails: bool)
      // FindByID and the new token
    | Prepare(k: nat, ok: bool, newHash: Hash, expiresAt: Time)
    | Rotate(k: nat, fault: Fault)
      // the access token is signed, or signing fails
    | Issue(k: nat, ok: bool)
      // FindAny
    | Trace(k: nat, fails: bool)
    | Revoke(k: nat, fault: Fault)

  function Start(now: Time): State {
    State(map[], map[], now)
  }

  /** Family ids are fresh when minted. */
  predicate Enabled(s: State, step: Step) {
    match step
    case Tick(to) => s.now <= to
    case Login(_, _, _, family) => forall h :: h in s.rows ==> s.rows[h].family != family
    case Logout(_) => true
    case Present(k, _) => k !in s.calls
    case Lookup(k, _) => k in s.calls && s.calls[k].Presented?
    case Prepare(k, _, _, _) => k in s.calls && s.calls[k].Looked?
    case Rotate(k, _) => k in s.calls && s.calls[k].Ready?
    case Issue(k, _) => k in s.calls && s.calls[k].Exchanged?
    case Trace(k, _) => k in s.calls && s.calls[k].Missed?
    case Revoke(k, _) => k in s.calls && s.calls[k].Evidence?
  }

  function Moved(s: State, k: nat, call: Call): State {
    s.(calls := s.calls[k := call])
  }

  /** What the answer to Rotate makes of the call. A lost race is evidence. */
  function AfterRotate(call: Call, r: Result<Table, Error>, fault: Fault): Call
    requires call.Ready?
  {
    if !fault.Works? then Refused(call.hash)
    else if r.Ok? then Exchanged(call.hash, call.next.hash)
    else if r.error.AlreadyUsed? && call.stored.family.Some? then Evidence(call.hash, call.stored.family.value)
    else Refused(call.hash)
  }

  function AfterTrace(t: Table, hash: Hash): Call {
    if hash in t && (t[hash].usedAt.Some? || t[hash].revoked) then Evidence(hash, t[hash].family)
    else Refused(hash)
  }

  function Apply(s: State, step: Step): State
    requires Enabled(s, step)
  {
    match step
    case Tick(to) => s.(now := to)
    case Login(user, hash, expiresAt, family) =>
      var r := Stored(s.rows, Token(user, hash, expiresAt, None, false, false), family);
      if r.Ok? then s.(rows := r.value) else s
    case Logout(user) => s.(rows := UserRevoked(s.rows, user))
    case Present(k, hash) => Moved(s, k, Presented(hash))
    case Lookup(k, fails) =>
      var hash := s.calls[k].hash;
      Moved(s, k, if Live(s.rows, hash, s.now) && !fails then Looked(hash, FromRow(hash, s.rows[hash]), s.now)
                  else Missed(hash))
    case Prepare(k, ok, newHash, expiresAt) =>
      var call := s.calls[k];
      Moved(s, k, if ok then Ready(call.hash, call.stored, call.at,
                                   Token(call.stored.user, newHash, expiresAt, call.stored.family, false, false))
                  else Refused(call.hash))
    case Rotate(k, fault) =>
      var call := s.calls[k];
      var r := Rotated(s.rows, call.hash, call.next, 0, s.now);
      var z := Moved(s, k, AfterRotate(call, r, fault));
      if r.Ok? && !fault.NotSent? then z.(rows := r.value) else z
    case Issue(k, ok) =>
      var call := s.calls[k];
      Moved(s, k, if ok then Issued(call.hash, call.newHash) else Refused(call.hash))
    case Trace(k, fails) =>
      var hash := s.calls[k].hash;
      Moved(s, k, if fails then Refused(hash) else AfterTrace(s.rows, hash))
    case Revoke(k, fault) =>
      var call := s.calls[k];
      var z := Moved(s, k, Refused(call.hash));
      if fault.NotSent? then z else z.(rows := FamilyRevoked(s.rows, call.family, s.now))
  }

  predicate IsRun(s: State, steps: seq<Step>)
    decreases |steps|
  {
    steps == [] || (Enabled(s, steps[0]) && IsRun(Apply(s, steps[0]), steps[1..]))
  }

  function Exec(s: State, steps: seq<Step>): State
    requires IsRun(s, steps)
    decreases |steps|
  {
    if steps == [] then s else Exec(Apply(s, steps[0]), steps[1..])
  }

  // ---------------------------------------------------------------- invariants

  predicate UsedIsRevoked(t: Table) {
    forall h :: h in t && t[h].usedAt.Some? ==> t[h].revoked
  }

  /** A family is one chain: at most one token of it is unrevoked. */
  predicate OneLivePerFamily(t: Table) {
    forall g, h :: g in t && h in t && t[g].family == t[h].family && !t[g].revoked && !t[h].revoked ==> g == h
  }

  predicate OneUserPerFamily(t: Table) {
    forall g, h :: g in t && h in t && t[g].family == t[h].family ==> t[g].user == t[h].user
  }

  /** A call remembers a row that exists, as it was; family and owner cannot change. */
  predicate Remembers(t: Table, hash: Hash, stored: Token) {
    && hash in t
    && stored.family == Some(t[hash].family)
    && stored.user == t[hash].user
    && stored.expiresAt == t[hash].expiresAt
  }

  /** The new token continues the family of the one it replaced, for the same user. */
  predicate Succeeds(t: Table, hash: Hash, newHash: Hash) {
    && hash in t && t[hash].usedAt.Some?
    && newHash in t && newHash != hash
    && t[newHash].family == t[hash].family && t[newHash].user == t[hash].user
  }

  predicate CallOk(s: State, call: Call) {
    match call
    case Looked(hash, stored, at) =>
      Remembers(s.rows, hash, stored) && stored.expiresAt > at && at <= s.now
    case Ready(hash, stored, at, next) =>
      && Remembers(s.rows, hash, stored) && stored.expiresAt > at && at <= s.now
      && next.family == stored.family && next.user == stored.user
    case Exchanged(hash, newHash) => Succeeds(s.rows, hash, newHash)
    case Issued(hash, newHash) => Succeeds(s.rows, hash, newHash)
    case Evidence(hash, family) => InFamily(s.rows, hash, family) && s.rows[hash].revoked
    case _ => true
  }

  predicate Won(call: Call) {
    call.Exchanged? || call.Issued?
  }

  predicate CallsOk(s: State) {
    && (forall k :: k in s.calls ==> CallOk(s, s.calls[k]))
    && (forall j, k ::
          (j in s.calls && k in s.calls && Won(s.calls[j]) && Won(s.calls[k]) && s.calls[j].hash == s.calls[k].hash)
          ==> j == k)
  }

  predicate Inv(s: State) {
    UsedIsRevoked(s.rows) && OneLivePerFamily(s.rows) && OneUserPerFamily(s.rows) && CallsOk(s)
  }

  /** Rows are never deleted; family, owner and expiry never change; used and
      revoked are never undone; and a family with rows but none unrevoked gets
      no new unrevoked row. */
  ghost predicate Grows(t: Table, u: Table) {
    && (forall h :: h in t ==>
          && h in u
          && u[h].family == t[h].family && u[h].user == t[h].user && u[h].expiresAt == t[h].expiresAt
          && (t[h].revoked ==> u[h].revoked)
          && (t[h].usedAt.Some? ==> u[h].usedAt.Some?))
    && (forall h :: h in u && h !in t && (exists g :: InFamily(t, g, u[h].family)) ==>
          exists g :: InFamily(t, g, u[h].family) && !t[g].revoked)
  }

  /** What every row keeps through any run. */
  predicate Inherits(t: Table, u: Table) {
    forall h :: h in t ==>
      && h in u
      && u[h].family == t[h].family && u[h].user == t[h].user && u[h].expiresAt == t[h].expiresAt
      && (t[h].revoked ==> u[h].revoked)
      && (t[h].usedAt.Some? ==> u[h].usedAt.Some?)
  }

  /** The one transaction that adds to a family spends its only live token. */
  lemma RotateKeepsTable(t: Table, spent: Hash, next: Token, now: Time)
    requires UsedIsRevoked(t) && OneLivePerFamily(t) && OneUserPerFamily(t)
    requires Rotated(t, spent, next, 0, now).Ok?
    requires next.family == Some(t[spent].family) && next.user == t[spent].user
    ensures var u := Rotated(t, spent, next, 0, now).value;
            && UsedIsRevoked(u) && OneLivePerFamily(u) && OneUserPerFamily(u) && Grows(t, u)
            && u[spent].usedAt.Some? && t[spent].usedAt.None?
  {
    var u := Rotated(t, spent, next, 0, now).value;
    assert InFamily(t, spent, u[next.hash].family);
    forall g, h | g in u && h in u && u[g].family == u[h].family && !u[g].revoked && !u[h].revoked
      ensures g == h
    {
      assert g != spent && h != spent;
      assert g != next.hash ==> t[g] == u[g];
      assert h != next.hash ==> t[h] == u[h];
    }
  }

  lemma RevokeKeepsTable(t: Table, u: Table)
    requires UsedIsRevoked(t) && OneLivePerFamily(t) && OneUserPerFamily(t)
    requires u.Keys == t.Keys
    requires forall h :: h in t ==> u[h] == t[h] || (exists at :: u[h] == t[h].(revoked := true, reuseDetectedAt := at))
    ensures UsedIsRevoked(u) && OneLivePerFamily(u) && OneUserPerFamily(u) && Grows(t, u)
  {
  }

  lemma StepKeepsTable(s: State, step: Step)
    requires Inv(s) && Enabled(s, step)
    ensures var t, u := s.rows, Apply(s, step).rows;
            UsedIsRevoked(u) && OneLivePerFamily(u) && OneUserPerFamily(u) && Grows(t, u)
  {
    match step
    case Rotate(k, fault) =>
      var call := s.calls[k];
      assert CallOk(s, call);
      if Rotated(s.rows, call.hash, call.next, 0, s.now).Ok? {
        RotateKeepsTable(s.rows, call.hash, call.next, s.now);
      }
    case Revoke(k, fault) =>
      RevokeKeepsTable(s.rows, FamilyRevoked(s.rows, s.calls[k].family, s.now));
    case Logout(user) =>
      forall h | h in s.rows
        ensures var u := UserRevoked(s.rows, user);
                u[h] == s.rows[h] || exists at :: u[h] == s.rows[h].(revoked := true, reuseDetectedAt := at)
      {
        assert s.rows[h].(revoked := true) ==
               s.rows[h].(revoked := true, reuseDetectedAt := s.rows[h].reuseDetectedAt);
      }
      RevokeKeepsTable(s.rows, UserRevoked(s.rows, user));
    case _ =>
  }

  lemma CallStaysOk(s: State, z: State, call: Call)
    requires UsedIsRevoked(s.rows) && Grows(s.rows, z.rows) && s.now <= z.now && CallOk(s, call)
    ensures CallOk(z, call)
  {
  }

  /** The call that takes the step is where its answer puts it. */
  lemma StepperIsOk(s: State, step: Step, k: nat)
    requires Inv(s) && Enabled(s, step) && k in Apply(s, step).calls
    requires k !in s.calls || Apply(s, step).calls[k] != s.calls[k]
    ensures CallOk(Apply(s, step), Apply(s, step).calls[k])
    ensures Won(Apply(s, step).calls[k]) ==>
              k in s.calls && s.calls[k].hash == Apply(s, step).calls[k].hash &&
              (Won(s.calls[k]) || Unspent(s.rows, s.calls[k].hash))
  {
    StepKeepsTable(s, step);
    if k in s.calls {
      assert CallOk(s, s.calls[k]);
    }
  }

  lemma StepKeepsCalls(s: State, step: Step)
    requires Inv(s) && Enabled(s, step)
    ensures CallsOk(Apply(s, step))
  {
    StepKeepsTable(s, step);
    var z := Apply(s, step);
    forall k | k in z.calls
      ensures CallOk(z, z.calls[k])
      ensures Won(z.calls[k]) ==>
                k in s.calls && s.calls[k].hash == z.calls[k].hash &&
                (Won(s.calls[k]) || (Unspent(s.rows, z.calls[k].hash) && step.Rotate? && step.k == k))
    {
      if k in s.calls && z.calls[k] == s.calls[k] {
        CallStaysOk(s, z, s.calls[k]);
      } else {
        StepperIsOk(s, step, k);
      }
    }
    StillOneWinner(s, z, step);
  }

  lemma StillOneWinner(s: State, z: State, step: Step)
    requires Inv(s)
    requires forall k :: k in z.calls && Won(z.calls[k]) ==>
               k in s.calls && s.calls[k].hash == z.calls[k].hash &&
               (Won(s.calls[k]) || (Unspent(s.rows, z.calls[k].hash) && step.Rotate? && step.k == k))
    ensures forall j, k ::
              (j in z.calls && k in z.calls && Won(z.calls[j]) && Won(z.calls[k]) && z.calls[j].hash == z.calls[k].hash)
              ==> j == k
  {
    forall j, k |
      j in z.calls && k in z.calls && Won(z.calls[j]) && Won(z.calls[k]) && z.calls[j].hash == z.calls[k].hash
      ensures j == k
    {
      assert CallOk(s, s.calls[j]) && CallOk(s, s.calls[k]);
    }
  }

  /** In every interleaving: a used token is revoked, a family has at most one
      unrevoked token and one owner, and one exchange per token wins. */
  lemma {:induction false} EveryRunKeepsInv(s: State, steps: seq<Step>)
    requires Inv(s) && IsRun(s, steps)
    ensures Inv(Exec(s, steps))
    decreases |steps|
  {
    if steps != [] {
      StepKeepsTable(s, steps[0]);
      StepKeepsCalls(s, steps[0]);
      EveryRunKeepsInv(Apply(s, steps[0]), steps[1..]);
    }
  }

  /** However many concurrent calls present one token, at most one of them
      returns new tokens. */
  lemma OneWinnerPerToken(now: Time, steps: seq<Step>, j: nat, k: nat)
    requires IsRun(Start(now), steps)
    requires var s := Exec(Start(now), steps);
             j in s.calls && k in s.calls && s.calls[j].Issued? && s.calls[k].Issued?
             && s.calls[j].hash == s.calls[k].hash
    ensures j == k
  {
    EveryRunKeepsInv(Start(now), steps);
  }

  /** RevokeFamily's count is 0 or 1 wherever it runs. */
  lemma AtMostOneLive(now: Time, steps: seq<Step>, family: FamilyId)
    requires IsRun(Start(now), steps)
    ensures |LiveFamily(Exec(Start(now), steps).rows, family)| <= 1
  {
    EveryRunKeepsInv(Start(now), steps);
    var live := LiveFamily(Exec(Start(now), steps).rows, family);
    if live != {} {
      var h :| h in live;
      assert live == {h};
    }
  }

  /** Rows are never deleted and never come back to life, and time goes on. */
  lemma {:induction false} EveryRunInherits(s: State, steps: seq<Step>)
    requires Inv(s) && IsRun(s, steps)
    ensures Inherits(s.rows, Exec(s, steps).rows) && s.now <= Exec(s, steps).now
    decreases |steps|
  {
    if steps != [] {
      StepKeepsTable(s, steps[0]);
      StepKeepsCalls(s, steps[0]);
      EveryRunInherits(Apply(s, steps[0]), steps[1..]);
    }
  }

  // ------------------------------------------------------------ the new token

  /** What could end this token: its own exchange, the revocation of its family,
      or a logout of its user. */
  predicate Spares(s: State, step: Step, hash: Hash, row: Row)
    requires Enabled(s, step)
  {
    && (step.Rotate? ==> s.calls[step.k].hash != hash)
    && (step.Revoke? ==> s.calls[step.k].family != row.family)
    && (step.Logout? ==> step.user != row.user)
  }

  predicate AllSpare(s: State, steps: seq<Step>, hash: Hash, row: Row)
    requires IsRun(s, steps)
    decreases |steps|
  {
    steps == [] || (Spares(s, steps[0], hash, row) && AllSpare(Apply(s, steps[0]), steps[1..], hash, row))
  }

  lemma SparedRowStays(s: State, step: Step, hash: Hash)
    requires Enabled(s, step) && hash in s.rows && Spares(s, step, hash, s.rows[hash])
    ensures hash in Apply(s, step).rows && Apply(s, step).rows[hash] == s.rows[hash]
  {
  }

  lemma {:induction false} SparedRowStaysThroughout(s: State, steps: seq<Step>, hash: Hash)
    requires IsRun(s, steps) && hash in s.rows && AllSpare(s, steps, hash, s.rows[hash])
    ensures hash in Exec(s, steps).rows && Exec(s, steps).rows[hash] == s.rows[hash]
    decreases |steps|
  {
    if steps != [] {
      SparedRowStays(s, steps[0], hash);
      SparedRowStaysThroughout(Apply(s, steps[0]), steps[1..], hash);
    }
  }

  /** An exchange leaves the new token stored unspent for the same user and
      family under the expiry it was prepared with; and however the run goes on,
      until it is exchanged itself, its family revoked or its user logged out, it
      is valid at exactly the instants before that expiry. */
  lemma NewTokenIsGood(s: State, k: nat, later: seq<Step>, at: Time)
    requires Inv(s) && k in s.calls && s.calls[k].Ready?
    requires s.calls[k].hash in s.rows && !s.rows[s.calls[k].hash].revoked && s.rows[s.calls[k].hash].usedAt.None?
    requires s.calls[k].next.hash !in s.rows
    requires var u := Apply(s, Rotate(k, Works));
             && IsRun(u, later)
             && (s.calls[k].next.hash in u.rows ==>
                   AllSpare(u, later, s.calls[k].next.hash, u.rows[s.calls[k].next.hash]))
    ensures var spent, next := s.calls[k].hash, s.calls[k].next;
            var u := Apply(s, Rotate(k, Works)).rows; var z := Exec(Apply(s, Rotate(k, Works)), later).rows;
            && u[spent] == s.rows[spent].(usedAt := Some(s.now), revoked := true)
            && next.hash in u && next.hash in z && z[next.hash] == u[next.hash]
            && u[next.hash] == Row(s.rows[spent].user, next.expiresAt, false, s.rows[spent].family, None, None)
            && (Live(z, next.hash, at) <==> at < next.expiresAt)
            && forall h :: h in s.rows && h != spent ==> u[h] == s.rows[h]
  {
    assert CallOk(s, s.calls[k]);
    SparedRowStaysThroughout(Apply(s, Rotate(k, Works)), later, s.calls[k].next.hash);
  }

  // ------------------------------------------------------------- reuse detection

  /** A family that has been started and has no unrevoked token. */
  ghost predicate FamilyDead(t: Table, family: FamilyId) {
    && (exists h :: InFamily(t, h, family))
    && (forall h :: InFamily(t, h, family) ==> t[h].revoked)
  }

  lemma StepKeepsDead(s: State, step: Step, family: FamilyId)
    requires Inv(s) && Enabled(s, step) && FamilyDead(s.rows, family)
    ensures FamilyDead(Apply(s, step).rows, family)
  {
    StepKeepsTable(s, step);
    var u := Apply(s, step).rows;
    var h :| InFamily(s.rows, h, family);
    assert InFamily(u, h, family);
    forall g | InFamily(u, g, family)
      ensures u[g].revoked
    {
      if g in s.rows {
        assert InFamily(s.rows, g, family);
      }
    }
  }

  /** A family with no unrevoked token never gets one again. */
  lemma {:induction false} DeadStaysDead(s: State, steps: seq<Step>, family: FamilyId)
    requires Inv(s) && IsRun(s, steps) && FamilyDead(s.rows, family)
    ensures FamilyDead(Exec(s, steps).rows, family)
    decreases |steps|
  {
    if steps != [] {
      StepKeepsTable(s, steps[0]);
      StepKeepsCalls(s, steps[0]);
      StepKeepsDead(s, steps[0], family);
      DeadStaysDead(Apply(s, steps[0]), steps[1..], family);
    }
  }

  /** Presenting a token that was already exchanged or revoked ends the family:
      unless the database fails, the call revokes it, and from then on no token
      of it is ever accepted again, whatever was in flight. */
  lemma ReuseEndsTheFamily(now: Time, steps: seq<Step>, k: nat, fault: Fault, later: seq<Step>, any: Hash)
    requires IsRun(Start(now), steps) && !fault.NotSent?
    requires var s := Exec(Start(now), steps);
             && k in s.calls && s.calls[k].Evidence?
             && IsRun(Apply(s, Revoke(k, fault)), later)
    ensures var s := Exec(Start(now), steps); var z := Exec(Apply(s, Revoke(k, fault)), later);
            && InFamily(s.rows, s.calls[k].hash, s.calls[k].family)
            && (InFamily(z.rows, any, s.calls[k].family) ==>
                  && !Unspent(z.rows, any)
                  && forall at: Time :: !Live(z.rows, any, at))
  {
    EveryRunKeepsInv(Start(now), steps);
    var s := Exec(Start(now), steps);
    var step := Revoke(k, fault);
    var family := s.calls[k].family;
    assert CallOk(s, s.calls[k]);
    StepKeepsTable(s, step);
    StepKeepsCalls(s, step);
    var u := Apply(s, step).rows;
    assert InFamily(u, s.calls[k].hash, family);
    DeadStaysDead(Apply(s, step), later, family);
  }

  /** Where a call stands that presented this token, once the token is revoked
      before it was looked up: on its way to revoking the family, or refused. */
  predicate Caught(call: Call, hash: Hash, family: FamilyId) {
    call == Presented(hash) || call == Missed(hash) || call == Evidence(hash, family) || call == Refused(hash)
  }

  predicate Spent(t: Table, hash: Hash) {
    hash in t && (t[hash].usedAt.Some? || t[hash].revoked)
  }

  lemma StepKeepsSpent(s: State, step: Step, hash: Hash)
    requires Inv(s) && Enabled(s, step) && Spent(s.rows, hash)
    ensures Spent(Apply(s, step).rows, hash)
    ensures Apply(s, step).rows[hash].family == s.rows[hash].family
  {
    StepKeepsTable(s, step);
  }

  lemma StepKeepsCaught(s: State, step: Step, k: nat, hash: Hash)
    requires Inv(s) && Enabled(s, step) && Spent(s.rows, hash)
    requires k in s.calls && Caught(s.calls[k], hash, s.rows[hash].family)
    ensures var z := Apply(s, step); k in z.calls && Caught(z.calls[k], hash, s.rows[hash].family)
  {
  }

  /** Presenting a spent token, whatever else runs in between and whatever
      fails: the call never gets a new token. Where it stands is decided by how
      far it got: it is still to be looked up, missed and to be traced, evidence
      against the token's own family, or refused; and from missed, a trace that
      works makes it evidence. */
  lemma {:induction false} SpentTokenIsEvidence(s: State, steps: seq<Step>, k: nat)
    requires Inv(s) && IsRun(s, steps) && k in s.calls && Spent(s.rows, s.calls[k].hash)
    requires Caught(s.calls[k], s.calls[k].hash, s.rows[s.calls[k].hash].family)
    ensures var hash := s.calls[k].hash; var family := s.rows[hash].family; var z := Exec(s, steps);
            && k in z.calls && Caught(z.calls[k], hash, family)
            && (z.calls[k].Presented? ==> Apply(z, Lookup(k, false)).calls[k] == Missed(hash))
            && (z.calls[k].Missed? ==> Apply(z, Trace(k, false)).calls[k] == Evidence(hash, family))
    decreases |steps|
  {
    if steps != [] {
      var step := steps[0];
      StepKeepsSpent(s, step, s.calls[k].hash);
      StepKeepsCaught(s, step, k, s.calls[k].hash);
      StepKeepsTable(s, step);
      StepKeepsCalls(s, step);
      SpentTokenIsEvidence(Apply(s, step), steps[1..], k);
    }
  }

  /** Nothing else is evidence: in every run a call that stands as evidence
      presented a revoked token of the family it is to revoke. In particular a
      token that merely expired is not. */
  lemma OnlySpentTokensAreEvidence(now: Time, steps: seq<Step>, k: nat)
    requires IsRun(Start(now), steps)
    requires var s := Exec(Start(now), steps); k in s.calls && s.calls[k].Evidence?
    ensures var s := Exec(Start(now), steps);
            InFamily(s.rows, s.calls[k].hash, s.calls[k].family) && s.rows[s.calls[k].hash].revoked
  {
    EveryRunKeepsInv(Start(now), steps);
    var s := Exec(Start(now), steps);
    assert CallOk(s, s.calls[k]);
  }

  /** A race for one token: whoever rotates second is sent to revoke the family
      of the token it presented, the winner's new token included. */
  lemma LostRaceIsEvidence(s: State, k: nat)
    requires Inv(s) && k in s.calls && s.calls[k].Ready? && !Unspent(s.rows, s.calls[k].hash)
    ensures Apply(s, Rotate(k, Works)).calls[k] == Evidence(s.calls[k].hash, s.rows[s.calls[k].hash].family)
    ensures Apply(s, Rotate(k, Works)).rows == s.rows
  {
    assert CallOk(s, s.calls[k]);
  }

  // ------------------------------------------------------------------- expiry

  /** Every exchange runs within `limit` of the lookup it relies on. */
  predicate PromptRun(s: State, steps: seq<Step>, limit: nat)
    requires IsRun(s, steps)
    decreases |steps|
  {
    steps == [] ||
    (&& (steps[0].Rotate? ==> s.now <= s.calls[steps[0].k].at + limit)
     && PromptRun(Apply(s, steps[0]), steps[1..], limit))
  }

  /** No stored token was exchanged later than `limit` allows. */
  predicate UsedInTime(t: Table, limit: nat) {
    forall h :: h in t && t[h].usedAt.Some? ==> t[h].usedAt.value < t[h].expiresAt + limit
  }

  lemma StepKeepsUsedInTime(s: State, step: Step, limit: nat)
    requires Inv(s) && Enabled(s, step) && UsedInTime(s.rows, limit)
    requires step.Rotate? ==> s.now <= s.calls[step.k].at + limit
    ensures UsedInTime(Apply(s, step).rows, limit)
  {
    if step.Rotate? {
      assert CallOk(s, s.calls[step.k]);
    }
  }

  /** Rotate does not look at the expiry, but the lookup did: a token is
      exchanged before its expiry plus the longest time from lookup to exchange. */
  lemma {:induction false} ExchangedBeforeExpiryPlusLimit(s: State, steps: seq<Step>, limit: nat)
    requires Inv(s) && IsRun(s, steps) && PromptRun(s, steps, limit) && UsedInTime(s.rows, limit)
    ensures UsedInTime(Exec(s, steps).rows, limit)
    decreases |steps|
  {
    if steps != [] {
      StepKeepsUsedInTime(s, steps[0], limit);
      StepKeepsTable(s, steps[0]);
      StepKeepsCalls(s, steps[0]);
      ExchangedBeforeExpiryPlusLimit(Apply(s, steps[0]), steps[1..], limit);
    }
  }

  /** No run that keeps the limit exchanges an expired token. */
  ghost predicate NeverExchangesExpired(limit: nat) {
    forall now, steps ::
      IsRun(Start(now), steps) && PromptRun(Start(now), steps, limit) ==> UsedInTime(Exec(Start(now), steps).rows, 0)
  }

  /** An expired token is never exchanged exactly when no time at all can pass
      between lookup and exchange. */
  lemma ExpiryIsEnforcedExactlyWithoutDelay(limit: nat)
    ensures NeverExchangesExpired(limit) <==> limit == 0
  {
    if limit == 0 {
      forall now, steps | IsRun(Start(now), steps) && PromptRun(Start(now), steps, limit)
        ensures UsedInTime(Exec(Start(now), steps).rows, 0)
      {
        ExchangedBeforeExpiryPlusLimit(Start(now), steps, 0);
      }
    } else {
      var steps, end := ExpiredTokenCanBeExchanged(limit);
      assert IsRun(Start(0), steps) && PromptRun(Start(0), steps, limit);
      assert !UsedInTime(end.rows, 0);
    }
  }

  /** One exchange: it succeeds exactly for an unspent token and an unused new
      hash, expired or not, and is stamped with its own instant, so the token was
      unexpired exactly when that instant is before its expiry. */
  lemma RotateIgnoresExpiry(s: State, k: nat)
    requires Inv(s) && k in s.calls && s.calls[k].Ready?
    ensures var call := s.calls[k]; var z := Apply(s, Rotate(k, Works));
            && (z.calls[k].Exchanged? <==> Unspent(s.rows, call.hash) && call.next.hash !in s.rows)
            && (z.calls[k].Exchanged? ==> z.rows[call.hash].usedAt == Some(s.now))
            && call.at <= s.now && s.rows[call.hash].expiresAt > call.at
  {
    assert CallOk(s, s.calls[k]);
  }

  ghost predicate Leads(s: State, steps: seq<Step>, limit: nat, z: State) {
    IsRun(s, steps) && PromptRun(s, steps, limit) && Exec(s, steps) == z
  }

  lemma Prepend(s: State, step: Step, rest: seq<Step>, limit: nat, end: State)
    requires Enabled(s, step) && Leads(Apply(s, step), rest, limit, end)
    requires step.Rotate? ==> s.now <= s.calls[step.k].at + limit
    ensures Leads(s, [step] + rest, limit, end)
  {
    assert ([step] + rest)[0] == step && ([step] + rest)[1..] == rest;
  }

  lemma TwoSteps(s: State, a: Step, b: Step, rest: seq<Step>, limit: nat, end: State)
    requires Enabled(s, a) && Enabled(Apply(s, a), b) && Leads(Apply(Apply(s, a), b), rest, limit, end)
    requires a.Rotate? ==> s.now <= s.calls[a.k].at + limit
    requires !b.Rotate?
    ensures Leads(s, [a, b] + rest, limit, end)
  {
    Prepend(Apply(s, a), b, rest, limit, end);
    Prepend(s, a, [b] + rest, limit, end);
    assert [a] + ([b] + rest) == [a, b] + rest;
  }

  /** Any delay is enough: looked up at instant 0, expiring at 1, exchanged at 1. */
  lemma ExpiredTokenCanBeExchanged(limit: nat) returns (steps: seq<Step>, end: State)
    requires limit >= 1
    ensures Leads(Start(0), steps, limit, end)
    ensures 0 in end.calls && end.calls[0].Issued? && end.calls[0].hash in end.rows
    ensures var spent := end.rows[end.calls[0].hash]; spent.usedAt.Some? && spent.usedAt.value >= spent.expiresAt
  {
    var first := Row(7, 1, false, 5, None, None);
    var stored := Token(7, 1, 1, Some(5), false, false);
    var next := Token(7, 2, 100, Some(5), false, false);
    var presented := State(map[1 := first], map[0 := Presented(1)], 0);
    var ready := State(map[1 := first], map[0 := Ready(1, stored, 0, next)], 0);
    var tail;
    tail, end := LateExchange(first, stored, next, ready, limit);
    assert Apply(Apply(presented, Lookup(0, false)), Prepare(0, true, 2, 100)).calls == ready.calls;
    TwoSteps(presented, Lookup(0, false), Prepare(0, true, 2, 100), tail, limit, end);
    tail := [Lookup(0, false), Prepare(0, true, 2, 100)] + tail;
    assert Apply(Apply(Start(0), Login(7, 1, 1, 5)), Present(0, 1)) == presented;
    TwoSteps(Start(0), Login(7, 1, 1, 5), Present(0, 1), tail, limit, end);
    steps := [Login(7, 1, 1, 5), Present(0, 1)] + tail;
  }

  lemma LateExchange(first: Row, stored: Token, next: Token, ready: State, limit: nat)
    returns (steps: seq<Step>, end: State)
    requires limit >= 1 && first == Row(7, 1, false, 5, None, None)
    requires stored == Token(7, 1, 1, Some(5), false, false) && next == Token(7, 2, 100, Some(5), false, false)
    requires ready == State(map[1 := first], map[0 := Ready(1, stored, 0, next)], 0)
    ensures Leads(ready, steps, limit, end)
    ensures end.calls == map[0 := Issued(1, 2)]
    ensures 1 in end.rows && end.rows[1] == first.(usedAt := Some(1), revoked := true)
  {
    var late := State(map[1 := first], map[0 := Ready(1, stored, 0, next)], 1);
    var rows := map[1 := first.(usedAt := Some(1), revoked := true), 2 := ToRow(next, 0)];
    end := State(rows, map[0 := Issued(1, 2)], 1);
    assert Leads(end, [], limit, end);
    assert Apply(late, Rotate(0, Works)).calls == map[0 := Exchanged(1, 2)];
    assert Apply(late, Rotate(0, Works)).rows == end.rows;
    assert Apply(Apply(late, Rotate(0, Works)), Issue(0, true)) == end;
    TwoSteps(late, Rotate(0, Works), Issue(0, true), [], limit, end);
    Prepend(ready, Tick(1), [Rotate(0, Works), Issue(0, true)] + [], limit, end);
    steps := [Tick(1)] + ([Rotate(0, Works), Issue(0, true)] + []);
  }
}
