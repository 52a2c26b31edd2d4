/** The refresh-token table and its statements. Each statement or transaction is
    one atomic step. A token's hash stands for the token: hashing is injective. */
module RefreshTokens {
  import opened Wrappers

  type Hash = nat
  type UserId = nat
  type FamilyId = nat
  /** An instant. */
  type Time = int

  datatype Error = Invalid | NotFound | AlreadyUsed | Conflict | Unavailable

  /** The domain's view; an empty family starts a new one. */
  datatype Token = Token(
    user: UserId, hash: Hash, expiresAt: Time, family: Option<FamilyId>, used: bool, revoked: bool)
  {
    predicate Expired(now: Time) {
      !(expiresAt > now)
    }

    predicate Usable(now: Time) {
      !revoked && !used && !Expired(now)
    }
  }

  datatype Row = Row(
    user: UserId, expiresAt: Time, revoked: bool, family: FamilyId,
    usedAt: Option<Time>, reuseDetectedAt: Option<Time>)

  /** Keyed by token_hash, which is unique. */
  type Table = map<Hash, Row>

  /** `minted` is the family id generated in case the token starts a family. */
  function ToRow(t: Token, minted: FamilyId): Row {
    Row(t.user, t.expiresAt, false, if t.family.Some? then t.family.value else minted, None, None)
  }

  function FromRow(hash: Hash, r: Row): Token {
    Token(r.user, hash, r.expiresAt, Some(r.family), r.usedAt.Some?, r.revoked)
  }

  /** The predicates FindValid filters on. */
  predicate Live(t: Table, hash: Hash, now: Time) {
    hash in t && !t[hash].revoked && t[hash].usedAt.None? && t[hash].expiresAt > now
  }

  /** The predicates Rotate repeats: the expiry is not among them. */
  predicate Unspent(t: Table, hash: Hash) {
    hash in t && !t[hash].revoked && t[hash].usedAt.None?
  }

  function Stored(t: Table, token: Token, minted: FamilyId): Result<Table, Error> {
    if token.hash in t then Err(Conflict) else Ok(t[token.hash := ToRow(token, minted)])
  }

  /** One transaction: a failure of either statement leaves the table as it was. */
  function Rotated(t: Table, spent: Hash, next: Token, minted: FamilyId, now: Time): Result<Table, Error> {
    if !Unspent(t, spent) then Err(AlreadyUsed)
    else Stored(t[spent := t[spent].(usedAt := Some(now), revoked := true)], next, minted)
  }

  predicate InFamily(t: Table, hash: Hash, family: FamilyId) {
    hash in t && t[hash].family == family
  }

  function LiveFamily(t: Table, family: FamilyId): set<Hash> {
    set h | h in t && InFamily(t, h, family) && !t[h].revoked
  }

  function FamilyRevoked(t: Table, family: FamilyId, now: Time): (u: Table)
    ensures u.Keys == t.Keys
  {
    map h | h in t ::
      if t[h].family == family && !t[h].revoked then t[h].(revoked := true, reuseDetectedAt := Some(now)) else t[h]
  }

  function UserRevoked(t: Table, user: UserId): (u: Table)
    ensures u.Keys == t.Keys
  {
    map h | h in t :: if t[h].user == user then t[h].(revoked := true) else t[h]
  }

  /** The update takes rows out of use, and does nothing else but stamp them. */
  predicate OnlyRevoked(t: Table, u: Table) {
    && u.Keys == t.Keys
    && forall h :: h in t ==>
         && u[h] == t[h].(revoked := u[h].revoked, reuseDetectedAt := u[h].reuseDetectedAt)
         && (t[h].revoked ==> u[h].revoked)
  }

  /** The rows an update changed, each of them now revoked under the stamp. */
  function Stamped(t: Table, u: Table, now: Time): set<Hash>
    requires u.Keys == t.Keys
  {
    set h | h in t && u[h] != t[h] && u[h].revoked && u[h].reuseDetectedAt == Some(now)
  }

  lemma RevokedFamilyIsDead(t: Table, family: FamilyId, now: Time)
    ensures var u := FamilyRevoked(t, family, now);
            && LiveFamily(u, family) == {} && OnlyRevoked(t, u)
            && Stamped(t, u, now) == LiveFamily(t, family)
            && forall h :: h in t && h !in LiveFamily(t, family) ==> u[h] == t[h]
  {
    var u := FamilyRevoked(t, family, now);
    forall h | h in t
      ensures h in Stamped(t, u, now) <==> h in LiveFamily(t, family)
    {
    }
  }

  lemma RevokedUserIsOut(t: Table, user: UserId)
    ensures var u := UserRevoked(t, user);
            OnlyRevoked(t, u) && forall h, at :: h in u && u[h].user == user ==> !Live(u, h, at)
  {
  }

  /** A token just stored: its own owner and expiry, its own family or the one
      minted for it, neither used nor revoked. */
  predicate IsFresh(r: Row, t: Token, minted: FamilyId) {
    && r.user == t.user && r.expiresAt == t.expiresAt
    && r.family == (if t.family.Some? then t.family.value else minted)
    && !r.revoked && r.usedAt.None? && r.reuseDetectedAt.None?
  }

  datatype Fault = Works | NotSent | NotAcknowledged

  class RefreshTokenStore {
    var rows: Table

    constructor ()
      ensures rows == map[]
    {
      rows := map[];
    }

    method Store(token: Token, minted: FamilyId, fault: Fault) returns (r: Result<(), Error>)
      modifies this
      ensures var stored := Stored(old(rows), token, minted);
              && rows == (if fault.NotSent? || stored.Err? then old(rows) else stored.value)
              && (r.Ok? <==> fault.Works? && stored.Ok?)
      ensures r.Ok? <==> fault.Works? && token.hash !in old(rows)
      ensures forall h :: h in old(rows) ==> h in rows && rows[h] == old(rows)[h]
      ensures rows.Keys == old(rows).Keys + (if fault.NotSent? then {} else {token.hash})
      ensures token.hash in rows && token.hash !in old(rows) ==> IsFresh(rows[token.hash], token, minted)
    {
      if fault.NotSent? {
        return Err(Unavailable);
      }
      if token.hash in rows {
        return Err(Conflict);
      }
      rows := rows[token.hash := ToRow(token, minted)];
      return if fault.Works? then Ok(()) else Err(Unavailable);
    }

    /** Usable right now, by the database's clock; the domain's own test agrees. */
    method FindValid(hash: Hash, now: Time) returns (r: Result<Token, Error>)
      ensures r.Ok? <==> Live(rows, hash, now)
      ensures r.Ok? <==> hash in rows && !rows[hash].revoked && rows[hash].usedAt.None? && now < rows[hash].expiresAt
      ensures r.Ok? ==>
                && r.value.hash == hash && r.value.user == rows[hash].user
                && r.value.expiresAt == rows[hash].expiresAt && r.value.family == Some(rows[hash].family)
      ensures r.Ok? ==> r.value == FromRow(hash, rows[hash]) && r.value.Usable(now)
      ensures r.Err? && hash in rows ==> !FromRow(hash, rows[hash]).Usable(now)
    {
      if hash in rows && !rows[hash].revoked && rows[hash].usedAt.None? && rows[hash].expiresAt > now {
        return Ok(FromRow(hash, rows[hash]));
      }
      return Err(Invalid);
    }

    /** Finds a token in any state, and what it returns tells the states apart
        as the table does: usable at exactly the instants at which FindValid
        would find it, spent exactly when Rotate would turn it away. */
    method FindAny(hash: Hash) returns (r: Result<Token, Error>)
      ensures r.Ok? <==> hash in rows
      ensures r.Err? ==> r.error == NotFound
      ensures r.Ok? ==>
                && r.value.hash == hash && r.value.user == rows[hash].user && r.value.family == Some(rows[hash].family)
                && r.value.expiresAt == rows[hash].expiresAt && r.value.revoked == rows[hash].revoked
                && (r.value.used <==> rows[hash].usedAt.Some?)
                && (forall at: Time :: r.value.Usable(at) <==> Live(rows, hash, at))
                && (r.value.used || r.value.revoked <==> !Unspent(rows, hash))
    {
      return if hash in rows then Ok(FromRow(hash, rows[hash])) else Err(NotFound);
    }

    method Rotate(spent: Hash, next: Token, minted: FamilyId, now: Time, fault: Fault) returns (r: Result<(), Error>)
      modifies this
      ensures var rotated := Rotated(old(rows), spent, next, minted, now);
              && rows == (if fault.NotSent? || rotated.Err? then old(rows) else rotated.value)
              && (fault.Works? ==> (r.Ok? <==> rotated.Ok?) && (rotated.Err? ==> r == Err(rotated.error)))
              && (!fault.Works? ==> r == Err(Unavailable))
      ensures r.Ok? <==>
                && fault.Works? && next.hash !in old(rows)
                && spent in old(rows) && !old(rows)[spent].revoked && old(rows)[spent].usedAt.None?
      ensures fault.Works? ==>
                (r == Err(AlreadyUsed) <==>
                   spent !in old(rows) || old(rows)[spent].revoked || old(rows)[spent].usedAt.Some?)
      ensures r.Ok? ==>
                && rows.Keys == old(rows).Keys + {next.hash}
                && rows[spent] == old(rows)[spent].(usedAt := Some(now), revoked := true)
                && IsFresh(rows[next.hash], next, minted)
                && (forall at: Time :: Live(rows, next.hash, at) <==> at < next.expiresAt)
      ensures forall h :: h in old(rows) && h != spent ==> h in rows && rows[h] == old(rows)[h]
      ensures fault.Works? && r.Err? ==> rows == old(rows)
    {
      if fault.NotSent? {
        return Err(Unavailable);
      }
      var before := rows;
      if spent !in rows || rows[spent].revoked || rows[spent].usedAt.Some? {
        r := Err(AlreadyUsed);
      } else {
        rows := rows[spent := rows[spent].(usedAt := Some(now), revoked := true)];
        if next.hash in rows {
          rows := before;
          r := Err(Conflict);
        } else {
          rows := rows[next.hash := ToRow(next, minted)];
          r := Ok(());
        }
      }
      if fault.NotAcknowledged? {
        r := Err(Unavailable);
      }
    }

    /** Ends the family: nothing of it is unrevoked afterwards. Exactly the rows
        that were unrevoked are stamped, and counted; no other row changes. */
    method RevokeFamily(family: FamilyId, now: Time, fault: Fault) returns (r: Result<nat, Error>)
      modifies this
      ensures fault.NotSent? ==> rows == old(rows)
      ensures !fault.NotSent? ==> rows == FamilyRevoked(old(rows), family, now)
      ensures !fault.NotSent? ==> LiveFamily(rows, family) == {} && OnlyRevoked(old(rows), rows)
      ensures rows.Keys == old(rows).Keys
      ensures forall h :: h in rows ==>
                rows[h] == if !fault.NotSent? && old(rows)[h].family == family && !old(rows)[h].revoked
                           then old(rows)[h].(revoked := true, reuseDetectedAt := Some(now)) else old(rows)[h]
      ensures !fault.NotSent? ==> Stamped(old(rows), rows, now) == LiveFamily(old(rows), family)
      ensures r.Ok? <==> fault.Works?
      ensures r.Ok? ==> r.value == |LiveFamily(old(rows), family)|
    {
      if fault.NotSent? {
        return Err(Unavailable);
      }
      var affected := LiveFamily(rows, family);
      RevokedFamilyIsDead(rows, family, now);
      rows := FamilyRevoked(rows, family, now);
      return if fault.Works? then Ok(|affected|) else Err(Unavailable);
    }

    /** Ends every session of the user: none of the user's rows is unrevoked
        afterwards, and nothing else about any row changes. */
    method RevokeAllForUser(user: UserId, fault: Fault) returns (r: Result<(), Error>)
      modifies this
      ensures fault.NotSent? ==> rows == old(rows)
      ensures !fault.NotSent? ==> rows == UserRevoked(old(rows), user) && OnlyRevoked(old(rows), rows)
      ensures !fault.NotSent? ==> forall h :: h in rows ==>
                if rows[h].user == user then rows[h] == old(rows)[h].(revoked := true) else rows[h] == old(rows)[h]
      ensures !fault.NotSent? ==> forall h, at :: h in rows && rows[h].user == user ==> !Live(rows, h, at)
      ensures r.Ok? <==> fault.Works?
    {
      if fault.NotSent? {
        return Err(Unavailable);
      }
      RevokedUserIsOut(rows, user);
      rows := UserRevoked(rows, user);
      return if fault.Works? then Ok(()) else Err(Unavailable);
    }
  }
}
