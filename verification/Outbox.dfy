/** The notifications table and the statements that read and write it.
    Every statement is one atomic step; which rows the database picks, which
    rows it skips as locked, and whether a statement's answer reaches its
    caller are left open. */
module Outbox {
  import opened Wrappers
  import opened Utf8
  import opened NotificationDomain

  /** The storage shape: nullable columns are options. */
  datatype Row = Row(
    id: Id,
    recipient: Id,
    channel: Channel,
    category: Category,
    templateKey: string,
    payload: Payload,
    status: Status,
    attempts: int,
    nextAttemptAt: Time,
    idempotencyKey: Option<string>,
    readAt: Option<Time>,
    lastError: Option<Bytes>,
    createdAt: Time,
    claimedAt: Option<Time>,
    sentAt: Option<Time>)

  type Table = map<Id, Row>

  function NullString<T(==)>(s: seq<T>): Option<seq<T>> {
    if s == [] then None else Some(s)
  }

  function StringValue<T>(p: Option<seq<T>>): seq<T> {
    if p.None? then [] else p.value
  }

  function ToRow(n: Entity): Row {
    var e, d := n.envelope, n.delivery;
    Row(e.id, e.recipient, e.channel, e.category, e.templateKey, e.payload,
        d.status, d.attempts, d.nextAttemptAt, NullString(e.idempotencyKey), n.readAt,
        NullString(d.lastError), e.createdAt, None, d.sentAt)
  }

  function EnvelopeOf(r: Row): Envelope {
    Envelope(r.id, r.recipient, r.channel, r.category, r.templateKey, r.payload,
             StringValue(r.idempotencyKey), r.createdAt)
  }

  function DeliveryOf(r: Row): Delivery {
    Delivery(r.status, r.attempts, r.nextAttemptAt, StringValue(r.lastError), r.sentAt)
  }

  function FromRow(r: Row): Entity {
    Entity(EnvelopeOf(r), DeliveryOf(r), r.readAt)
  }

  /** Storing an entity and reading it back loses nothing. */
  lemma RowRoundTrip(n: Entity)
    ensures FromRow(ToRow(n)) == n
  {
  }

  /** Each column is the field of its name; an empty text is NULL, and a row
      that is inserted has never been claimed. */
  lemma RowColumns(n: Entity)
    ensures var r, e, d := ToRow(n), n.envelope, n.delivery;
            && r.id == e.id && r.recipient == e.recipient && r.channel == e.channel && r.category == e.category
            && r.templateKey == e.templateKey && r.payload == e.payload && r.createdAt == e.createdAt
            && r.status == d.status && r.attempts == d.attempts && r.nextAttemptAt == d.nextAttemptAt
            && r.sentAt == d.sentAt && r.readAt == n.readAt && r.claimedAt.None?
            && r.idempotencyKey == (if e.idempotencyKey == "" then None else Some(e.idempotencyKey))
            && r.lastError == (if d.lastError == [] then None else Some(d.lastError))
  {
  }

  // ---------------------------------------------------------------- Enqueue

  /** What idx_notifications_idem arbitrates on: only non-NULL keys. */
  predicate KeyTaken(t: Table, key: Option<string>) {
    key.Some? && exists id :: id in t && t[id].idempotencyKey == key
  }

  /** INSERT ... ON CONFLICT (idempotency_key) WHERE ... DO NOTHING. A clash on
      the primary key is not arbitrated and fails. */
  function Inserted(t: Table, n: Entity): (r: Result<Table, Error>)
  {
    var row := ToRow(n);
    if KeyTaken(t, row.idempotencyKey) then Err(DuplicateIdempotencyKey)
    else if row.id in t then Err(Conflict)
    else Ok(t[row.id := row])
  }

  // ------------------------------------------------------------------ Claims

  predicate Claimable(r: Row, now: Time) {
    r.status.Pending? && r.nextAttemptAt <= now
  }

  predicate IsStalled(r: Row, before: Time) {
    r.status.Sending? && r.claimedAt.Some? && r.claimedAt.value < before
  }

  predicate Distinct<T(==)>(s: seq<T>) {
    forall i, j :: 0 <= i < j < |s| ==> s[i] != s[j]
  }

  /** SELECT ... ORDER BY rank LIMIT n FOR UPDATE SKIP LOCKED over the rows in
      `eligible`, whose order in `ids` means nothing: nobody unlocked and
      eligible is left out unless the limit is reached, and then only for rows
      that rank no later. */
  predicate Picks(eligible: set<Id>, rank: map<Id, Time>, n: int, locked: set<Id>, ids: seq<Id>)
  {
    && Distinct(ids)
    && eligible <= rank.Keys
    && (forall id :: id in ids ==> id in eligible && id !in locked)
    && |ids| <= n
    && (forall id :: id in eligible && id !in locked && id !in ids ==>
          |ids| == n && forall other :: other in ids ==> rank[other] <= rank[id])
  }

  function Due(t: Table, now: Time): set<Id> {
    set id | id in t && Claimable(t[id], now)
  }

  function Stuck(t: Table, before: Time): set<Id> {
    set id | id in t && IsStalled(t[id], before)
  }

  function DueRank(t: Table): map<Id, Time> {
    map id | id in t :: t[id].nextAttemptAt
  }

  function ClaimRank(t: Table): map<Id, Time> {
    map id | id in t :: if t[id].claimedAt.Some? then t[id].claimedAt.value else 0
  }

  predicate PicksDue(t: Table, n: int, now: Time, locked: set<Id>, ids: seq<Id>) {
    Picks(Due(t, now), DueRank(t), n, locked, ids)
  }

  predicate PicksStuck(t: Table, n: int, before: Time, locked: set<Id>, ids: seq<Id>) {
    Picks(Stuck(t, before), ClaimRank(t), n, locked, ids)
  }

  /** By columns: exactly pending rows whose next attempt is due are picked, and
      one that is left out though nobody had it locked is due no earlier than
      every one of a full batch. */
  lemma PicksDueByColumns(t: Table, n: int, now: Time, locked: set<Id>, ids: seq<Id>)
    ensures PicksDue(t, n, now, locked, ids) <==>
              && Distinct(ids) && |ids| <= n
              && (forall id :: id in ids ==>
                    id in t && t[id].status == Pending && t[id].nextAttemptAt <= now && id !in locked)
              && (forall id :: id in t && t[id].status == Pending && t[id].nextAttemptAt <= now
                               && id !in locked && id !in ids ==>
                    |ids| == n && forall other :: other in ids ==> t[other].nextAttemptAt <= t[id].nextAttemptAt)
  {
    assert forall id :: id in Due(t, now) <==> id in t && t[id].status == Pending && t[id].nextAttemptAt <= now;
  }

  /** By columns: rows in sending that were claimed before `before`, oldest first. */
  lemma PicksStuckByColumns(t: Table, n: int, before: Time, locked: set<Id>, ids: seq<Id>)
    ensures PicksStuck(t, n, before, locked, ids) <==>
              && Distinct(ids) && |ids| <= n
              && (forall id :: id in ids ==>
                    && id in t && t[id].status == Sending && id !in locked
                    && t[id].claimedAt.Some? && t[id].claimedAt.value < before)
              && (forall id :: id in t && t[id].status == Sending && t[id].claimedAt.Some?
                               && t[id].claimedAt.value < before && id !in locked && id !in ids ==>
                    && |ids| == n
                    && forall other :: other in ids ==> t[other].claimedAt.value <= t[id].claimedAt.value)
  {
    assert forall id :: id in Stuck(t, before) <==>
        id in t && t[id].status == Sending && t[id].claimedAt.Some? && t[id].claimedAt.value < before;
    if forall id :: id in ids ==> id in Stuck(t, before) {
      assert forall id :: id in Stuck(t, before) ==> ClaimRank(t)[id] == t[id].claimedAt.value;
    }
  }

  /** UPDATE ... SET status = 'sending', claimed_at = now WHERE id IN (ids). */
  function Claimed(t: Table, ids: seq<Id>, now: Time): (u: Table)
    ensures u.Keys == t.Keys
  {
    map id | id in t :: if id in ids then t[id].(status := Sending, claimedAt := Some(now)) else t[id]
  }

  /** UPDATE ... SET claimed_at = now WHERE id IN (ids): the status is left alone. */
  function Restamped(t: Table, ids: seq<Id>, now: Time): (u: Table)
    ensures u.Keys == t.Keys
  {
    map id | id in t :: if id in ids then t[id].(claimedAt := Some(now)) else t[id]
  }

  /** RETURNING *, mapped back onto entities. */
  function Returned(t: Table, ids: seq<Id>): (r: seq<Entity>)
    requires forall id :: id in ids ==> id in t
    ensures |r| == |ids|
    ensures forall i :: 0 <= i < |ids| ==> r[i] == FromRow(t[ids[i]])
  {
    if ids == [] then [] else [FromRow(t[ids[0]])] + Returned(t, ids[1..])
  }

  lemma StuckAreSending(t: Table, n: int, before: Time, locked: set<Id>, ids: seq<Id>)
    requires PicksStuck(t, n, before, locked, ids)
    ensures forall id :: id in ids ==> id in t && t[id].status.Sending?
  {
    assert Picks(Stuck(t, before), ClaimRank(t), n, locked, ids);
  }

  /** Some pick always exists: the limit is met with the lowest-ranked rows. */
  lemma {:induction false} PickExists(eligible: set<Id>, rank: map<Id, Time>, n: nat, locked: set<Id>)
    returns (ids: seq<Id>)
    requires eligible <= rank.Keys
    ensures Picks(eligible, rank, n, locked, ids)
    decreases n
  {
    ids := [];
    if n > 0 {
      ids := PickExists(eligible, rank, n - 1, locked);
      var rest := set id | id in eligible && id !in locked && id !in ids;
      assert forall id :: id in eligible && id !in locked && id !in ids ==> id in rest;
      if rest != {} {
        var first := Lowest(rest, rank);
        var shorter := ids;
        ids := shorter + [first];
        assert forall id :: id in ids <==> id in shorter || id == first;
      }
    }
  }

  lemma {:induction false} Lowest(s: set<Id>, rank: map<Id, Time>) returns (least: Id)
    requires s != {} && s <= rank.Keys
    ensures least in s && forall id :: id in s ==> rank[least] <= rank[id]
    decreases |s|
  {
    var any :| any in s;
    var rest := s - {any};
    assert s == rest + {any};
    least := any;
    if rest != {} {
      var other := Lowest(rest, rank);
      if rank[other] < rank[any] {
        least := other;
      }
    }
    forall id: Id | id in s
      ensures rank[least] <= rank[id]
    {
      assert id == any || id in rest;
    }
  }

  // -------------------------------------------------------------------- Save

  /** UPDATE of the five columns a settle owns, filtered on the id alone. */
  function Saved(t: Table, n: Entity): (r: Result<Table, Error>)
    ensures r.Ok? <==> n.envelope.id in t
  {
    var id := n.envelope.id;
    if id !in t then Err(NotFound)
    else
      var d := n.delivery;
      Ok(t[id := t[id].(
             status := d.status, attempts := d.attempts, nextAttemptAt := d.nextAttemptAt,
             lastError := NullString(d.lastError), sentAt := d.sentAt)])
  }

  /** What Save writes is what a later read returns; everything else about the
      row, its claim stamp and read mark included, and every other row, stays. */
  lemma SaveWritesTheDelivery(t: Table, n: Entity)
    requires n.envelope.id in t
    ensures var u := Saved(t, n).value; var id := n.envelope.id;
            && u.Keys == t.Keys
            && DeliveryOf(u[id]) == n.delivery
            && EnvelopeOf(u[id]) == EnvelopeOf(t[id])
            && u[id].readAt == t[id].readAt
            && u[id].claimedAt == t[id].claimedAt
            && u[id].idempotencyKey == t[id].idempotencyKey
            && forall other :: other in t && other != id ==> u[other] == t[other]
  {
  }

  // --------------------------------------------------------------- Read marks

  /** UPDATE ... SET read_at = coalesce(read_at, now), scoped by recipient and channel. */
  function MarkedRead(t: Table, recipient: Id, id: Id, now: Time): (r: Result<Table, Error>)
    ensures r.Ok? ==> r.value.Keys == t.Keys
  {
    if id !in t || t[id].recipient != recipient || t[id].channel != INAPP then Err(NotFound)
    else if t[id].readAt.Some? then Ok(t)
    else Ok(t[id := t[id].(readAt := Some(now))])
  }

  // -------------------------------------------------------------- Repository

  /** How one statement can go: it runs, it never reaches the database, or it
      commits and its acknowledgement is lost. */
  datatype Fault = Works | NotSent | NotAcknowledged

  /** The row holds the entity, column by column. */
  predicate IsStoredAs(n: Entity, r: Row) {
    && r.id == n.envelope.id && r.recipient == n.envelope.recipient
    && r.channel == n.envelope.channel && r.category == n.envelope.category
    && r.templateKey == n.envelope.templateKey && r.payload == n.envelope.payload
    && r.createdAt == n.envelope.createdAt && r.readAt == n.readAt && r.claimedAt.None?
    && r.status == n.delivery.status && r.attempts == n.delivery.attempts
    && r.nextAttemptAt == n.delivery.nextAttemptAt && r.sentAt == n.delivery.sentAt
    && r.idempotencyKey == (if n.envelope.idempotencyKey == "" then None else Some(n.envelope.idempotencyKey))
    && r.lastError == (if n.delivery.lastError == [] then None else Some(n.delivery.lastError))
  }

  class NotificationRepo {
    var rows: Table

    constructor ()
      ensures rows == map[]
    {
      rows := map[];
    }

    method Enqueue(n: Entity, fault: Fault) returns (r: Result<(), Error>)
      modifies this
      ensures var stored := Inserted(old(rows), n);
              && rows == (if fault.NotSent? || stored.Err? then old(rows) else stored.value)
              && (fault.Works? ==> (r.Ok? <==> stored.Ok?) && (stored.Err? ==> r == Err(stored.error)))
              && (!fault.Works? ==> r == Err(Unavailable))
      ensures fault.Works? ==>
                && (r == Err(DuplicateIdempotencyKey) <==>
                      && n.envelope.idempotencyKey != ""
                      && exists id ::
                           id in old(rows) && old(rows)[id].idempotencyKey == Some(n.envelope.idempotencyKey))
                && (r.Ok? ==> rows.Keys == old(rows).Keys + {n.envelope.id} && n.envelope.id !in old(rows))
      ensures forall id :: id in old(rows) ==> id in rows && rows[id] == old(rows)[id]
      ensures forall id :: id in rows && id !in old(rows) ==> id == n.envelope.id && IsStoredAs(n, rows[id])
    {
      RowColumns(n);
      if fault.NotSent? {
        return Err(Unavailable);
      }
      var row := ToRow(n);
      var taken := row.idempotencyKey.Some? && exists id :: id in rows && rows[id].idempotencyKey == row.idempotencyKey;
      if taken {
        r := Err(DuplicateIdempotencyKey);
      } else if row.id in rows {
        r := Err(Conflict);
      } else {
        rows := rows[row.id := row];
        r := Ok(());
      }
      if fault.NotAcknowledged? {
        r := Err(Unavailable);
      }
    }

    /** Claims nothing for a batch of zero or less, without a round trip. */
    method ClaimBatch(n: int, now: Time, locked: set<Id>, fault: Fault)
      returns (r: Result<seq<Notification>, Error>, ids: seq<Id>)
      modifies this
      ensures n <= 0 || fault.NotSent? ==> rows == old(rows) && ids == []
      ensures n > 0 && !fault.NotSent? ==>
                PicksDue(old(rows), n, now, locked, ids) && rows == Claimed(old(rows), ids, now)
      ensures Distinct(ids) && (n > 0 ==> |ids| <= n)
      ensures forall id :: id in ids ==>
                && id in old(rows) && id !in locked
                && old(rows)[id].status == Pending && old(rows)[id].nextAttemptAt <= now
                && id in rows && rows[id] == old(rows)[id].(status := Sending, claimedAt := Some(now))
      ensures forall id :: id in old(rows) && id !in ids ==> id in rows && rows[id] == old(rows)[id]
      ensures n > 0 && !fault.NotSent? ==>
                forall id :: id in old(rows) && id !in locked && id !in ids
                             && old(rows)[id].status == Pending && old(rows)[id].nextAttemptAt <= now ==>
                  && |ids| == n
                  && forall other :: other in ids ==> old(rows)[other].nextAttemptAt <= old(rows)[id].nextAttemptAt
      ensures r.Ok? <==> n <= 0 || fault.Works?
      ensures r.Ok? ==> fresh(r.value) && Distinct(r.value) && |r.value| == |ids|
      ensures r.Ok? ==> forall i :: 0 <= i < |ids| ==>
                          ids[i] in rows && r.value[i].Value() == FromRow(rows[ids[i]])
    {
      ids := [];
      if n <= 0 {
        return Ok([]), [];
      }
      if fault.NotSent? {
        return Err(Unavailable), [];
      }
      ghost var some := PickExists(Due(rows, now), DueRank(rows), n, locked);
      assert PicksDue(rows, n, now, locked, some);
      var picked: seq<Id> :| PicksDue(rows, n, now, locked, picked);
      ids := picked;
      PicksDueByColumns(rows, n, now, locked, picked);
      rows := Claimed(rows, picked, now);
      if fault.NotAcknowledged? {
        return Err(Unavailable), ids;
      }
      var claimed := ReadBack(picked);
      return Ok(claimed), ids;
    }

    /** Takes ownership of rows claimed before `before`; the transition is the caller's. */
    method ClaimStalled(n: int, before: Time, now: Time, locked: set<Id>, fault: Fault)
      returns (r: Result<seq<Notification>, Error>, ids: seq<Id>)
      modifies this
      ensures n <= 0 || fault.NotSent? ==> rows == old(rows) && ids == []
      ensures n > 0 && !fault.NotSent? ==>
                PicksStuck(old(rows), n, before, locked, ids) && rows == Restamped(old(rows), ids, now)
      ensures Distinct(ids) && (n > 0 ==> |ids| <= n)
      ensures forall id :: id in ids ==>
                && id in old(rows) && id !in locked && old(rows)[id].status == Sending
                && old(rows)[id].claimedAt.Some? && old(rows)[id].claimedAt.value < before
                && id in rows && rows[id] == old(rows)[id].(claimedAt := Some(now))
      ensures forall id :: id in old(rows) && id !in ids ==> id in rows && rows[id] == old(rows)[id]
      ensures n > 0 && !fault.NotSent? ==>
                forall id :: id in old(rows) && id !in locked && id !in ids && old(rows)[id].status == Sending
                             && old(rows)[id].claimedAt.Some? && old(rows)[id].claimedAt.value < before ==>
                  && |ids| == n
                  && forall other :: other in ids ==>
                       old(rows)[other].claimedAt.value <= old(rows)[id].claimedAt.value
      ensures r.Ok? <==> n <= 0 || fault.Works?
      ensures r.Ok? ==> fresh(r.value) && Distinct(r.value) && |r.value| == |ids|
      ensures r.Ok? ==> forall i :: 0 <= i < |ids| ==>
                          ids[i] in rows && r.value[i].Value() == FromRow(rows[ids[i]])
    {
      ids := [];
      if n <= 0 {
        return Ok([]), [];
      }
      if fault.NotSent? {
        return Err(Unavailable), [];
      }
      ghost var some := PickExists(Stuck(rows, before), ClaimRank(rows), n, locked);
      assert PicksStuck(rows, n, before, locked, some);
      var picked: seq<Id> :| PicksStuck(rows, n, before, locked, picked);
      ids := picked;
      PicksStuckByColumns(rows, n, before, locked, picked);
      rows := Restamped(rows, picked, now);
      if fault.NotAcknowledged? {
        return Err(Unavailable), ids;
      }
      var stalled := ReadBack(picked);
      return Ok(stalled), ids;
    }

    /** The loop that maps the returned rows onto entities. */
    method ReadBack(ids: seq<Id>) returns (out: seq<Notification>)
      requires forall id :: id in ids ==> id in rows
      ensures fresh(out) && Distinct(out) && |out| == |ids|
      ensures forall i :: 0 <= i < |ids| ==> out[i].Value() == FromRow(rows[ids[i]])
    {
      out := [];
      for i := 0 to |ids|
        invariant fresh(out) && Distinct(out) && |out| == i
        invariant forall k :: 0 <= k < i ==> out[k].Value() == FromRow(rows[ids[k]])
      {
        var n := new Notification(FromRow(rows[ids[i]]));
        out := out + [n];
      }
    }

    method Save(n: Notification, fault: Fault) returns (r: Result<(), Error>)
      modifies this
      ensures var stored := Saved(old(rows), old(n.Value()));
              && rows == (if fault.NotSent? || stored.Err? then old(rows) else stored.value)
              && (fault.Works? ==> (r.Ok? <==> stored.Ok?) && (stored.Err? ==> r == Err(stored.error)))
              && (!fault.Works? ==> r == Err(Unavailable))
      ensures fault.Works? ==> (r.Ok? <==> n.envelope.id in old(rows)) && (r.Err? ==> r == Err(NotFound))
      ensures rows.Keys == old(rows).Keys
      ensures forall id :: id in rows ==>
                rows[id] == if id != n.envelope.id || fault.NotSent? then old(rows)[id]
                            else old(rows)[id].(
                              status := n.status, attempts := n.attempts, nextAttemptAt := n.nextAttemptAt,
                              lastError := if n.lastError == [] then None else Some(n.lastError), sentAt := n.sentAt)
    {
      if fault.NotSent? {
        return Err(Unavailable);
      }
      var id := n.envelope.id;
      if id in rows {
        rows := rows[id := rows[id].(
                       status := n.status, attempts := n.attempts, nextAttemptAt := n.nextAttemptAt,
                       lastError := NullString(n.lastError), sentAt := n.sentAt)];
        r := Ok(());
      } else {
        r := Err(NotFound);
      }
      if fault.NotAcknowledged? {
        r := Err(Unavailable);
      }
    }

    method MarkRead(recipient: Id, id: Id, now: Time) returns (r: Result<(), Error>)
      modifies this
      ensures var marked := MarkedRead(old(rows), recipient, id, now);
              && rows == (if marked.Ok? then marked.value else old(rows))
              && (r.Ok? <==> marked.Ok?)
      ensures r.Ok? <==> id in old(rows) && old(rows)[id].recipient == recipient && old(rows)[id].channel == "inapp"
      ensures rows.Keys == old(rows).Keys
      ensures forall other :: other in rows ==>
                rows[other] == if r.Err? || other != id || old(rows)[id].readAt.Some? then old(rows)[other]
                               else old(rows)[other].(readAt := Some(now))
    {
      if id !in rows || rows[id].recipient != recipient || rows[id].channel != INAPP {
        return Err(NotFound);
      }
      if rows[id].readAt.None? {
        rows := rows[id := rows[id].(readAt := Some(now))];
      }
      return Ok(());
    }
  }
}
