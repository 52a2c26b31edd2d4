/** Reading a mailbox, page by page, while the outbox runs. */
module MailboxRuns {
  import opened Wrappers
  import opened NotificationDomain
  import opened Outbox
  import opened OutboxProtocol
  import opened Mailbox

  /** Each page is read after a further leg of one run. */
  predicate ReadAlong(c: Config, s: State, legs: seq<seq<Step>>, visits: seq<Visit>)
    decreases |legs|
  {
    && |legs| == |visits|
    && (legs == [] ||
        (IsRun(c, s, legs[0]) && visits[0].table == Exec(c, s, legs[0]).rows &&
         ReadAlong(c, Exec(c, s, legs[0]), legs[1..], visits[1..])))
  }

  function KeysOf(t: Table): map<Id, Cursor> {
    map id | id in t :: CursorOf(t[id])
  }

  /** Whatever the run does to a row, it sorts where it always did. */
  predicate SortsAs(t: Table, key: map<Id, Cursor>) {
    forall id :: id in t ==> id in key && CursorOf(t[id]) == key[id]
  }

  lemma RowsKeepTheirPlace(t: Table, u: Table, key: map<Id, Cursor>)
    requires Carries(t, u) && SortsAs(u, key)
    ensures SortsAs(t, key)
  {
    forall id | id in t
      ensures id in key && CursorOf(t[id]) == key[id]
    {
      assert EnvelopeOf(u[id]) == EnvelopeOf(t[id]);
    }
  }

  lemma {:induction false} RunsAreSteady(c: Config, s: State, legs: seq<seq<Step>>, visits: seq<Visit>)
    returns (key: map<Id, Cursor>)
    requires Configured(c) && Inv(c, s) && ReadAlong(c, s, legs, visits)
    ensures SortsAs(s.rows, key) && Steady(visits, key)
    decreases |legs|
  {
    if legs == [] {
      key := KeysOf(s.rows);
    } else {
      var z := Exec(c, s, legs[0]);
      EveryRunKeepsInv(c, s, legs[0]);
      key := RunsAreSteady(c, z, legs[1..], visits[1..]);
      RowsKeepTheirPlace(s.rows, z.rows, key);
      forall i, id | 0 <= i < |visits| && id in visits[i].table
        ensures id in key && CursorOf(visits[i].table[id]) == key[id]
      {
        if i > 0 {
          assert visits[i] == visits[1..][i - 1];
        }
      }
    }
  }

  /** A reader who follows the cursor while producers, workers, sweepers and
      other readers act in between sees no row twice, and every row that is
      there and matches at each of its requests. */
  lemma PagingDuringARun(c: Config, s: State, legs: seq<seq<Step>>, recipient: Id, f: ListFilter, visits: seq<Visit>)
    requires Configured(c) && Inv(c, s) && ReadAlong(c, s, legs, visits)
    requires f.limit >= 1 && f.before.None? && Walk(recipient, f, visits)
    ensures Distinct(Items(visits))
    ensures forall id :: PresentThroughout(visits, recipient, f.unreadOnly, id) ==> id in Items(visits)
    ensures forall id :: id in Items(visits) ==> PresentOnce(visits, recipient, f.unreadOnly, id)
  {
    var key := RunsAreSteady(c, s, legs, visits);
    PagingIsExact(recipient, f, visits, key);
    forall id | PresentThroughout(visits, recipient, f.unreadOnly, id)
      ensures id in key
    {
      assert id in visits[0].table;
    }
  }

  /** A row that is there at the first request, and is not filtered by its read
      mark, is listed: the run never removes it. */
  lemma NothingIsMissedMidRun(
    c: Config, s: State, legs: seq<seq<Step>>, recipient: Id, f: ListFilter, visits: seq<Visit>, id: Id)
    requires Configured(c) && Inv(c, s) && ReadAlong(c, s, legs, visits)
    requires f.limit >= 1 && f.before.None? && !f.unreadOnly && Walk(recipient, f, visits)
    requires id in s.rows && Matches(s.rows[id], recipient, false)
    ensures id in Items(visits)
  {
    StaysListed(c, s, legs, recipient, visits, id);
    PagingDuringARun(c, s, legs, recipient, f, visits);
  }

  lemma {:induction false} StaysListed(
    c: Config, s: State, legs: seq<seq<Step>>, recipient: Id, visits: seq<Visit>, id: Id)
    requires Configured(c) && Inv(c, s) && ReadAlong(c, s, legs, visits)
    requires id in s.rows && Matches(s.rows[id], recipient, false)
    ensures PresentThroughout(visits, recipient, false, id)
    decreases |legs|
  {
    if legs != [] {
      var z := Exec(c, s, legs[0]);
      EveryRunKeepsInv(c, s, legs[0]);
      assert EnvelopeOf(z.rows[id]) == EnvelopeOf(s.rows[id]);
      StaysListed(c, z, legs[1..], recipient, visits[1..], id);
      forall i | 0 <= i < |visits|
        ensures id in visits[i].table && Matches(visits[i].table[id], recipient, false)
      {
        if i > 0 {
          assert visits[i] == visits[1..][i - 1];
        }
      }
    }
  }

  /** Every enqueue is stamped with a real instant. */
  predicate Stamped(steps: seq<Step>) {
    forall i :: 0 <= i < |steps| && steps[i].Enqueue? ==> steps[i].at != ZERO_TIME
  }

  /** No stored row has the nil id, and none the zero time unless an enqueue was
      stamped with it: the cursors of stored rows are the cursors a reader gets,
      and every one of them is accepted when it comes back. */
  lemma {:induction false} StoredRowsAreAddressable(c: Config, s: State, steps: seq<Step>)
    requires Configured(c) && Inv(c, s) && Addressable(s.rows) && IsRun(c, s, steps) && Stamped(steps)
    ensures Addressable(Exec(c, s, steps).rows)
    decreases |steps|
  {
    if steps != [] {
      var z := Apply(c, s, steps[0]);
      StepKeepsInv(c, s, steps[0]);
      StepCarries(c, s, steps[0]);
      forall id | id in z.rows
        ensures id != NIL_ID && z.rows[id].createdAt != ZERO_TIME
      {
        assert RowOk(c, id, z.rows[id]);
        assert id in s.rows ==> EnvelopeOf(z.rows[id]).createdAt == EnvelopeOf(s.rows[id]).createdAt;
      }
      StoredRowsAreAddressable(c, z, steps[1..]);
    }
  }

  lemma IssuedCursorsAreAccepted<Token>(
    c: Config, now: Time, steps: seq<Step>, handler: Handler<Token>, id: Id)
    requires Configured(c) && IsRun(c, Start(now), steps) && Stamped(steps) && handler.Lossless()
    requires id in Exec(c, Start(now), steps).rows
    ensures var cursor := CursorOf(Exec(c, Start(now), steps).rows[id]);
            handler.DecodeCursor(handler.pack(cursor)) == Some(cursor)
  {
    StoredRowsAreAddressable(c, Start(now), steps);
    EveryRunKeepsInv(c, Start(now), steps);
    var row := Exec(c, Start(now), steps).rows[id];
    assert RowOk(c, id, row);
    handler.CursorRoundTrip(CursorOf(row));
  }
}
