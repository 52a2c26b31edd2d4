/** A recipient's in-app mailbox, read page by page with a keyset cursor. */
module Mailbox {
  import opened Wrappers
  import opened NotificationDomain
  import opened Outbox

  const DEFAULT_LIST_LIMIT := 20
  const MAX_LIST_LIMIT := 100

  /** The sort key of a row: created_at, then id. */
  datatype Cursor = Cursor(createdAt: Time, id: Id)

  datatype ListFilter = ListFilter(unreadOnly: bool, limit: int, before: Option<Cursor>)

  function Normalize(f: ListFilter): (r: ListFilter)
    ensures 1 <= r.limit <= MAX_LIST_LIMIT
    ensures r.unreadOnly == f.unreadOnly && r.before == f.before
    ensures 1 <= f.limit <= MAX_LIST_LIMIT ==> r == f
    ensures f.limit > 100 ==> r.limit == 100
    ensures f.limit <= 0 ==> r.limit == 20
  {
    var g := if f.limit <= 0 then f.(limit := DEFAULT_LIST_LIMIT) else f;
    if g.limit > MAX_LIST_LIMIT then g.(limit := MAX_LIST_LIMIT) else g
  }

  function CursorOf(r: Row): Cursor {
    Cursor(r.createdAt, r.id)
  }

  /** (a.created_at, a.id) < (b.created_at, b.id) */
  predicate Older(a: Cursor, b: Cursor) {
    a.createdAt < b.createdAt || (a.createdAt == b.createdAt && a.id < b.id)
  }

  /** The rows a filter selects, before the limit. */
  predicate Matches(r: Row, recipient: Id, unreadOnly: bool) {
    r.recipient == recipient && r.channel == INAPP && (unreadOnly ==> r.readAt.None?)
  }

  predicate BeforeCursor(r: Row, before: Option<Cursor>) {
    before.Some? ==> Older(CursorOf(r), before.value)
  }

  predicate Selects(t: Table, recipient: Id, f: ListFilter, id: Id) {
    id in t && Matches(t[id], recipient, f.unreadOnly) && BeforeCursor(t[id], f.before)
  }

  /** Rows are stored under their own id. */
  predicate Keyed(t: Table) {
    forall id :: id in t ==> t[id].id == id
  }

  /** Strictly newest first. */
  predicate Descending(t: Table, ids: seq<Id>) {
    && (forall id :: id in ids ==> id in t)
    && forall i, j :: 0 <= i < j < |ids| ==> Older(CursorOf(t[ids[j]]), CursorOf(t[ids[i]]))
  }

  /** One page: the newest selected rows up to the limit, newest first. */
  predicate IsPage(t: Table, recipient: Id, f: ListFilter, ids: seq<Id>) {
    && Descending(t, ids)
    && (forall id :: id in ids ==> Selects(t, recipient, f, id))
    && |ids| <= f.limit
    && (forall id :: id in t && Selects(t, recipient, f, id) && id !in ids ==>
          |ids| == f.limit && forall other :: other in ids ==> Older(CursorOf(t[id]), CursorOf(t[other])))
  }

  /** In-app rows of the recipient, unread if asked, created before the cursor or
      at its instant with a smaller id. */
  predicate Listable(r: Row, recipient: Id, unreadOnly: bool, before: Option<Cursor>) {
    && r.recipient == recipient && r.channel == "inapp" && (unreadOnly ==> r.readAt.None?)
    && (before.Some? ==>
          || r.createdAt < before.value.createdAt
          || (r.createdAt == before.value.createdAt && r.id < before.value.id))
  }

  /** By columns: such rows, newest first and larger ids first within an instant,
      as many as there are or as the limit allows, and then none that is newer
      than one of them is left out. */
  predicate ListsByColumns(
    t: Table, recipient: Id, unreadOnly: bool, before: Option<Cursor>, limit: int, ids: seq<Id>)
  {
    && |ids| <= limit
    && (forall id :: id in ids ==> id in t && Listable(t[id], recipient, unreadOnly, before))
    && (forall i, j :: 0 <= i < j < |ids| ==>
          && ids[i] in t && ids[j] in t
          && (t[ids[i]].createdAt > t[ids[j]].createdAt
              || (t[ids[i]].createdAt == t[ids[j]].createdAt && t[ids[i]].id > t[ids[j]].id)))
    && (forall id :: id in t && id !in ids && Listable(t[id], recipient, unreadOnly, before) ==>
          && |ids| == limit
          && forall other :: other in ids ==>
               other in t && (t[other].createdAt > t[id].createdAt
                              || (t[other].createdAt == t[id].createdAt && t[other].id > t[id].id)))
  }

  lemma PageByColumns(t: Table, recipient: Id, f: ListFilter, ids: seq<Id>)
    ensures IsPage(t, recipient, f, ids) <==> ListsByColumns(t, recipient, f.unreadOnly, f.before, f.limit, ids)
  {
    assert forall id :: id in t ==>
        (Selects(t, recipient, f, id) <==> Listable(t[id], recipient, f.unreadOnly, f.before));
    if ListsByColumns(t, recipient, f.unreadOnly, f.before, f.limit, ids) {
      forall i, j | 0 <= i < j < |ids|
        ensures Older(CursorOf(t[ids[j]]), CursorOf(t[ids[i]]))
      {
      }
    }
  }

  /** The query: repeatedly the newest of what is left. */
  method ListForRecipient(t: Table, recipient: Id, filter: ListFilter) returns (ids: seq<Id>)
    requires Keyed(t)
    ensures IsPage(t, recipient, Normalize(filter), ids)
    ensures var limit := if filter.limit <= 0 then 20 else if filter.limit > 100 then 100 else filter.limit;
            ListsByColumns(t, recipient, filter.unreadOnly, filter.before, limit, ids)
  {
    var f := Normalize(filter);
    ids := NewestFirst(t, recipient, f);
    PageByColumns(t, recipient, f, ids);
  }

  method NewestFirst(t: Table, recipient: Id, f: ListFilter) returns (ids: seq<Id>)
    requires Keyed(t) && f.limit >= 0
    ensures IsPage(t, recipient, f, ids)
  {
    var rest := set id | id in t && Selects(t, recipient, f, id);
    ids := [];
    while rest != {} && |ids| < f.limit
      invariant forall id :: id in rest ==> id in t && Selects(t, recipient, f, id) && id !in ids
      invariant forall id :: id in t && Selects(t, recipient, f, id) && id !in rest ==> id in ids
      invariant Descending(t, ids) && |ids| <= f.limit
      invariant forall id :: id in ids ==> Selects(t, recipient, f, id)
      invariant forall id, other :: id in rest && other in ids ==> Older(CursorOf(t[id]), CursorOf(t[other]))
      decreases |rest|
    {
      var newest := Newest(t, rest);
      rest := rest - {newest};
      ids := ids + [newest];
    }
  }

  method Newest(t: Table, s: set<Id>) returns (newest: Id)
    requires Keyed(t) && s != {} && s <= t.Keys
    ensures newest in s
    ensures forall id :: id in s && id != newest ==> Older(CursorOf(t[id]), CursorOf(t[newest]))
  {
    newest :| newest in s;
    var rest := s - {newest};
    while rest != {}
      invariant rest <= s && newest in s && newest !in rest
      invariant forall id :: id in s && id != newest && id !in rest ==> Older(CursorOf(t[id]), CursorOf(t[newest]))
      decreases |rest|
    {
      var id :| id in rest;
      rest := rest - {id};
      if Older(CursorOf(t[newest]), CursorOf(t[id])) {
        newest := id;
      }
    }
  }

  // ------------------------------------------------------------------- handler

  /** Go's zero time.Time. */
  const ZERO_TIME: Time := 0

  /** What the handler answers: a page, and a cursor exactly when it was full. */
  datatype Response<Token> = Response(items: seq<Id>, nextCursor: Option<Token>)

  /** Reading a query parameter: strconv.ParseBool and strconv.Atoi. */
  datatype Reading = Reading(flag: string -> Option<bool>, number: string -> Option<int>)

  /** The query string; an absent parameter is empty. */
  datatype Query<Token> = Query(unread: string, limit: string, cursor: Option<Token>)

  class Handler<Token> {
    /** The codec inside the opaque token. */
    const pack: Cursor -> Token
    const unpack: Token -> Option<Cursor>
    const reading: Reading

    constructor (pack: Cursor -> Token, unpack: Token -> Option<Cursor>, reading: Reading)
      requires forall c :: unpack(pack(c)) == Some(c)
      ensures this.pack == pack && this.unpack == unpack && this.reading == reading && Lossless()
    {
      this.pack, this.unpack, this.reading := pack, unpack, reading;
    }

    ghost predicate Lossless() {
      forall c :: unpack(pack(c)) == Some(c)
    }

    /** A well-formed token with a zero time or a nil id is not a cursor. */
    function DecodeCursor(token: Token): Option<Cursor> {
      var c := unpack(token);
      if c.None? || c.value.createdAt == ZERO_TIME || c.value.id == NIL_ID then None else c
    }

    lemma CursorRoundTrip(c: Cursor)
      requires Lossless()
      ensures DecodeCursor(pack(c)) == Some(c) <==> c.createdAt != ZERO_TIME && c.id != NIL_ID
    {
      assert unpack(pack(c)) == Some(c);
    }

    /** Every parameter that is given can be read, and the limit is at least one. */
    predicate Readable(q: Query<Token>) {
      && (q.unread != "" ==> reading.flag(q.unread).Some?)
      && (q.limit != "" ==> reading.number(q.limit).Some? && reading.number(q.limit).value >= 1)
      && (q.cursor.Some? ==> DecodeCursor(q.cursor.value).Some?)
    }

    /** The filter a readable query asks for. */
    predicate Asks(q: Query<Token>, f: ListFilter)
      requires Readable(q)
    {
      && f.unreadOnly == (q.unread != "" && reading.flag(q.unread).value)
      && f.before == (if q.cursor.Some? then DecodeCursor(q.cursor.value) else None)
      && (q.limit == "" ==> f.limit == 20)
      && (q.limit != "" ==> var asked := reading.number(q.limit).value; f.limit == if asked > 100 then 100 else asked)
    }

    /** Refuses exactly what cannot be read; otherwise the filter is what was
        asked for, with the limit defaulted when absent and capped when large. */
    method ParseListFilter(q: Query<Token>) returns (r: Result<ListFilter, string>)
      ensures r.Ok? <==> Readable(q)
      ensures r.Ok? ==> Asks(q, r.value) && 1 <= r.value.limit <= MAX_LIST_LIMIT
    {
      var f := ListFilter(false, 0, None);
      if q.unread != "" {
        var v := reading.flag(q.unread);
        if v.None? {
          return Err("the unread parameter must be true or false");
        }
        f := f.(unreadOnly := v.value);
      }
      if q.limit != "" {
        var v := reading.number(q.limit);
        if v.None? || v.value < 1 {
          return Err("the limit parameter must be a positive integer");
        }
        f := f.(limit := v.value);
      }
      if q.cursor.Some? {
        var before := DecodeCursor(q.cursor.value);
        if before.None? {
          return Err("the cursor parameter is not a cursor this service issued");
        }
        f := f.(before := before);
      }
      return Ok(Normalize(f));
    }

    method List(t: Table, recipient: Id, f: ListFilter) returns (resp: Response<Token>)
      requires Keyed(t) && 1 <= f.limit <= MAX_LIST_LIMIT
      ensures IsPage(t, recipient, f, resp.items)
      ensures ListsByColumns(t, recipient, f.unreadOnly, f.before, f.limit, resp.items)
      ensures resp.nextCursor ==
              if |resp.items| == f.limit then Some(pack(CursorOf(t[resp.items[|resp.items| - 1]]))) else None
    {
      var ids := ListForRecipient(t, recipient, f);
      resp := Response(ids, None);
      if |ids| == f.limit {
        resp := resp.(nextCursor := Some(pack(CursorOf(t[ids[|ids| - 1]]))));
      }
    }
  }

  // ------------------------------------------------------- following the cursor

  /** One request of a reader, against the table as it was at that moment. */
  datatype Visit = Visit(table: Table, ids: seq<Id>)

  function LastCursor(v: Visit): Option<Cursor> {
    if v.ids == [] || v.ids[|v.ids| - 1] !in v.table then None
    else Some(CursorOf(v.table[v.ids[|v.ids| - 1]]))
  }

  /** Pages fetched one after another, each with the cursor of the one before,
      until a page is not full. */
  predicate Walk(recipient: Id, f: ListFilter, visits: seq<Visit>)
    decreases |visits|
  {
    && visits != []
    && Keyed(visits[0].table)
    && IsPage(visits[0].table, recipient, f, visits[0].ids)
    && (if |visits[0].ids| < f.limit then |visits| == 1
        else |visits| > 1 && Walk(recipient, f.(before := LastCursor(visits[0])), visits[1..]))
  }

  function Items(visits: seq<Visit>): seq<Id> {
    if visits == [] then [] else visits[0].ids + Items(visits[1..])
  }

  /** What a row is ordered by never changes while the reader walks. */
  predicate Steady(visits: seq<Visit>, key: map<Id, Cursor>) {
    forall i, id :: 0 <= i < |visits| && id in visits[i].table ==>
      id in key && CursorOf(visits[i].table[id]) == key[id]
  }

  predicate AllBefore(ids: seq<Id>, key: map<Id, Cursor>, before: Option<Cursor>) {
    forall id :: id in ids ==> id in key && (before.Some? ==> Older(key[id], before.value))
  }

  predicate Ordered(ids: seq<Id>, key: map<Id, Cursor>) {
    forall i, j {:trigger ids[i], ids[j]} :: 0 <= i < j < |ids| ==>
      ids[i] in key && ids[j] in key && Older(key[ids[j]], key[ids[i]])
  }

  /** The row is there, and matches, at every visit. */
  predicate PresentThroughout(visits: seq<Visit>, recipient: Id, unreadOnly: bool, id: Id) {
    forall i :: 0 <= i < |visits| ==> id in visits[i].table && Matches(visits[i].table[id], recipient, unreadOnly)
  }

  predicate PresentOnce(visits: seq<Visit>, recipient: Id, unreadOnly: bool, id: Id) {
    exists i :: 0 <= i < |visits| && id in visits[i].table && Matches(visits[i].table[id], recipient, unreadOnly)
  }

  /** One page, by the steady keys. */
  lemma PageIsOrdered(recipient: Id, f: ListFilter, visits: seq<Visit>, key: map<Id, Cursor>)
    requires f.limit >= 1 && Walk(recipient, f, visits) && Steady(visits, key)
    ensures Ordered(visits[0].ids, key) && AllBefore(visits[0].ids, key, f.before)
    ensures forall id :: id in visits[0].ids ==> PresentOnce(visits, recipient, f.unreadOnly, id)
    ensures |visits[0].ids| == f.limit ==>
              var last := visits[0].ids[f.limit - 1]; last in key && LastCursor(visits[0]) == Some(key[last])
  {
    var v := visits[0];
    forall id | id in v.ids
      ensures PresentOnce(visits, recipient, f.unreadOnly, id) && id in key && CursorOf(v.table[id]) == key[id]
      ensures f.before.Some? ==> Older(key[id], f.before.value)
    {
      assert Selects(v.table, recipient, f, id);
    }
    if |v.ids| == f.limit {
      assert v.ids[f.limit - 1] in v.ids;
    }
  }

  /** Pages follow on: everything in the rest is older than everything before it. */
  lemma PagesJoin(a: seq<Id>, b: seq<Id>, key: map<Id, Cursor>, before: Option<Cursor>)
    requires a != [] && Ordered(a, key) && AllBefore(a, key, before)
    requires Ordered(b, key) && a[|a| - 1] in key && AllBefore(b, key, Some(key[a[|a| - 1]]))
    ensures Ordered(a + b, key) && AllBefore(a + b, key, before)
  {
    var last := a[|a| - 1];
    forall i, j | 0 <= i < j < |a + b|
      ensures (a + b)[i] in key && (a + b)[j] in key && Older(key[(a + b)[j]], key[(a + b)[i]])
    {
      if i < |a| <= j {
        assert b[j - |a|] in b;
        assert a[i] in a;
        assert Older(key[b[j - |a|]], key[last]);
        assert i < |a| - 1 ==> a[i] in key && last in key && Older(key[last], key[a[i]]);
      }
    }
    assert last in a;
  }

  lemma LaterVisits(recipient: Id, unreadOnly: bool, visits: seq<Visit>, key: map<Id, Cursor>, id: Id)
    requires visits != [] && Steady(visits, key)
    ensures Steady(visits[1..], key)
    ensures PresentOnce(visits[1..], recipient, unreadOnly, id) ==> PresentOnce(visits, recipient, unreadOnly, id)
    ensures PresentThroughout(visits, recipient, unreadOnly, id) ==>
              PresentThroughout(visits[1..], recipient, unreadOnly, id)
  {
    assert forall i :: 0 <= i < |visits| - 1 ==> visits[1..][i] == visits[i + 1];
  }

  lemma {:induction false} WalkIsOrdered(recipient: Id, f: ListFilter, visits: seq<Visit>, key: map<Id, Cursor>)
    requires f.limit >= 1 && Walk(recipient, f, visits) && Steady(visits, key)
    ensures Ordered(Items(visits), key) && AllBefore(Items(visits), key, f.before)
    decreases |visits|
  {
    var v := visits[0];
    PageIsOrdered(recipient, f, visits, key);
    if |v.ids| < f.limit {
      assert visits[1..] == [];
      assert Items(visits) == v.ids;
    } else {
      var rest := visits[1..];
      LaterVisits(recipient, f.unreadOnly, visits, key, NIL_ID);
      WalkIsOrdered(recipient, f.(before := LastCursor(v)), rest, key);
      PagesJoin(v.ids, Items(rest), key, f.before);
    }
  }

  lemma {:induction false} WalkListsWhatWasThere(
    recipient: Id, f: ListFilter, visits: seq<Visit>, key: map<Id, Cursor>, id: Id)
    requires f.limit >= 1 && Walk(recipient, f, visits) && Steady(visits, key) && id in Items(visits)
    ensures PresentOnce(visits, recipient, f.unreadOnly, id)
    decreases |visits|
  {
    PageIsOrdered(recipient, f, visits, key);
    if id !in visits[0].ids {
      var rest := visits[1..];
      LaterVisits(recipient, f.unreadOnly, visits, key, id);
      WalkListsWhatWasThere(recipient, f.(before := LastCursor(visits[0])), rest, key, id);
    }
  }

  lemma {:induction false} WalkMissesNothing(
    recipient: Id, f: ListFilter, visits: seq<Visit>, key: map<Id, Cursor>, id: Id)
    requires f.limit >= 1 && Walk(recipient, f, visits) && Steady(visits, key)
    requires PresentThroughout(visits, recipient, f.unreadOnly, id)
    requires id in key && (f.before.Some? ==> Older(key[id], f.before.value))
    ensures id in Items(visits)
    decreases |visits|
  {
    var v := visits[0];
    assert Selects(v.table, recipient, f, id);
    if id !in v.ids {
      var last := v.ids[|v.ids| - 1];
      assert last in v.ids;
      assert Older(CursorOf(v.table[id]), CursorOf(v.table[last]));
      var rest := visits[1..];
      LaterVisits(recipient, f.unreadOnly, visits, key, id);
      WalkMissesNothing(recipient, f.(before := LastCursor(v)), rest, key, id);
    }
  }

  lemma OrderedOnce(ids: seq<Id>, key: map<Id, Cursor>)
    requires Ordered(ids, key)
    ensures Distinct(ids)
  {
    forall i, j | 0 <= i < j < |ids|
      ensures ids[i] != ids[j]
    {
      var newer, older := ids[i], ids[j];
      assert newer in key && older in key && Older(key[older], key[newer]);
    }
  }

  /** Following the cursor to its end, for every limit and filter, while rows
      come, go and are read in between: every row present and matching
      throughout is listed exactly once, everything listed was present and
      matching when its page was read, and the whole listing is strictly newest
      first by (created_at, id). */
  lemma PagingIsExact(recipient: Id, f: ListFilter, visits: seq<Visit>, key: map<Id, Cursor>)
    requires f.limit >= 1 && f.before.None? && Walk(recipient, f, visits) && Steady(visits, key)
    ensures Distinct(Items(visits)) && Ordered(Items(visits), key)
    ensures forall id :: PresentThroughout(visits, recipient, f.unreadOnly, id) && id in key ==> id in Items(visits)
    ensures forall id :: id in Items(visits) ==> PresentOnce(visits, recipient, f.unreadOnly, id)
  {
    WalkIsOrdered(recipient, f, visits, key);
    OrderedOnce(Items(visits), key);
    forall id | id in Items(visits)
      ensures PresentOnce(visits, recipient, f.unreadOnly, id)
    {
      WalkListsWhatWasThere(recipient, f, visits, key, id);
    }
    forall id | PresentThroughout(visits, recipient, f.unreadOnly, id) && id in key
      ensures id in Items(visits)
    {
      WalkMissesNothing(recipient, f, visits, key, id);
    }
  }

  /** On a mailbox that does not change, the pages are the mailbox. */
  lemma PagingAStillMailbox(recipient: Id, f: ListFilter, visits: seq<Visit>, t: Table)
    requires f.limit >= 1 && f.before.None? && Walk(recipient, f, visits)
    requires forall i :: 0 <= i < |visits| ==> visits[i].table == t
    ensures IsPage(t, recipient, f.(limit := |Items(visits)|), Items(visits))
    ensures forall id :: id in Items(visits) <==> id in t && Matches(t[id], recipient, f.unreadOnly)
    ensures ListsByColumns(t, recipient, f.unreadOnly, None, |Items(visits)|, Items(visits))
    ensures forall id :: id in Items(visits) <==>
              && id in t && t[id].recipient == recipient && t[id].channel == "inapp"
              && (f.unreadOnly ==> t[id].readAt.None?)
  {
    PageByColumns(t, recipient, f.(limit := |Items(visits)|), Items(visits));
    var key := map id | id in t :: CursorOf(t[id]);
    PagingIsExact(recipient, f, visits, key);
    forall id | id in t && Matches(t[id], recipient, f.unreadOnly)
      ensures id in Items(visits)
    {
      assert PresentThroughout(visits, recipient, f.unreadOnly, id);
    }
  }

  ghost function Remaining(t: Table, recipient: Id, f: ListFilter): set<Id> {
    set id | id in t && Selects(t, recipient, f, id)
  }

  /** The mailbox as each request finds it: rows come, and are read, but what
      appears behind a row that was there was there before. */
  ghost predicate SettlesBehind(next: nat -> Table, recipient: Id, unreadOnly: bool) {
    forall i: nat :: SettlesAt(next, i, recipient, unreadOnly)
  }

  ghost predicate SettlesAt(next: nat -> Table, i: nat, recipient: Id, unreadOnly: bool) {
    && Keyed(next(i)) && Addressable(next(i))
    && NothingNew(next(i), next(i + 1), recipient, unreadOnly)
  }

  ghost predicate NothingNew(t: Table, u: Table, recipient: Id, unreadOnly: bool) {
    forall id, other :: NothingNewBehind(t, u, recipient, unreadOnly, id, other)
  }

  predicate NothingNewBehind(t: Table, u: Table, recipient: Id, unreadOnly: bool, id: Id, other: Id) {
    id in u && other in t && Older(CursorOf(u[id]), CursorOf(t[other])) ==>
      && id in t && CursorOf(t[id]) == CursorOf(u[id])
      && (Matches(u[id], recipient, unreadOnly) ==> Matches(t[id], recipient, unreadOnly))
  }

  /** Every row can be pointed at by a cursor. */
  predicate Addressable(t: Table) {
    forall id :: id in t ==> id != NIL_ID && t[id].createdAt != ZERO_TIME
  }

  /** Each page leaves strictly fewer rows to list. */
  lemma PageShrinksTheRest(t: Table, u: Table, recipient: Id, f: ListFilter, ids: seq<Id>)
    requires f.limit >= 1 && IsPage(t, recipient, f, ids) && |ids| == f.limit
    requires NothingNew(t, u, recipient, f.unreadOnly)
    ensures Remaining(u, recipient, f.(before := LastCursor(Visit(t, ids)))) < Remaining(t, recipient, f)
  {
    var last := ids[|ids| - 1];
    assert last in ids && Selects(t, recipient, f, last);
    var g := f.(before := LastCursor(Visit(t, ids)));
    forall id | id in Remaining(u, recipient, g)
      ensures id in Remaining(t, recipient, f) && id != last
    {
      assert NothingNewBehind(t, u, recipient, f.unreadOnly, id, last);
    }
    assert last in Remaining(t, recipient, f) && last !in Remaining(u, recipient, g);
  }

  /** A full page and a walk from its last row on are a walk. */
  lemma WalkOn(recipient: Id, f: ListFilter, v: Visit, rest: seq<Visit>)
    requires Keyed(v.table) && IsPage(v.table, recipient, f, v.ids) && |v.ids| == f.limit
    requires Walk(recipient, f.(before := LastCursor(v)), rest)
    ensures Walk(recipient, f, [v] + rest)
  {
    assert ([v] + rest)[1..] == rest;
  }

  /** Each page was read from the mailbox as its request found it. */
  predicate AsFound(next: nat -> Table, i: nat, visits: seq<Visit>)
    decreases |visits|
  {
    visits == [] || (visits[0].table == next(i) && AsFound(next, i + 1, visits[1..]))
  }

  lemma FoundOn(next: nat -> Table, i: nat, v: Visit, rest: seq<Visit>)
    requires v.table == next(i) && AsFound(next, i + 1, rest)
    ensures AsFound(next, i, [v] + rest) && [v] + [] == [v]
  {
    assert ([v] + rest)[1..] == rest;
  }

  class Reader<Token> {
    const handler: Handler<Token>

    constructor (handler: Handler<Token>)
      ensures this.handler == handler
    {
      this.handler := handler;
    }

    /** One request: a page, and the cursor to continue with if it was full. */
    method ReadPage(t: Table, recipient: Id, q: Query<Token>, ghost f: ListFilter)
      returns (v: Visit, more: Option<Token>)
      requires handler.Lossless() && handler.Readable(q) && handler.Asks(q, f)
      requires Keyed(t) && Addressable(t)
      ensures v.table == t && IsPage(t, recipient, f, v.ids) && f.limit >= 1
      ensures more.Some? <==> |v.ids| == f.limit
      ensures more.Some? ==> LastCursor(v).Some? && handler.DecodeCursor(more.value) == LastCursor(v)
    {
      var parsed := handler.ParseListFilter(q);
      assert parsed.value == f;
      var resp := handler.List(t, recipient, parsed.value);
      v, more := Visit(t, resp.items), resp.nextCursor;
      if more.Some? {
        var last := resp.items[|resp.items| - 1];
        assert last in resp.items;
        handler.CursorRoundTrip(CursorOf(t[last]));
      }
    }

    /** A client that repeats its request with each next_cursor until there is
        none, over a mailbox that changes in between: it comes to an end, and
        what it read is a walk. */
    method ReadFrom(next: nat -> Table, i: nat, recipient: Id, q: Query<Token>, ghost f: ListFilter)
      returns (visits: seq<Visit>)
      requires handler.Lossless() && handler.Readable(q) && handler.Asks(q, f)
      requires SettlesBehind(next, recipient, f.unreadOnly)
      ensures Walk(recipient, f, visits)
      ensures AsFound(next, i, visits)
      decreases Remaining(next(i), recipient, f)
    {
      assert SettlesAt(next, i, recipient, f.unreadOnly);
      var v, more := ReadPage(next(i), recipient, q, f);
      visits := [v];
      FoundOn(next, i, v, []);
      if more.Some? {
        PageShrinksTheRest(next(i), next(i + 1), recipient, f, v.ids);
        var rest := ReadFrom(next, i + 1, recipient, q.(cursor := more), f.(before := LastCursor(v)));
        visits := [v] + rest;
        WalkOn(recipient, f, v, rest);
        FoundOn(next, i, v, rest);
      }
    }
  }
}
