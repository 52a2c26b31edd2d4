/** Per-user delivery preferences: sparse rows, the gate they put in front of
    an enqueue, and the matrix a user is shown. */
module Preferences {
  import opened Wrappers
  import opened NotificationDomain

  datatype PreferenceError = InvalidPreference | PreferenceProtected | NotStored

  /** How a write can go: it runs, it never arrives, or only its answer is lost. */
  datatype Fault = Works | NotSent | NotAcknowledged

  datatype Key = Key(user: Id, channel: Channel, category: Category)

  datatype Stored = Stored(enabled: bool, updatedAt: Time)

  /** notification_preferences, under its primary key. */
  type Table = map<Key, Stored>

  /** Security notifications by email are outside the user's control. */
  predicate Protected(ch: Channel, cat: Category) {
    ch == EMAIL && cat == SECURITY
  }

  class Preference {
    const key: Key
    var enabled: bool
    var updatedAt: Time

    constructor (key: Key, s: Stored)
      ensures this.key == key && Value() == s
    {
      this.key, enabled, updatedAt := key, s.enabled, s.updatedAt;
    }

    function Value(): Stored
      reads this
    {
      Stored(enabled, updatedAt)
    }

    /** Refuses to disable a protected pair, and then leaves the entity untouched. */
    method SetEnabled(on: bool, now: Time) returns (r: Result<(), PreferenceError>)
      modifies this
      ensures r.Err? <==> !on && Protected(key.channel, key.category)
      ensures r.Err? <==> !on && key.channel == "email" && key.category == "security"
      ensures r.Ok? ==> enabled == on && updatedAt == now
      ensures Value() == if r.Ok? then Stored(on, now) else old(Value())
      ensures old(enabled) && Protected(key.channel, key.category) ==> enabled
    {
      if !on && Protected(key.channel, key.category) {
        return Err(PreferenceProtected);
      }
      enabled := on;
      updatedAt := now;
      return Ok(());
    }
  }

  /** One stored row as the domain sees it. */
  datatype Choice = Choice(key: Key, enabled: bool, updatedAt: Time)

  function NewPreference(key: Key, enabled: bool, now: Time): (r: Result<Choice, PreferenceError>)
    ensures r.Ok? <==>
      && key.user != NIL_ID && key.channel in CHANNELS && key.category in CATEGORIES
      && (enabled || key.channel != EMAIL || key.category != SECURITY)
    ensures r.Ok? ==> r.value == Choice(key, enabled, now)
    ensures r == Err(PreferenceProtected) ==> !enabled && key.channel == EMAIL && key.category == SECURITY
    ensures r.Err? ==> !r.error.NotStored?
  {
    if key.user == NIL_ID then Err(InvalidPreference)
    else if !ValidChannel(key.channel) then Err(InvalidPreference)
    else if !ValidCategory(key.category) then Err(InvalidPreference)
    else if !enabled && Protected(key.channel, key.category) then Err(PreferenceProtected)
    else Ok(Choice(key, enabled, now))
  }

  /** The scan: the first row for the pair decides, and absence means enabled. */
  function ScanAllowed(prefs: seq<Choice>, ch: Channel, cat: Category): bool {
    if prefs == [] then true
    else if prefs[0].key.channel == ch && prefs[0].key.category == cat then prefs[0].enabled
    else ScanAllowed(prefs[1..], ch, cat)
  }

  function Allowed(prefs: seq<Choice>, ch: Channel, cat: Category): bool {
    Protected(ch, cat) || ScanAllowed(prefs, ch, cat)
  }

  /** What the table says about one pair of one user. */
  predicate Effective(t: Table, user: Id, ch: Channel, cat: Category) {
    Protected(ch, cat) || (Key(user, ch, cat) in t ==> t[Key(user, ch, cat)].enabled)
  }

  /** A listing of a user's rows, each once and as stored; the query orders it,
      and nothing depends on that. */
  predicate Lists(t: Table, user: Id, prefs: seq<Choice>) {
    && (forall i :: 0 <= i < |prefs| ==>
          && prefs[i].key.user == user && prefs[i].key in t
          && t[prefs[i].key] == Stored(prefs[i].enabled, prefs[i].updatedAt))
    && NoRepeats(prefs)
    && (forall k :: k in t && k.user == user ==> exists i :: 0 <= i < |prefs| && prefs[i].key == k)
  }

  lemma {:induction false} ScanFindsThePair(prefs: seq<Choice>, ch: Channel, cat: Category) returns (at: int)
    ensures -1 <= at < |prefs|
    ensures at >= 0 ==> prefs[at].key.channel == ch && prefs[at].key.category == cat
                        && ScanAllowed(prefs, ch, cat) == prefs[at].enabled
    ensures at < 0 ==> ScanAllowed(prefs, ch, cat)
                       && forall i :: 0 <= i < |prefs| ==> prefs[i].key.channel != ch || prefs[i].key.category != cat
  {
    at := -1;
    if prefs != [] {
      if prefs[0].key.channel == ch && prefs[0].key.category == cat {
        at := 0;
      } else {
        var rest := ScanFindsThePair(prefs[1..], ch, cat);
        at := if rest < 0 then -1 else rest + 1;
        forall i | 0 <= i < |prefs| && rest < 0
          ensures prefs[i].key.channel != ch || prefs[i].key.category != cat
        {
          assert i > 0 ==> prefs[i] == prefs[1..][i - 1];
        }
      }
    }
  }

  /** The gate gives the answer the table holds, in whatever order rows are listed. */
  lemma GateReadsTheTable(t: Table, user: Id, prefs: seq<Choice>, ch: Channel, cat: Category)
    requires Lists(t, user, prefs)
    ensures Allowed(prefs, ch, cat) == Effective(t, user, ch, cat)
    ensures Allowed(prefs, ch, cat) <==>
              || (ch == "email" && cat == "security")
              || Key(user, ch, cat) !in t || t[Key(user, ch, cat)].enabled
  {
    var at := ScanFindsThePair(prefs, ch, cat);
    var key := Key(user, ch, cat);
    if at >= 0 {
      assert prefs[at].key == key;
    }
  }

  class PreferenceRepo {
    var rows: Table

    constructor ()
      ensures rows == map[]
    {
      rows := map[];
    }

    method ListForUser(user: Id) returns (prefs: seq<Choice>)
      ensures Lists(rows, user, prefs)
    {
      prefs := [];
      var rest := set k | k in rows && k.user == user;
      while rest != {}
        invariant forall k :: k in rest ==> k in rows && k.user == user
        invariant forall i :: 0 <= i < |prefs| ==>
                    && prefs[i].key.user == user && prefs[i].key in rows && prefs[i].key !in rest
                    && rows[prefs[i].key] == Stored(prefs[i].enabled, prefs[i].updatedAt)
        invariant NoRepeats(prefs)
        invariant forall k :: k in rows && k.user == user && k !in rest ==>
                    exists i :: 0 <= i < |prefs| && prefs[i].key == k
        decreases |rest|
      {
        var k :| k in rest;
        rest := rest - {k};
        ghost var before := prefs;
        prefs := prefs + [Choice(k, rows[k].enabled, rows[k].updatedAt)];
        assert prefs[|before|].key == k;
        forall q | q in rows && q.user == user && q !in rest && q != k
          ensures exists i :: 0 <= i < |prefs| && prefs[i].key == q
        {
          var i :| 0 <= i < |before| && before[i].key == q;
          assert prefs[i].key == q;
        }
      }
    }

    /** One statement: every row or none, and no other key either way. Naming a
        key twice is an error, and so is a database that is down; then nothing
        is written, unless only the answer was lost. Nothing to write is no
        round trip, and always works. */
    method Upsert(prefs: seq<Choice>, fault: Fault) returns (ok: bool)
      modifies this
      ensures ok <==> prefs == [] || (NoRepeats(prefs) && fault.Works?)
      ensures !NoRepeats(prefs) || fault.NotSent? ==> rows == old(rows)
      ensures NoRepeats(prefs) && !fault.NotSent? ==>
                && rows == Upserted(old(rows), prefs)
                && (forall i :: 0 <= i < |prefs| ==>
                      prefs[i].key in rows && rows[prefs[i].key] == Stored(prefs[i].enabled, prefs[i].updatedAt))
                && (forall k :: (forall i :: 0 <= i < |prefs| ==> prefs[i].key != k) ==>
                      (k in rows <==> k in old(rows)) && (k in rows ==> rows[k] == old(rows)[k]))
    {
      if prefs == [] {
        return true;
      }
      if !NoRepeats(prefs) || fault.NotSent? {
        return false;
      }
      UpsertedHolds(rows, prefs);
      rows := Upserted(rows, prefs);
      return fault.Works?;
    }
  }

  lemma {:induction false} UpsertedHolds(t: Table, prefs: seq<Choice>)
    requires NoRepeats(prefs)
    ensures var u := Upserted(t, prefs);
            && (forall i :: 0 <= i < |prefs| ==>
                  prefs[i].key in u && u[prefs[i].key] == Stored(prefs[i].enabled, prefs[i].updatedAt))
            && (forall k :: (forall i :: 0 <= i < |prefs| ==> prefs[i].key != k) ==>
                  (k in u <==> k in t) && (k in u ==> u[k] == t[k]))
    decreases |prefs|
  {
    if prefs != [] {
      var rest := prefs[1..];
      var mid := t[prefs[0].key := Stored(prefs[0].enabled, prefs[0].updatedAt)];
      assert forall i :: 0 <= i < |rest| ==> rest[i] == prefs[i + 1];
      UpsertedHolds(mid, rest);
      var u := Upserted(mid, rest);
      forall i | 0 <= i < |prefs|
        ensures prefs[i].key in u && u[prefs[i].key] == Stored(prefs[i].enabled, prefs[i].updatedAt)
      {
        if i > 0 {
          assert rest[i - 1] == prefs[i];
        }
      }
    }
  }

  predicate NoRepeats(prefs: seq<Choice>) {
    forall i, j :: 0 <= i < j < |prefs| ==> prefs[i].key != prefs[j].key
  }

  function Upserted(t: Table, prefs: seq<Choice>): Table
    decreases |prefs|
  {
    if prefs == [] then t
    else Upserted(t[prefs[0].key := Stored(prefs[0].enabled, prefs[0].updatedAt)], prefs[1..])
  }

  datatype Update = Update(channel: Channel, category: Category, enabled: bool)

  datatype View = View(channel: Channel, category: Category, enabled: bool)

  /** Every channel crossed with every category, with the answer the gate gives. */
  predicate IsMatrix(t: Table, user: Id, views: seq<View>) {
    && |views| == |CHANNELS| * |CATEGORIES|
    && forall i, j :: 0 <= i < |CHANNELS| && 0 <= j < |CATEGORIES| ==>
         views[i * |CATEGORIES| + j] ==
         View(CHANNELS[i], CATEGORIES[j], Effective(t, user, CHANNELS[i], CATEGORIES[j]))
  }

  function KeyOf(user: Id, u: Update): Key {
    Key(user, u.channel, u.category)
  }

  /** The request names each pair once, knows every channel and category, and
      leaves the protected pair alone. */
  predicate Acceptable(user: Id, updates: seq<Update>) {
    && (forall i :: 0 <= i < |updates| ==> NewPreference(KeyOf(user, updates[i]), updates[i].enabled, 0).Ok?)
    && (forall i, j :: 0 <= i < j < |updates| ==> KeyOf(user, updates[i]) != KeyOf(user, updates[j]))
  }

  function Choices(user: Id, updates: seq<Update>, now: Time): (r: seq<Choice>)
    ensures |r| == |updates|
    ensures forall i :: 0 <= i < |r| ==> r[i] == Choice(KeyOf(user, updates[i]), updates[i].enabled, now)
  {
    seq(|updates|, i requires 0 <= i < |updates| => Choice(KeyOf(user, updates[i]), updates[i].enabled, now))
  }

  /** Writing a request's choices: each pair it names holds what it says, and
      every other key what it held. */
  lemma ChoicesLand(t: Table, user: Id, updates: seq<Update>, now: Time)
    requires Acceptable(user, updates)
    ensures var u := Upserted(t, Choices(user, updates, now));
            && (forall i :: 0 <= i < |updates| ==>
                  var key := Key(user, updates[i].channel, updates[i].category);
                  key in u && u[key] == Stored(updates[i].enabled, now))
            && (forall k :: (forall i :: 0 <= i < |updates| ==>
                               k != Key(user, updates[i].channel, updates[i].category)) ==>
                  (k in u <==> k in t) && (k in u ==> u[k] == t[k]))
  {
    var prefs := Choices(user, updates, now);
    UpsertedHolds(t, prefs);
    var u := Upserted(t, prefs);
    forall k | forall i :: 0 <= i < |updates| ==> k != Key(user, updates[i].channel, updates[i].category)
      ensures (k in u <==> k in t) && (k in u ==> u[k] == t[k])
    {
      assert forall i :: 0 <= i < |prefs| ==> prefs[i].key == Key(user, updates[i].channel, updates[i].category);
    }
    forall i | 0 <= i < |updates|
      ensures var key := Key(user, updates[i].channel, updates[i].category);
              key in u && u[key] == Stored(updates[i].enabled, now)
    {
      assert prefs[i].key == Key(user, updates[i].channel, updates[i].category);
    }
  }

  /** The answer for one pair, in full. */
  predicate IsOpen(t: Table, user: Id, ch: Channel, cat: Category) {
    || (ch == "email" && cat == "security")
    || Key(user, ch, cat) !in t || t[Key(user, ch, cat)].enabled
  }

  /** The nine pairs in order. */
  predicate IsMatrixInFull(t: Table, user: Id, views: seq<View>) {
    && |views| == 9
    && forall i, j :: 0 <= i < 3 && 0 <= j < 3 ==>
         var ch, cat := ["email", "inapp", "webhook"][i], ["security", "account", "system"][j];
         views[i * 3 + j] == View(ch, cat, IsOpen(t, user, ch, cat))
  }

  lemma MatrixInFull(t: Table, user: Id, views: seq<View>)
    requires IsMatrix(t, user, views)
    ensures IsMatrixInFull(t, user, views)
  {
    forall i, j | 0 <= i < 3 && 0 <= j < 3
      ensures var ch, cat := ["email", "inapp", "webhook"][i], ["security", "account", "system"][j];
              views[i * 3 + j] == View(ch, cat, IsOpen(t, user, ch, cat))
    {
      assert views[i * |CATEGORIES| + j] ==
             View(CHANNELS[i], CATEGORIES[j], Effective(t, user, CHANNELS[i], CATEGORIES[j]));
    }
  }

  class Service {
    const repo: PreferenceRepo

    constructor (repo: PreferenceRepo)
      ensures this.repo == repo
    {
      this.repo := repo;
    }

    method GetPreferences(user: Id) returns (views: seq<View>)
      ensures IsMatrix(repo.rows, user, views)
      ensures IsMatrixInFull(repo.rows, user, views)
    {
      var prefs := repo.ListForUser(user);
      views := [];
      for i := 0 to |CHANNELS|
        invariant |views| == i * |CATEGORIES|
        invariant forall k, j :: 0 <= k < i && 0 <= j < |CATEGORIES| ==>
                    views[k * |CATEGORIES| + j] ==
                    View(CHANNELS[k], CATEGORIES[j], Effective(repo.rows, user, CHANNELS[k], CATEGORIES[j]))
      {
        for c := 0 to |CATEGORIES|
          invariant |views| == i * |CATEGORIES| + c
          invariant forall k, j :: 0 <= k <= i && 0 <= j < |CATEGORIES| && (k < i || j < c) ==>
                      views[k * |CATEGORIES| + j] ==
                      View(CHANNELS[k], CATEGORIES[j], Effective(repo.rows, user, CHANNELS[k], CATEGORIES[j]))
        {
          GateReadsTheTable(repo.rows, user, prefs, CHANNELS[i], CATEGORIES[c]);
          views := views + [View(CHANNELS[i], CATEGORIES[c], Allowed(prefs, CHANNELS[i], CATEGORIES[c]))];
        }
      }
      MatrixInFull(repo.rows, user, views);
    }

    /** Whole or not at all: a refused request changes nothing, and neither does
        one whose write never arrives. The matrix is read back, so it is missing
        when the write or the read fails. */
    method UpdatePreferences(user: Id, updates: seq<Update>, now: Time, fault: Fault, unreadable: bool)
      returns (r: Result<seq<View>, PreferenceError>)
      modifies repo
      ensures r.Ok? <==> Acceptable(user, updates) && (updates == [] || fault.Works?) && !unreadable
      ensures r == Err(NotStored) <==> Acceptable(user, updates) && ((updates != [] && !fault.Works?) || unreadable)
      ensures repo.rows == if Acceptable(user, updates) && !fault.NotSent?
                           then Upserted(old(repo.rows), Choices(user, updates, now)) else old(repo.rows)
      ensures r.Ok? ==> IsMatrix(repo.rows, user, r.value) && IsMatrixInFull(repo.rows, user, r.value)
      ensures Acceptable(user, updates) && !fault.NotSent? ==>
                && (forall i :: 0 <= i < |updates| ==>
                      var key := Key(user, updates[i].channel, updates[i].category);
                      key in repo.rows && repo.rows[key] == Stored(updates[i].enabled, now))
                && (forall k :: (forall i :: 0 <= i < |updates| ==>
                                   k != Key(user, updates[i].channel, updates[i].category)) ==>
                      && (k in repo.rows <==> k in old(repo.rows))
                      && (k in repo.rows ==> repo.rows[k] == old(repo.rows)[k]))
      ensures r == Err(PreferenceProtected) ==>
                exists i :: 0 <= i < |updates|
                            && !updates[i].enabled && Protected(updates[i].channel, updates[i].category)
    {
      var seen: set<(Channel, Category)> := {};
      var prefs: seq<Choice> := [];
      for i := 0 to |updates|
        invariant prefs == Choices(user, updates[..i], now)
        invariant forall p :: p in seen <==> exists j :: 0 <= j < i && p == (updates[j].channel, updates[j].category)
        invariant Acceptable(user, updates[..i])
      {
        var u := updates[i];
        if (u.channel, u.category) in seen {
          var j :| 0 <= j < i && (u.channel, u.category) == (updates[j].channel, updates[j].category);
          assert KeyOf(user, updates[j]) == KeyOf(user, u);
          return Err(InvalidPreference);
        }
        var p := NewPreference(KeyOf(user, u), u.enabled, now);
        if p.Err? {
          assert NewPreference(KeyOf(user, u), u.enabled, 0).Err?;
          return Err(p.error);
        }
        assert forall j :: 0 <= j < i ==>
            (updates[j].channel, updates[j].category) in seen && KeyOf(user, updates[j]) != KeyOf(user, u);
        seen := seen + {(u.channel, u.category)};
        prefs := prefs + [p.value];
        assert updates[..i + 1] == updates[..i] + [u];
        assert NewPreference(KeyOf(user, u), u.enabled, 0).Ok?;
      }
      assert updates[..|updates|] == updates;
      ChoicesLand(repo.rows, user, updates, now);
      var ok := repo.Upsert(prefs, fault);
      if !ok || unreadable {
        return Err(NotStored);
      }
      var views := GetPreferences(user);
      return Ok(views);
    }
  }

  // ------------------------------------------------------------------- history

  /** One call of UpdatePreferences. */
  datatype Call = Call(user: Id, updates: seq<Update>, now: Time, fault: Fault)

  /** The request is valid and its write arrives, acknowledged or not. */
  predicate Lands(c: Call) {
    Acceptable(c.user, c.updates) && !c.fault.NotSent?
  }

  function After(t: Table, c: Call): Table {
    if Lands(c) then Upserted(t, Choices(c.user, c.updates, c.now)) else t
  }

  function History(t: Table, calls: seq<Call>): Table
    decreases |calls|
  {
    if calls == [] then t else History(After(t, calls[0]), calls[1..])
  }

  /** What a call said about a pair, if it landed and named it. */
  function Said(c: Call, key: Key): Option<bool> {
    if !Lands(c) || c.user != key.user then None else Named(c.updates, key)
  }

  function Named(updates: seq<Update>, key: Key): Option<bool> {
    if updates == [] then None
    else if updates[0].channel == key.channel && updates[0].category == key.category then Some(updates[0].enabled)
    else Named(updates[1..], key)
  }

  /** The last word that landed on a pair. */
  function LastWord(calls: seq<Call>, key: Key): Option<bool> {
    if calls == [] then None
    else
      var later := LastWord(calls[1..], key);
      if later.Some? then later else Said(calls[0], key)
  }

  function Holds(t: Table, key: Key): Option<bool> {
    if key in t then Some(t[key].enabled) else None
  }

  lemma {:induction false} UpsertSays(t: Table, user: Id, updates: seq<Update>, now: Time, key: Key)
    requires Acceptable(user, updates)
    ensures Holds(Upserted(t, Choices(user, updates, now)), key) ==
            if user == key.user && Named(updates, key).Some? then Named(updates, key) else Holds(t, key)
    decreases |updates|
  {
    var prefs := Choices(user, updates, now);
    if updates != [] {
      var rest := updates[1..];
      assert prefs[1..] == Choices(user, rest, now);
      var u := t[prefs[0].key := Stored(prefs[0].enabled, prefs[0].updatedAt)];
      assert forall i :: 0 <= i < |rest| ==> rest[i] == updates[i + 1];
      UpsertSays(u, user, rest, now, key);
      if prefs[0].key == key {
        NamedOnce(rest, key, user);
      }
    }
  }

  lemma {:induction false} NamedOnce(updates: seq<Update>, key: Key, user: Id)
    requires forall i :: 0 <= i < |updates| ==> KeyOf(user, updates[i]) != key
    requires user == key.user
    ensures Named(updates, key).None?
    decreases |updates|
  {
    if updates != [] {
      assert KeyOf(user, updates[0]) != key;
      NamedOnce(updates[1..], key, user);
    }
  }

  lemma {:induction false} HistoryHolds(t: Table, calls: seq<Call>, key: Key)
    ensures Holds(History(t, calls), key) ==
            if LastWord(calls, key).Some? then LastWord(calls, key) else Holds(t, key)
    decreases |calls|
  {
    if calls != [] {
      var c := calls[0];
      if Lands(c) {
        UpsertSays(t, c.user, c.updates, c.now, key);
      }
      HistoryHolds(After(t, c), calls[1..], key);
    }
  }

  /** After any sequence of updates by anyone, landed, refused or lost: a pair is on
      if it is protected, else as last landed, else on; the matrix shows it
      and the gate applies it. */
  lemma MatrixAndGateAgree(calls: seq<Call>, user: Id, ch: Channel, cat: Category, prefs: seq<Choice>)
    requires Lists(History(map[], calls), user, prefs)
    ensures var word := LastWord(calls, Key(user, ch, cat));
            && Effective(History(map[], calls), user, ch, cat) == (Protected(ch, cat) || word != Some(false))
            && Allowed(prefs, ch, cat) == Effective(History(map[], calls), user, ch, cat)
            && (Allowed(prefs, ch, cat) <==> (ch == "email" && cat == "security") || word != Some(false))
  {
    HistoryHolds(map[], calls, Key(user, ch, cat));
    GateReadsTheTable(History(map[], calls), user, prefs, ch, cat);
  }
}
