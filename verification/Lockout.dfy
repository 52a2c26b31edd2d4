/** Login lockout: a counter and a timestamp on the stored account. Every clock
    reading a login makes is its own instant. */
module Lockout {
  import opened Wrappers

  type Time = int
  type UserId = nat

  datatype Config = Config(maxFailedAttempts: int, lockDuration: int)

  /** The lockout columns of the stored user. */
  datatype Account = Account(failed: int, lockedUntil: Option<Time>)

  predicate LockedAt(u: Account, now: Time) {
    u.lockedUntil.Some? && now < u.lockedUntil.value
  }

  function FailedOnce(c: Config, u: Account, now: Time): Account {
    var failed := u.failed + 1;
    Account(failed, if failed >= c.maxFailedAttempts then Some(now + c.lockDuration) else u.lockedUntil)
  }

  class User {
    const id: UserId
    var failed: int
    var lockedUntil: Option<Time>

    constructor (id: UserId, u: Account)
      ensures this.id == id && Value() == u
    {
      this.id, failed, lockedUntil := id, u.failed, u.lockedUntil;
    }

    function Value(): Account
      reads this
    {
      Account(failed, lockedUntil)
    }

    predicate IsLocked(now: Time)
      reads this
    {
      lockedUntil.Some? && now < lockedUntil.value
    }

    method RecordFailedLogin(c: Config, now: Time)
      modifies this
      ensures Value() == FailedOnce(c, old(Value()), now)
      ensures failed == old(failed) + 1
      ensures lockedUntil == if failed >= c.maxFailedAttempts then Some(now + c.lockDuration) else old(lockedUntil)
    {
      failed := failed + 1;
      if failed >= c.maxFailedAttempts {
        lockedUntil := Some(now + c.lockDuration);
      }
    }

    method ResetFailedLogins()
      modifies this
      ensures Value() == Account(0, None) && failed == 0 && lockedUntil.None?
    {
      failed := 0;
      lockedUntil := None;
    }
  }

  /** One login: whether the password is right, whether the save lands, and its
      four clock readings: the lock check, the re-check, the recorded failure,
      and the check of what the failure did. */
  datatype Attempt = Attempt(correct: bool, saved: bool, checked: Time, rechecked: Time, recorded: Time, settled: Time)

  predicate InOrder(a: Attempt) {
    a.checked <= a.rechecked <= a.recorded <= a.settled
  }

  datatype Outcome = UnknownUser | AccountLocked | BadPassword | SaveFailed | Authenticated

  /** What is stored, what the caller is told, and the lock that is announced. */
  datatype Effect = Effect(account: Account, outcome: Outcome, announced: Option<Time>)

  function Attempted(c: Config, u: Account, a: Attempt): Effect {
    if LockedAt(u, a.checked) then Effect(u, AccountLocked, None)
    else if !a.correct then
      var v := FailedOnce(c, u, a.recorded);
      Effect(if a.saved then v else u, BadPassword,
             if !LockedAt(u, a.rechecked) && LockedAt(v, a.settled) then v.lockedUntil else None)
    else
      Effect(if a.saved then Account(0, None) else u, if a.saved then Authenticated else SaveFailed, None)
  }

  /** The password was compared. */
  predicate Evaluated(u: Account, a: Attempt) {
    !LockedAt(u, a.checked)
  }

  class LoginService {
    const cfg: Config
    var users: map<string, UserId>
    var accounts: map<UserId, Account>
    /** What the notifier was told, in order. */
    var announced: seq<(UserId, Time)>

    constructor (cfg: Config)
      ensures this.cfg == cfg && users == map[] && accounts == map[] && announced == []
    {
      this.cfg, users, accounts, announced := cfg, map[], map[], [];
    }

    /** Up to the point where tokens are issued. */
    method Login(username: string, a: Attempt) returns (outcome: Outcome)
      requires forall name :: name in users ==> users[name] in accounts
      requires InOrder(a)
      modifies this`accounts, this`announced
      ensures username !in users ==>
                outcome == UnknownUser && accounts == old(accounts) && announced == old(announced)
      ensures username in users ==>
                var id := users[username]; var e := Attempted(cfg, old(accounts)[id], a);
                && outcome == e.outcome
                && accounts == old(accounts)[id := e.account]
                && announced == old(announced) + (if e.announced.Some? then [(id, e.announced.value)] else [])
      ensures outcome == UnknownUser <==> username !in users
      ensures username in users ==>
                var id := users[username]; var u := old(accounts)[id];
                var locked := u.lockedUntil.Some? && a.checked < u.lockedUntil.value;
                && (outcome == AccountLocked <==> locked)
                && (outcome == BadPassword <==> !locked && !a.correct)
                && (outcome == Authenticated <==> !locked && a.correct && a.saved)
                && (outcome == SaveFailed <==> !locked && a.correct && !a.saved)
      ensures username in users ==>
                var id := users[username]; var u := old(accounts)[id]; var until := a.recorded + cfg.lockDuration;
                var reached := u.failed + 1 >= cfg.maxFailedAttempts;
                && (outcome == AccountLocked || !a.saved ==> accounts == old(accounts))
                && (outcome == Authenticated ==> accounts == old(accounts)[id := Account(0, None)])
                && (outcome == BadPassword && a.saved ==>
                      accounts == old(accounts)[id := Account(u.failed + 1,
                                                              if reached then Some(until) else u.lockedUntil)])
                && announced == old(announced) +
                   (if outcome == BadPassword && reached && a.settled < until then [(id, until)] else [])
    {
      if username !in users {
        return UnknownUser;
      }
      var id := users[username];
      var user := new User(id, accounts[id]);
      if user.IsLocked(a.checked) {
        return AccountLocked;
      }
      if !a.correct {
        var wasLocked := user.IsLocked(a.rechecked);
        user.RecordFailedLogin(cfg, a.recorded);
        if a.saved {
          accounts := accounts[id := user.Value()];
        }
        if !wasLocked && user.IsLocked(a.settled) {
          announced := announced + [(id, user.lockedUntil.value)];
        }
        return BadPassword;
      }
      user.ResetFailedLogins();
      if !a.saved {
        return SaveFailed;
      }
      accounts := accounts[id := user.Value()];
      return Authenticated;
    }
  }

  // ----------------------------------------------------------- sequences of logins

  /** One after another, each finished before the next begins. */
  predicate Sequential(from: Time, attempts: seq<Attempt>)
    decreases |attempts|
  {
    attempts == [] ||
    (from <= attempts[0].checked && InOrder(attempts[0]) && Sequential(attempts[0].settled, attempts[1..]))
  }

  /** No login succeeds, and every recorded failure is stored. */
  predicate GuessingOnly(c: Config, u: Account, attempts: seq<Attempt>)
    decreases |attempts|
  {
    attempts == [] ||
    (var a := attempts[0];
     && a.saved
     && (Evaluated(u, a) ==> !a.correct)
     && GuessingOnly(c, Attempted(c, u, a).account, attempts[1..]))
  }

  /** How many passwords are compared up to instant `to`. */
  function Guesses(c: Config, u: Account, attempts: seq<Attempt>, to: Time): nat
    decreases |attempts|
  {
    if attempts == [] then 0
    else
      (if Evaluated(u, attempts[0]) && attempts[0].checked <= to then 1 else 0)
      + Guesses(c, Attempted(c, u, attempts[0]).account, attempts[1..], to)
  }

  function Max(a: int, b: int): int {
    if a < b then b else a
  }

  /** The guesses an account still has in it, from `from` to `to`. */
  function Allowance(c: Config, u: Account, from: Time, to: Time): int
    requires c.lockDuration > 0
  {
    if to < from then 0
    else if u.failed < c.maxFailedAttempts then c.maxFailedAttempts - u.failed + (to - from) / c.lockDuration
    else
      var first := if u.lockedUntil.Some? then Max(from, u.lockedUntil.value) else from;
      if first > to then 0 else 1 + (to - first) / c.lockDuration
  }

  lemma ProductNonNegative(d: int, k: int)
    requires d > 0 && k >= 0
    ensures d * k >= 0
  {
  }

  lemma MultiplesApart(d: int, x: int, y: int)
    requires d > 0
    ensures x > y ==> d * x >= d * y + d
  {
    if x > y {
      var k := x - y - 1;
      ProductNonNegative(d, k);
      assert x == y + 1 + k;
    }
  }

  lemma QuotientUnique(a: int, d: int, q: int)
    requires d > 0 && d * q <= a < d * q + d
    ensures a / d == q
  {
    var p, r := a / d, a % d;
    assert a == d * p + r && 0 <= r < d;
    MultiplesApart(d, p, q);
    MultiplesApart(d, q, p);
  }

  lemma QuotientMonotone(a: int, b: int, d: int)
    requires 0 <= a <= b && d > 0
    ensures 0 <= a / d <= b / d
  {
    var p, q := a / d, b / d;
    assert a == d * p + a % d && b == d * q + b % d;
    MultiplesApart(d, p, q);
    MultiplesApart(d, 0, p);
  }

  lemma QuotientStep(a: int, d: int)
    requires a >= d > 0
    ensures a / d == 1 + (a - d) / d
  {
    var q := (a - d) / d;
    assert a - d == d * q + (a - d) % d;
    assert d * (q + 1) == d * q + d;
    QuotientUnique(a, d, q + 1);
  }

  lemma AllowanceShrinks(c: Config, u: Account, from: Time, later: Time, to: Time)
    requires c.lockDuration > 0 && from <= later
    ensures 0 <= Allowance(c, u, later, to) <= Allowance(c, u, from, to)
  {
    if later <= to {
      QuotientMonotone(to - later, to - from, c.lockDuration);
      if u.failed >= c.maxFailedAttempts {
        var a := if u.lockedUntil.Some? then Max(from, u.lockedUntil.value) else from;
        var b := if u.lockedUntil.Some? then Max(later, u.lockedUntil.value) else later;
        if b <= to {
          QuotientMonotone(to - b, to - a, c.lockDuration);
        } else if a <= to {
          QuotientMonotone(0, to - a, c.lockDuration);
        }
      }
    } else if from <= to {
      QuotientMonotone(0, to - from, c.lockDuration);
      if u.failed >= c.maxFailedAttempts && u.lockedUntil.Some? && Max(from, u.lockedUntil.value) <= to {
        QuotientMonotone(0, to - Max(from, u.lockedUntil.value), c.lockDuration);
      }
    }
  }

  /** A wrong guess costs the account at least one from its allowance. */
  lemma GuessCosts(c: Config, u: Account, a: Attempt, to: Time)
    requires c.lockDuration > 0 && InOrder(a) && Evaluated(u, a) && a.checked <= to
    ensures 1 + Allowance(c, FailedOnce(c, u, a.recorded), a.settled, to) <= Allowance(c, u, a.checked, to)
  {
    var v := FailedOnce(c, u, a.recorded);
    QuotientMonotone(0, to - a.checked, c.lockDuration);
    if v.failed < c.maxFailedAttempts {
      if a.settled <= to {
        QuotientMonotone(to - a.settled, to - a.checked, c.lockDuration);
      }
    } else {
      var first := Max(a.settled, a.recorded + c.lockDuration);
      if first <= to {
        QuotientStep(to - a.recorded, c.lockDuration);
        QuotientMonotone(to - first, to - a.recorded - c.lockDuration, c.lockDuration);
        QuotientMonotone(to - a.recorded, to - a.checked, c.lockDuration);
      }
    }
  }

  lemma {:induction false} GuessesWithinAllowance(c: Config, u: Account, from: Time, attempts: seq<Attempt>, to: Time)
    requires c.lockDuration > 0 && Sequential(from, attempts) && GuessingOnly(c, u, attempts)
    ensures Guesses(c, u, attempts, to) <= Allowance(c, u, from, to)
    decreases |attempts|
  {
    if attempts == [] {
      AllowanceShrinks(c, u, from, from, to);
    } else {
      var a := attempts[0];
      var v := Attempted(c, u, a).account;
      GuessesWithinAllowance(c, v, a.settled, attempts[1..], to);
      if Evaluated(u, a) && a.checked <= to {
        GuessCosts(c, u, a, to);
        AllowanceShrinks(c, u, from, a.checked, to);
      } else if Evaluated(u, a) {
        AllowanceShrinks(c, v, a.settled, a.settled, to);
        AllowanceShrinks(c, u, from, from, to);
      } else {
        AllowanceShrinks(c, u, from, a.settled, to);
      }
    }
  }

  /** Brute force is slowed to MaxFailedAttempts + floor(T / LockDuration)
      guesses in any window of length T, wherever in its life the account is. */
  lemma GuessRateIsBounded(c: Config, u: Account, from: Time, attempts: seq<Attempt>, window: nat)
    requires c.maxFailedAttempts > 0 && c.lockDuration > 0 && u.failed >= 0
    requires Sequential(from, attempts) && GuessingOnly(c, u, attempts)
    ensures Guesses(c, u, attempts, from + window) <= c.maxFailedAttempts + window / c.lockDuration
  {
    GuessesWithinAllowance(c, u, from, attempts, from + window);
    QuotientMonotone(0, window, c.lockDuration);
    if u.failed >= c.maxFailedAttempts && u.lockedUntil.Some? && Max(from, u.lockedUntil.value) <= from + window {
      QuotientMonotone(from + window - Max(from, u.lockedUntil.value), window, c.lockDuration);
    }
  }

  /** Why the process configuration must refuse a LockDuration that is not
      positive, as it does: this module does not check it, and with one no
      attempt would ever be turned away. */
  lemma {:induction false} NoDurationNoLock(c: Config, u: Account, from: Time, attempts: seq<Attempt>, to: Time)
    requires c.lockDuration <= 0 && !LockedAt(u, from) && Sequential(from, attempts) && GuessingOnly(c, u, attempts)
    requires forall i :: 0 <= i < |attempts| ==> attempts[i].checked <= to
    ensures Guesses(c, u, attempts, to) == |attempts|
    decreases |attempts|
  {
    if attempts != [] {
      NoDurationNoLock(c, Attempted(c, u, attempts[0]).account, attempts[0].settled, attempts[1..], to);
    }
  }

  // ------------------------------------------------------------------ episodes

  /** The locks announced by a run of logins, in order. */
  function Announced(c: Config, u: Account, attempts: seq<Attempt>): seq<Time>
    decreases |attempts|
  {
    if attempts == [] then []
    else
      var e := Attempted(c, u, attempts[0]);
      (if e.announced.Some? then [e.announced.value] else []) + Announced(c, e.account, attempts[1..])
  }

  /** A lock is announced exactly when this failure reaches the limit and the
      lock it sets has not already run out; what is announced is that lock. */
  lemma AnnouncesItsOwnLock(c: Config, u: Account, a: Attempt)
    requires InOrder(a)
    ensures var e := Attempted(c, u, a);
            && (e.announced.Some? <==>
                  && Evaluated(u, a) && !a.correct
                  && u.failed + 1 >= c.maxFailedAttempts
                  && a.settled < a.recorded + c.lockDuration)
            && (e.announced.Some? ==>
                  && e.announced == Some(a.recorded + c.lockDuration)
                  && (a.saved ==> e.account.lockedUntil == e.announced))
            && (e.outcome.AccountLocked? ==> e.account == u && e.announced.None?)
  {
  }

  predicate Increasing(s: seq<Time>) {
    forall i, j :: 0 <= i < j < |s| ==> s[i] < s[j]
  }

  predicate Above(low: Option<Time>, s: seq<Time>) {
    low.Some? ==> forall i :: 0 <= i < |s| ==> low.value < s[i]
  }

  /** Each episode is announced once, and later episodes end strictly later,
      so no two share an end; successes in between do not matter. */
  lemma {:induction false} EpisodesAreDistinct(c: Config, u: Account, from: Time, attempts: seq<Attempt>)
    requires c.lockDuration > 0 && Sequential(from, attempts)
    requires forall i :: 0 <= i < |attempts| ==> attempts[i].saved
    ensures Increasing(Announced(c, u, attempts))
    ensures forall t :: t in Announced(c, u, attempts) ==> t >= from + c.lockDuration
    ensures Above(u.lockedUntil, Announced(c, u, attempts))
    decreases |attempts|
  {
    if attempts != [] {
      var a := attempts[0];
      var e := Attempted(c, u, a);
      var rest := Announced(c, e.account, attempts[1..]);
      EpisodesAreDistinct(c, e.account, a.settled, attempts[1..]);
      AnnouncesItsOwnLock(c, u, a);
      LockOnlyMovesOn(c, u, a, rest);
      if e.announced.Some? {
        OneMoreEpisode(e.announced.value, rest);
      }
    }
  }

  lemma OneMoreEpisode(t: Time, rest: seq<Time>)
    requires Increasing(rest) && Above(Some(t), rest)
    ensures Increasing([t] + rest)
  {
  }

  /** What a stored login leaves behind is never below what it found. */
  lemma LockOnlyMovesOn(c: Config, u: Account, a: Attempt, rest: seq<Time>)
    requires c.lockDuration > 0 && InOrder(a) && a.saved
    requires var e := Attempted(c, u, a);
             Above(e.account.lockedUntil, rest) && forall t :: t in rest ==> t >= a.settled + c.lockDuration
    ensures Above(u.lockedUntil, rest)
    ensures var e := Attempted(c, u, a);
            e.announced.Some? ==>
              && Above(e.announced, rest)
              && (u.lockedUntil.Some? ==> u.lockedUntil.value < e.announced.value)
  {
    assert forall i :: 0 <= i < |rest| ==> rest[i] in rest;
  }
}
