/** Login lockout: failed attempts counted by key, five of them lock the key for fifteen minutes. */
module LoginLockout {
  import opened Wrappers

  const MAX_FAILED_LOGIN_ATTEMPTS := 5
  const LOGIN_LOCKOUT_MS := 15 * 60 * 1000

  datatype Entry = Entry(count: nat, lockedUntil: Option<int>)

  type Attempts = map<string, Entry>

  predicate Blocked(m: Attempts, key: string, now: int) {
    key in m && m[key].lockedUntil.Some? && m[key].lockedUntil.value > now
  }

  /** Letting a login through drops a lock that has run out. */
  function Admit(m: Attempts, key: string, now: int): Attempts {
    if key in m && m[key].lockedUntil.Some? && m[key].lockedUntil.value <= now then m - {key} else m
  }

  function CountOf(m: Attempts, key: string): nat {
    if key in m then m[key].count else 0
  }

  function RegisterFailure(m: Attempts, key: string, now: int): Attempts {
    var nextCount := CountOf(m, key) + 1;
    m[key := Entry(nextCount, if nextCount >= MAX_FAILED_LOGIN_ATTEMPTS then Some(now + LOGIN_LOCKOUT_MS) else None)]
  }

  // ---- Interleaved logins ----

  /** What a login does to the map between two awaits; a deactivated user leaves without a trace. */
  datatype Access =
    | Check(key: string, now: int)
    | Failure(key: string, now: int)
    | Success(key: string)
    | Leave(key: string)

  function AccessStep(m: Attempts, a: Access): Attempts {
    match a
    case Check(key, now) => if Blocked(m, key, now) then m else Admit(m, key, now)
    case Failure(key, now) => RegisterFailure(m, key, now)
    case Success(key) => m - {key}
    case Leave(_) => m
  }

  function Accesses(m: Attempts, accesses: seq<Access>): Attempts
    decreases |accesses|
  {
    if accesses == [] then m else Accesses(AccessStep(m, accesses[0]), accesses[1..])
  }

  ghost predicate LockedIffFive(m: Attempts) {
    forall key :: key in m ==> m[key].count >= 1
                               && (m[key].lockedUntil.Some? <==> m[key].count >= MAX_FAILED_LOGIN_ATTEMPTS)
  }

  /** However the parts of any number of logins interleave, an entry carries a lock exactly when its
      count has reached five. */
  lemma {:induction false} InterleavingsKeepLocks(m: Attempts, accesses: seq<Access>)
    requires LockedIffFive(m)
    ensures LockedIffFive(Accesses(m, accesses))
    decreases |accesses|
  {
    if accesses == [] {
    } else {
      InterleavingsKeepLocks(AccessStep(m, accesses[0]), accesses[1..]);
    }
  }

  // ---- Logins one after another ----

  datatype Credentials = NoSuchUser | Deactivated | WrongPassword | RightPassword

  /** A login: the lock is looked at first, a failure is registered after the password was compared. */
  datatype Attempt = Attempt(key: string, checkedAt: int, credentials: Credentials, registeredAt: int)

  predicate Registers(m: Attempts, a: Attempt) {
    !Blocked(m, a.key, a.checkedAt) && (a.credentials.NoSuchUser? || a.credentials.WrongPassword?)
  }

  function LoginStep(m: Attempts, a: Attempt): Attempts {
    if Blocked(m, a.key, a.checkedAt) then m
    else
      var admitted := Admit(m, a.key, a.checkedAt);
      match a.credentials
      case NoSuchUser => RegisterFailure(admitted, a.key, a.registeredAt)
      case Deactivated => admitted
      case WrongPassword => RegisterFailure(admitted, a.key, a.registeredAt)
      case RightPassword => admitted - {a.key}
  }

  /** What a login does to the map, access by access. */
  function AccessesOf(m: Attempts, a: Attempt): seq<Access> {
    if Blocked(m, a.key, a.checkedAt) then [Check(a.key, a.checkedAt)]
    else
      [Check(a.key, a.checkedAt),
       match a.credentials
       case NoSuchUser => Failure(a.key, a.registeredAt)
       case WrongPassword => Failure(a.key, a.registeredAt)
       case Deactivated => Leave(a.key)
       case RightPassword => Success(a.key)]
  }

  /** A login that is not interleaved is its accesses in a row. */
  lemma {:induction false} LoginIsItsAccesses(m: Attempts, a: Attempt)
    ensures LoginStep(m, a) == Accesses(m, AccessesOf(m, a))
  {
    var checked := AccessStep(m, Check(a.key, a.checkedAt));
    var accesses := AccessesOf(m, a);
    if Blocked(m, a.key, a.checkedAt) {
      assert accesses[1..] == [] && Accesses(checked, []) == checked;
    } else {
      var last := accesses[1];
      var end := AccessStep(checked, last);
      assert accesses == [Check(a.key, a.checkedAt), last] && accesses[1..] == [last] && [last][1..] == [];
      assert Accesses(end, []) == end && Accesses(checked, [last]) == end;
    }
  }

  /** A login counts one failure up when it fails, starts over when it succeeds, and in either case forgets a
      lock that has run out; a blocked one and other keys change nothing. */
  lemma LoginCounts(m: Attempts, a: Attempt, key: string)
    ensures var after := LoginStep(m, a);
            var blocked := Blocked(m, a.key, a.checkedAt);
            var lapsed := a.key in m && m[a.key].lockedUntil.Some? && !blocked;
            && (key != a.key || blocked ==> (key in after <==> key in m) && (key in m ==> after[key] == m[key]))
            && (!blocked && key == a.key ==>
                  match a.credentials
                  case NoSuchUser => CountOf(after, key) == (if lapsed then 1 else CountOf(m, key) + 1)
                  case WrongPassword => CountOf(after, key) == (if lapsed then 1 else CountOf(m, key) + 1)
                  case Deactivated => CountOf(after, key) == (if lapsed then 0 else CountOf(m, key))
                  case RightPassword => key !in after)
  {
  }

  /** From the fifth failure on a key is locked for exactly fifteen minutes, and not before. */
  lemma LockHoldsExactly(m: Attempts, key: string, now: int, later: int)
    ensures Blocked(RegisterFailure(m, key, now), key, later)
            <==> CountOf(m, key) >= 4 && later < now + 15 * 60 * 1000
  {
  }

  /** A right password gives back the whole allowance. */
  lemma SuccessRestores(m: Attempts, key: string, from: int, to: int)
    ensures Allowance(AccessStep(m, Success(key)), key, from, to) == 5 + 5 * Periods(to - from)
    ensures forall later :: !Blocked(AccessStep(m, Success(key)), key, later)
  {
  }

  function FailuresOn(m: Attempts, attempts: seq<Attempt>, key: string): nat
    decreases |attempts|
  {
    if attempts == [] then 0
    else (if attempts[0].key == key && Registers(m, attempts[0]) then 1 else 0)
         + FailuresOn(LoginStep(m, attempts[0]), attempts[1..], key)
  }

  /** One login after another, all registered within a window, none of them on `key` with the right password. */
  predicate Within(attempts: seq<Attempt>, key: string, from: int, to: int)
    decreases |attempts|
  {
    attempts == [] ||
    (var a := attempts[0];
     && a.checkedAt <= a.registeredAt && from <= a.registeredAt <= to
     && !(a.key == key && a.credentials.RightPassword?)
     && (|attempts| > 1 ==> a.registeredAt <= attempts[1].checkedAt)
     && Within(attempts[1..], key, a.registeredAt, to))
  }

  /** How many lockout periods fit into a span. */
  function Periods(span: int): int {
    span / LOGIN_LOCKOUT_MS
  }

  lemma PeriodsOrdered(a: int, b: int)
    requires a <= b
    ensures Periods(a) <= Periods(b)
    ensures Periods(b) == Periods(b - LOGIN_LOCKOUT_MS) + 1
    ensures b >= 0 ==> Periods(b) >= 0
  {
  }

  /** How many failures can still be registered from a state, up to the end of the window. */
  function Allowance(m: Attempts, key: string, from: int, to: int): int {
    if key in m && m[key].lockedUntil.Some? then
      var free := if m[key].lockedUntil.value > from then m[key].lockedUntil.value else from;
      if free > to then 0 else 5 + 5 * Periods(to - free)
    else 5 - CountOf(m, key) + 5 * Periods(to - from)
  }

  /** A registered failure uses up one of the allowance, and time never adds to it. */
  lemma AllowanceFalls(m: Attempts, a: Attempt, key: string, from: int, to: int)
    requires LockedIffFive(m) && a.checkedAt <= a.registeredAt && from <= a.registeredAt <= to
    requires !(a.key == key && a.credentials.RightPassword?)
    ensures LockedIffFive(LoginStep(m, a))
    ensures Allowance(LoginStep(m, a), key, a.registeredAt, to)
            + (if a.key == key && Registers(m, a) then 1 else 0) <= Allowance(m, key, from, to)
  {
    PeriodsOrdered(to - a.registeredAt, to - from);
    PeriodsOrdered(to - a.registeredAt - LOGIN_LOCKOUT_MS, to - a.registeredAt);
    PeriodsOrdered(0, to - a.registeredAt);
    if key in m && m[key].lockedUntil.Some? {
      var free := if m[key].lockedUntil.value > from then m[key].lockedUntil.value else from;
      if free <= to {
        var later := if free > a.registeredAt then free else a.registeredAt;
        PeriodsOrdered(to - later, to - free);
        PeriodsOrdered(0, to - free);
        if a.registeredAt >= free {
          PeriodsOrdered(to - a.registeredAt, to - free);
        }
      }
    }
  }

  lemma {:induction false} FailuresWithinAllowance(m: Attempts, attempts: seq<Attempt>, key: string, from: int, to: int)
    requires LockedIffFive(m) && from <= to && Within(attempts, key, from, to)
    ensures FailuresOn(m, attempts, key) <= Allowance(m, key, from, to)
    decreases |attempts|
  {
    PeriodsOrdered(0, to - from);
    if attempts == [] {
      if key in m && m[key].lockedUntil.Some? && from < m[key].lockedUntil.value <= to {
        PeriodsOrdered(0, to - m[key].lockedUntil.value);
      }
    } else {
      AllowanceFalls(m, attempts[0], key, from, to);
      FailuresWithinAllowance(LoginStep(m, attempts[0]), attempts[1..], key, attempts[0].registeredAt, to);
    }
  }

  /** The rate bound: from any reachable state, logins one after another register at most five failures
      on a key for each lockout period begun in the window. */
  lemma FailureRateBound(m: Attempts, attempts: seq<Attempt>, key: string, from: int, length: nat)
    requires LockedIffFive(m) && Within(attempts, key, from, from + length)
    ensures FailuresOn(m, attempts, key) <= 5 * (length / LOGIN_LOCKOUT_MS + 1)
  {
    FailuresWithinAllowance(m, attempts, key, from, from + length);
    PeriodsOrdered(0, length);
    if key in m && m[key].lockedUntil.Some? && from < m[key].lockedUntil.value <= from + length {
      PeriodsOrdered(from + length - m[key].lockedUntil.value, length);
    }
  }

  // ---- Logins admitted at once ----

  predicate Admits(m: Attempts, a: Access, key: string) {
    a.Check? && a.key == key && !Blocked(m, key, a.now)
  }

  /** How many logins on the key have been admitted and not finished, after an access. */
  function Underway(m: Attempts, a: Access, key: string, underway: int): int {
    if Admits(m, a, key) then underway + 1
    else if !a.Check? && a.key == key then underway - 1
    else underway
  }

  /** The time an access happens at, or the time before it when it reads no clock. */
  function TimeOf(a: Access, before: int): int {
    if a.Check? || a.Failure? then a.now else before
  }

  /** Interleaved logins within a window: time goes forward, only admitted logins finish, no more than
      `limit` are underway on the key at once, and none of them has the right password. */
  predicate Flows(m: Attempts, accesses: seq<Access>, key: string, underway: int, limit: int, from: int, to: int)
    decreases |accesses|
  {
    accesses == [] ||
    (var a := accesses[0];
     && from <= TimeOf(a, from) <= to
     && !(a.Success? && a.key == key)
     && 0 <= Underway(m, a, key, underway) <= limit
     && Flows(AccessStep(m, a), accesses[1..], key, Underway(m, a, key, underway), limit, TimeOf(a, from), to))
  }

  function FailuresIn(accesses: seq<Access>, key: string): nat {
    if accesses == [] then 0
    else (if accesses[0].Failure? && accesses[0].key == key then 1 else 0) + FailuresIn(accesses[1..], key)
  }

  /** A product kept apart from the solver's arithmetic. */
  function Times(quota: int, n: int): int {
    quota * n
  }

  lemma TimesOrdered(quota: int, a: int, b: int)
    requires quota >= 0 && a <= b
    ensures Times(quota, a) <= Times(quota, b)
    ensures Times(quota, a + 1) == Times(quota, a) + quota
    ensures Times(quota, 0) == 0
  {
  }

  /** How many failures interleaved logins can still register, with a quota for each lockout period. */
  function Leeway(m: Attempts, key: string, underway: int, quota: int, from: int, to: int): int {
    var periods := Times(quota, Periods(to - from));
    if key in m && m[key].lockedUntil.Some? then
      var free := if m[key].lockedUntil.value > from then m[key].lockedUntil.value else from;
      var afterLock := if free > to then 0 else quota + Times(quota, Periods(to - free));
      if underway + periods > afterLock then underway + periods else afterLock
    else quota - CountOf(m, key) + periods
  }

  lemma SpansOrdered(quota: int, a: int, b: int)
    requires quota >= 0 && a <= b
    ensures Times(quota, Periods(a)) <= Times(quota, Periods(b))
    ensures Times(quota, Periods(b)) == Times(quota, Periods(b - LOGIN_LOCKOUT_MS)) + quota
    ensures b >= 0 ==> Times(quota, Periods(b)) >= 0
  {
    PeriodsOrdered(a, b);
    TimesOrdered(quota, Periods(a), Periods(b));
    TimesOrdered(quota, Periods(b - LOGIN_LOCKOUT_MS), Periods(b));
    if b >= 0 {
      TimesOrdered(quota, 0, Periods(b));
    }
  }

  /** Time alone never adds to the leeway. */
  lemma LeewayAges(m: Attempts, key: string, underway: int, quota: int, from: int, later: int, to: int)
    requires LockedIffFive(m) && quota >= 5 && 0 <= underway <= quota && from <= later <= to
    ensures Leeway(m, key, underway, quota, later, to) <= Leeway(m, key, underway, quota, from, to)
  {
    SpansOrdered(quota, to - later, to - from);
    if key in m && m[key].lockedUntil.Some? && m[key].lockedUntil.value <= to {
      var until := m[key].lockedUntil.value;
      SpansOrdered(quota, to - (if until > later then until else later), to - (if until > from then until else from));
    }
  }

  /** A registered failure uses one up. */
  lemma FailureUsesLeeway(m: Attempts, key: string, underway: int, limit: int, now: int, to: int)
    requires LockedIffFive(m) && 1 <= underway <= limit && now <= to
    ensures Leeway(RegisterFailure(m, key, now), key, underway - 1, limit + 4, now, to) + 1
            <= Leeway(m, key, underway, limit + 4, now, to)
  {
    SpansOrdered(limit + 4, 0, to - now);
    if key in m && m[key].lockedUntil.Some? && m[key].lockedUntil.value <= to {
      SpansOrdered(limit + 4, 0, to - (if m[key].lockedUntil.value > now then m[key].lockedUntil.value else now));
    }
  }

  lemma {:induction false} FailuresWithinLeeway(m: Attempts, accesses: seq<Access>, key: string, underway: int,
                                                limit: int, from: int, to: int)
    requires LockedIffFive(m) && limit >= 1 && 0 <= underway <= limit && from <= to
    requires Flows(m, accesses, key, underway, limit, from, to)
    ensures FailuresIn(accesses, key) <= Leeway(m, key, underway, limit + 4, from, to)
    decreases |accesses|
  {
    if accesses == [] {
      LeewayIsNatural(m, key, underway, limit, from, to);
    } else {
      var a := accesses[0];
      var now := TimeOf(a, from);
      LeewayAges(m, key, underway, limit + 4, from, now, to);
      AccessKeepsLeeway(m, a, key, underway, limit, now, to);
      FailuresWithinLeeway(AccessStep(m, a), accesses[1..], key, Underway(m, a, key, underway), limit, now, to);
    }
  }

  lemma LeewayIsNatural(m: Attempts, key: string, underway: int, limit: int, from: int, to: int)
    requires LockedIffFive(m) && limit >= 1 && 0 <= underway && from <= to
    ensures Leeway(m, key, underway, limit + 4, from, to) >= 0
  {
    SpansOrdered(limit + 4, 0, to - from);
  }

  lemma AccessKeepsLeeway(m: Attempts, a: Access, key: string, underway: int, limit: int, now: int, to: int)
    requires LockedIffFive(m) && limit >= 1 && 0 <= underway <= limit && now <= to
    requires !(a.Success? && a.key == key) && (a.Check? || a.Failure? ==> a.now == now)
    requires 0 <= Underway(m, a, key, underway) <= limit
    ensures LockedIffFive(AccessStep(m, a))
    ensures Leeway(AccessStep(m, a), key, Underway(m, a, key, underway), limit + 4, now, to)
            + (if a.Failure? && a.key == key then 1 else 0) <= Leeway(m, key, underway, limit + 4, now, to)
  {
    if a.Failure? && a.key == key {
      FailureUsesLeeway(m, key, underway, limit, now, to);
    } else {
      SpansOrdered(limit + 4, 0, to - now);
    }
  }

  /** The rate bound for interleaved logins: at most four failures and one for each login that may be
      underway at once, for each lockout period begun in the window. One at a time, that is five. */
  lemma InterleavedRateBound(m: Attempts, accesses: seq<Access>, key: string, underway: int, limit: int, from: int,
                             length: nat)
    requires LockedIffFive(m) && limit >= 1 && 0 <= underway <= limit
    requires Flows(m, accesses, key, underway, limit, from, from + length)
    ensures FailuresIn(accesses, key) <= (limit + 4) * (length / LOGIN_LOCKOUT_MS + 1)
  {
    FailuresWithinLeeway(m, accesses, key, underway, limit, from, from + length);
    var quota := limit + 4;
    SpansOrdered(quota, 0, length);
    if key in m && m[key].lockedUntil.Some? && from < m[key].lockedUntil.value <= from + length {
      SpansOrdered(quota, from + length - m[key].lockedUntil.value, length);
    }
    TimesOrdered(quota, Periods(length), Periods(length) + 1);
  }

  // ---- The bound is reached ----

  /** So many checks and then so many failures, all at one instant. */
  function Burst(key: string, now: int, checks: nat, failures: nat): seq<Access>
    decreases checks, failures
  {
    if checks == 0 && failures == 0 then []
    else if checks == 0 then [Failure(key, now)] + Burst(key, now, 0, failures - 1)
    else [Check(key, now)] + Burst(key, now, checks - 1, failures)
  }

  /** Logins that fail one after another, and then a burst of `limit` logins admitted at once. */
  function Volley(key: string, now: int, before: nat, limit: nat): seq<Access> {
    if before == 0 then Burst(key, now, limit, limit)
    else [Check(key, now)] + ([Failure(key, now)] + Volley(key, now, before - 1, limit))
  }

  lemma {:induction false} BurstFails(m: Attempts, key: string, now: int, failures: nat, limit: int)
    requires failures <= limit
    ensures Flows(m, Burst(key, now, 0, failures), key, failures, limit, now, now)
    ensures FailuresIn(Burst(key, now, 0, failures), key) == failures
    decreases failures
  {
    if failures == 0 {
    } else {
      var burst := Burst(key, now, 0, failures);
      assert burst[0] == Failure(key, now) && burst[1..] == Burst(key, now, 0, failures - 1);
      BurstFails(AccessStep(m, burst[0]), key, now, failures - 1, limit);
    }
  }

  /** A key with failures but no lock yet admits every login. */
  predicate Open(m: Attempts, key: string) {
    key in m ==> m[key].lockedUntil.None?
  }

  lemma {:induction false} BurstIsAdmitted(m: Attempts, key: string, now: int, checks: nat, failures: nat, limit: int)
    requires Open(m, key) && checks <= failures <= limit
    ensures Flows(m, Burst(key, now, checks, failures), key, failures - checks, limit, now, now)
    ensures FailuresIn(Burst(key, now, checks, failures), key) == failures
    decreases checks
  {
    if checks == 0 {
      BurstFails(m, key, now, failures, limit);
    } else {
      var burst := Burst(key, now, checks, failures);
      assert burst[0] == Check(key, now) && burst[1..] == Burst(key, now, checks - 1, failures);
      BurstIsAdmitted(m, key, now, checks - 1, failures, limit);
    }
  }

  /** For any number of logins admitted at once the bound is reached within one instant: after four failures
      the lock is one short, and every login then admitted registers one more. With two or more of them the
      five of sequential logins are exceeded. */
  lemma {:induction false} BoundIsReached(m: Attempts, key: string, now: int, before: nat, limit: nat)
    requires before <= 4 && limit >= 1 && Open(m, key) && CountOf(m, key) == 4 - before
    ensures Flows(m, Volley(key, now, before, limit), key, 0, limit, now, now)
    ensures FailuresIn(Volley(key, now, before, limit), key) == before + limit
    decreases before
  {
    if before == 0 {
      BurstIsAdmitted(m, key, now, limit, limit, limit);
    } else {
      var rest := Volley(key, now, before - 1, limit);
      var volley := Volley(key, now, before, limit);
      assert volley[0] == Check(key, now) && volley[1..] == [Failure(key, now)] + rest;
      assert ([Failure(key, now)] + rest)[0] == Failure(key, now) && ([Failure(key, now)] + rest)[1..] == rest;
      assert AccessStep(m, Check(key, now)) == m;
      BoundIsReached(AccessStep(m, Failure(key, now)), key, now, before - 1, limit);
      OneFailureFirst(m, key, now, rest, limit);
    }
  }

  lemma OneFailureFirst(m: Attempts, key: string, now: int, rest: seq<Access>, limit: int)
    requires Open(m, key) && limit >= 1 && Flows(AccessStep(m, Failure(key, now)), rest, key, 0, limit, now, now)
    ensures Flows(m, [Check(key, now)] + ([Failure(key, now)] + rest), key, 0, limit, now, now)
    ensures FailuresIn([Check(key, now)] + ([Failure(key, now)] + rest), key) == 1 + FailuresIn(rest, key)
  {
    var second := [Failure(key, now)] + rest;
    var all := [Check(key, now)] + second;
    assert second[0] == Failure(key, now) && second[1..] == rest && all[0] == Check(key, now) && all[1..] == second;
    assert AccessStep(m, Check(key, now)) == m;
    assert Flows(m, second, key, 1, limit, now, now);
  }
}
