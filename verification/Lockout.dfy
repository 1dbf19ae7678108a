/** The login lockout: five failures in a row lock the account for 15 minutes after the last one. */
module Lockout {
  import opened Common

  /** Milliseconds. */
  type Time = int

  const MAX_FAILED_ATTEMPTS: nat := 5
  const LOCKOUT: pos := 15 * 60 * 1000

  datatype Account = Account(failed: nat, lastFailedAt: Option<Time>, emailVerified: bool)

  datatype LoginResult = Locked | WrongPassword | Unverified | LoggedIn

  predicate IsLocked(account: Account, now: Time) {
    account.failed >= MAX_FAILED_ATTEMPTS && account.lastFailedAt.Some? && now - account.lastFailedAt.value < LOCKOUT
  }

  function LoginOutcome(account: Account, passwordMatches: bool, now: Time): LoginResult {
    if IsLocked(account, now) then Locked
    else if !passwordMatches then WrongPassword
    else if !account.emailVerified then Unverified
    else LoggedIn
  }

  function LoginNext(account: Account, passwordMatches: bool, now: Time): Account {
    match LoginOutcome(account, passwordMatches, now)
    case WrongPassword => account.(failed := account.failed + 1, lastFailedAt := Some(now))
    case LoggedIn => account.(failed := 0, lastFailedAt := None)
    case _ => account
  }

  class LoginGuard {
    var account: Account

    constructor (emailVerified: bool)
      ensures account == Account(0, None, emailVerified)
    {
      account := Account(0, None, emailVerified);
    }

    method Login(passwordMatches: bool, now: Time) returns (res: LoginResult)
      modifies this
      ensures account == LoginNext(old(account), passwordMatches, now)
      ensures res == LoginOutcome(old(account), passwordMatches, now)
      ensures res == Locked <==>
        (old(account).failed >= 5 && old(account).lastFailedAt.Some? &&
         now < old(account).lastFailedAt.value + 15 * 60 * 1000)
      ensures res == WrongPassword <==> res != Locked && !passwordMatches
      ensures res == LoggedIn <==> res != Locked && passwordMatches && old(account).emailVerified
      ensures res == WrongPassword ==>
        account == Account(old(account).failed + 1, Some(now), old(account).emailVerified)
      ensures res == LoggedIn ==> account == Account(0, None, old(account).emailVerified)
      ensures res == Locked || res == Unverified ==> account == old(account)
    {
      if account.failed >= MAX_FAILED_ATTEMPTS
         && account.lastFailedAt.Some? && now - account.lastFailedAt.value < LOCKOUT {
        return Locked;
      }
      if !passwordMatches {
        account := account.(failed := account.failed + 1, lastFailedAt := Some(now));
        return WrongPassword;
      }
      if !account.emailVerified {
        return Unverified;
      }
      account := account.(failed := 0, lastFailedAt := None);
      return LoggedIn;
    }

    /** A password reset clears the counter and leaves the time of the last failure. */
    method ResetPassword()
      modifies this
      ensures account == old(account).(failed := 0)
      ensures forall now :: !IsLocked(account, now)
    {
      account := account.(failed := 0);
    }
  }

  // ---- How many passwords can be tried ----

  datatype Attempt = Attempt(passwordMatches: bool, at: Time)

  /** The clock never runs backwards, and the first attempt is not before start. */
  predicate Ordered(attempts: seq<Attempt>, start: Time) {
    attempts == [] ||
    (var n := |attempts| - 1;
     Ordered(attempts[..n], start) && attempts[n].at >= if n == 0 then start else attempts[n - 1].at)
  }

  function AccountAfter(account: Account, attempts: seq<Attempt>): Account {
    if attempts == [] then account
    else
      var last := attempts[|attempts| - 1];
      LoginNext(AccountAfter(account, attempts[..|attempts| - 1]), last.passwordMatches, last.at)
  }

  /** The failed password comparisons among the attempts. */
  function Failures(account: Account, attempts: seq<Attempt>): nat {
    if attempts == [] then 0
    else
      var n := |attempts| - 1;
      var last := attempts[n];
      Failures(account, attempts[..n]) +
      if LoginOutcome(AccountAfter(account, attempts[..n]), last.passwordMatches, last.at).WrongPassword? then 1 else 0
  }

  /** No attempt succeeds, so the counter is never reset in between. */
  predicate NoReset(account: Account, attempts: seq<Attempt>) {
    attempts == [] ||
    (var before, last := attempts[..|attempts| - 1], attempts[|attempts| - 1];
     NoReset(account, before) && !LoginOutcome(AccountAfter(account, before), last.passwordMatches, last.at).LoggedIn?)
  }

  /** From a zero counter, every failure beyond the fifth is at least one lockout after the one before. */
  lemma {:induction false} FailuresAreSpaced(account: Account, attempts: seq<Attempt>, start: Time)
    requires account.failed == 0 && Ordered(attempts, start) && NoReset(account, attempts)
    ensures var n, after := Failures(account, attempts), AccountAfter(account, attempts);
            && after.failed == n
            && (n > 0 ==> after.lastFailedAt.Some? && start <= after.lastFailedAt.value <= attempts[|attempts| - 1].at)
            && (n > MAX_FAILED_ATTEMPTS ==> after.lastFailedAt.value >= start + (n - MAX_FAILED_ATTEMPTS) * LOCKOUT)
    ensures attempts != [] ==> attempts[|attempts| - 1].at >= start
    decreases |attempts|
  {
    if attempts != [] {
      var n := |attempts| - 1;
      FailuresAreSpaced(account, attempts[..n], start);
      OneLockoutMore(Failures(account, attempts[..n]) - MAX_FAILED_ATTEMPTS);
    }
  }

  /** Between resets, an interval of length T from a zero counter sees at most 5 + floor(T / 15 min) wrong passwords. */
  lemma {:induction false} LockoutBound(account: Account, attempts: seq<Attempt>, start: Time, length: nat)
    requires account.failed == 0 && Ordered(attempts, start) && NoReset(account, attempts)
    requires forall i | 0 <= i < |attempts| :: attempts[i].at <= start + length
    ensures Failures(account, attempts) <= MAX_FAILED_ATTEMPTS + length / LOCKOUT
  {
    FailuresAreSpaced(account, attempts, start);
    var n := Failures(account, attempts);
    if n > MAX_FAILED_ATTEMPTS {
      assert attempts[|attempts| - 1].at <= start + length;
      DivAtLeast(n - MAX_FAILED_ATTEMPTS, LOCKOUT, length);
    }
  }

  lemma {:induction false} OneLockoutMore(k: int)
    ensures (k + 1) * LOCKOUT == k * LOCKOUT + LOCKOUT
  {
  }

  lemma {:induction false} MulOrder(a: int, b: int, d: pos)
    ensures a <= b ==> a * d <= b * d
  {
  }

  lemma {:induction false} DivAtLeast(k: nat, d: pos, n: nat)
    requires k * d <= n
    ensures k <= n / d
  {
    assert n == d * (n / d) + n % d;
    MulOrder(n / d + 1, k, d);
    assert (n / d + 1) * d == d * (n / d) + d;
  }

  function Wait(i: nat): Time {
    if i < MAX_FAILED_ATTEMPTS then 0 else (i + 1 - MAX_FAILED_ATTEMPTS) * LOCKOUT
  }

  /** Five wrong passwords at once, then one whenever the lock has just expired. */
  function Patient(start: Time, n: nat): (attempts: seq<Attempt>)
    ensures |attempts| == n
    ensures forall i | 0 <= i < n :: attempts[i] == Attempt(false, start + Wait(i))
  {
    seq(n, i requires 0 <= i < n => Attempt(false, start + Wait(i)))
  }

  /** The bound is reached for every interval length, so it is exact. */
  lemma {:induction false} PatientFailures(account: Account, start: Time, n: nat)
    requires account.failed == 0
    ensures var after := AccountAfter(account, Patient(start, n));
            && Failures(account, Patient(start, n)) == after.failed == n
            && (n > 0 ==> after.lastFailedAt == Some(Patient(start, n)[n - 1].at))
    ensures NoReset(account, Patient(start, n))
    decreases n
  {
    if n > 0 {
      PatientFailures(account, start, n - 1);
      assert Patient(start, n)[..n - 1] == Patient(start, n - 1);
      OneLockoutMore(n - 1 - MAX_FAILED_ATTEMPTS);
    }
  }

  lemma {:induction false} PatientOrdered(start: Time, n: nat)
    ensures Ordered(Patient(start, n), start)
    decreases n
  {
    if n > 0 {
      PatientOrdered(start, n - 1);
      assert Patient(start, n)[..n - 1] == Patient(start, n - 1);
      OneLockoutMore(n - 1 - MAX_FAILED_ATTEMPTS);
    }
  }

  lemma {:induction false} LockoutBoundIsTight(account: Account, start: Time, length: nat)
    requires account.failed == 0
    ensures var attempts := Patient(start, MAX_FAILED_ATTEMPTS + length / LOCKOUT);
            && Ordered(attempts, start) && NoReset(account, attempts)
            && (forall i | 0 <= i < |attempts| :: attempts[i].at <= start + length)
            && Failures(account, attempts) == MAX_FAILED_ATTEMPTS + length / LOCKOUT
  {
    var q := length / LOCKOUT;
    var attempts := Patient(start, MAX_FAILED_ATTEMPTS + q);
    PatientFailures(account, start, MAX_FAILED_ATTEMPTS + q);
    PatientOrdered(start, MAX_FAILED_ATTEMPTS + q);
    forall i | 0 <= i < |attempts|
      ensures attempts[i].at <= start + length
    {
      TimesAtMost(i + 1 - MAX_FAILED_ATTEMPTS, LOCKOUT, length);
    }
  }

  lemma {:induction false} TimesAtMost(k: int, d: pos, n: nat)
    requires k <= n / d
    ensures k * d <= n
  {
    assert n == d * (n / d) + n % d;
    MulOrder(k, n / d, d);
  }
}
