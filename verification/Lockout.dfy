/** Password retries: counting, locking, and the unlocking of a delay policy. */
module Lockout {
  import opened Wrappers

  // ---------- policy and state ----------

  const SECOND: int := 1_000_000_000
  const MINUTE: int := 60 * SECOND
  const INT32_LIMIT: int := 0x8000_0000
  const INT64_LIMIT: int := 0x8000_0000_0000_0000

  datatype RetryType = Lock | Delay | OtherType

  /** The retry options; a count or a delay that is missing or no number is None. */
  datatype Policy = Policy(retryType: RetryType, count: Option<int>, delayMinutes: Option<int>)

  /** The lock part of a user; the lock time is kept in whole seconds. */
  datatype User = User(retryCount: int, locked: bool, lockedTime: Option<int>)

  const CLEAR := User(0, false, None)

  /** Conversion to a signed 32-bit integer. */
  function Int32(x: int): int {
    (x + INT32_LIMIT) % (2 * INT32_LIMIT) - INT32_LIMIT
  }

  /** The parsed delay in nanoseconds; one that overflows is not reported and reads as zero. */
  function DelayOf(minutes: int): int {
    if -INT64_LIMIT <= minutes * MINUTE < INT64_LIMIT then minutes * MINUTE else 0
  }

  // ---------- one step ----------

  /** What the password comparison gave; an unchecked request had no usable password to compare with
      or an unknown encoding, an unauthorized one had the right password but got no session. */
  datatype Check = Right | Unauthorized | Wrong | Unchecked

  datatype Event =
    | Login(began: int, checked: int, check: Check)
    | AdminLock(at: int)
    | Cleared(at: int)

  function Start(e: Event): int {
    if e.Login? then e.began else e.at
  }

  function End(e: Event): int {
    if e.Login? then e.checked else e.at
  }

  predicate StillDelayed(policy: Policy, user: User, now: int) {
    policy.delayMinutes.Some? && user.lockedTime.Some?
    && now - user.lockedTime.value * SECOND < DelayOf(policy.delayMinutes.value)
  }

  predicate Blocked(policy: Policy, user: User, now: int) {
    user.locked && (user.retryCount == 0 || policy.retryType == Lock
                    || (policy.retryType == Delay && StillDelayed(policy, user, now)))
  }

  /** The user the password is checked for: cleared if a delay is over. */
  function Opened(policy: Policy, user: User): User {
    if user.locked && policy.retryType == Delay && policy.delayMinutes.Some? then CLEAR else user
  }

  function Missed(policy: Policy, user: User, now: int): User {
    if policy.count.None? then user
    else
      var n := Int32(user.retryCount + 1);
      if n >= Int32(policy.count.value) then User(n, true, Some(now / SECOND)) else user.(retryCount := n)
  }

  function Step(policy: Policy, user: User, e: Event): User {
    match e
    case Login(began, checked, check) =>
      if Blocked(policy, user, began) then user
      else
        var current := Opened(policy, user);
        (match check
         case Right => if current.retryCount != 0 then CLEAR else current
         case Wrong => Missed(policy, current, checked)
         case Unauthorized => current
         case Unchecked => current)
    case AdminLock(at) => User(0, true, Some(at / SECOND))
    case Cleared(at) => CLEAR
  }

  /** A login in which a password was compared and did not match. */
  predicate WrongCheck(policy: Policy, user: User, e: Event) {
    e.Login? && e.check == Wrong && !Blocked(policy, user, e.began)
  }

  // ---------- the service ----------

  datatype Answer = SuperLocked | RetryLocked | RetryDelayed | NotChecked | NotAuthorized | Mismatch(locked: bool)
    | Welcome

  class LoginService {
    const policy: Policy
    var user: User

    constructor (policy: Policy)
      ensures this.policy == policy && user == CLEAR
    {
      this.policy, user := policy, CLEAR;
    }

    /** The clock is read when the lock is looked at, and again when a lock is set. */
    method Login(began: int, checked: int, check: Check) returns (r: Answer)
      modifies this
      ensures user == Step(policy, old(user), Event.Login(began, checked, check))
      ensures r in {SuperLocked, RetryLocked, RetryDelayed} <==> Blocked(policy, old(user), began)
      ensures r.Mismatch? <==> WrongCheck(policy, old(user), Event.Login(began, checked, check))
      ensures r.Mismatch? ==> r.locked == user.locked
      ensures r.Welcome? <==> check == Right && !Blocked(policy, old(user), began)
      ensures r == SuperLocked <==> old(user.locked) && old(user.retryCount) == 0
      ensures r == RetryLocked <==> old(user.locked) && old(user.retryCount) != 0 && policy.retryType == Lock
      ensures r == RetryDelayed <==>
        && old(user.locked) && old(user.retryCount) != 0 && policy.retryType == Delay
        && policy.delayMinutes.Some? && old(user.lockedTime).Some?
        && began - old(user.lockedTime).value * SECOND < DelayOf(policy.delayMinutes.value)
      ensures r in {SuperLocked, RetryLocked, RetryDelayed} ==> user == old(user)
      ensures r.Welcome? ==> user.retryCount == 0 && !user.locked
      ensures r in {NotChecked, NotAuthorized} ==>
        user == if old(user.locked) && policy.retryType == Delay && policy.delayMinutes.Some? then User(0, false, None)
                else old(user)
    {
      if user.locked {
        if user.retryCount == 0 {
          return SuperLocked;
        } else if policy.retryType == Lock {
          return RetryLocked;
        } else if policy.retryType == Delay && policy.delayMinutes.Some? {
          if user.lockedTime.Some? {
            if began - user.lockedTime.value * SECOND < DelayOf(policy.delayMinutes.value) {
              return RetryDelayed;
            }
          }
          user := user.(retryCount := 0, locked := false, lockedTime := None);
        }
      }
      if check == Unchecked {
        return NotChecked;
      }
      if check == Wrong {
        if policy.count.Some? {
          user := user.(retryCount := Int32(user.retryCount + 1));
          if user.retryCount >= Int32(policy.count.value) {
            user := user.(locked := true, lockedTime := Some(checked / SECOND));
          }
        }
        return Mismatch(user.locked);
      }
      if check == Unauthorized {
        return NotAuthorized;
      }
      if user.retryCount != 0 {
        user := user.(retryCount := 0, locked := false, lockedTime := None);
      }
      r := Welcome;
    }

    /** A password reset clears the lock, and so does an administrator who unlocks. */
    method Clear(at: int)
      modifies this
      ensures user == Step(policy, old(user), Cleared(at)) == User(0, false, None)
    {
      user := user.(retryCount := 0, locked := false, lockedTime := None);
    }

    method LockUser(at: int)
      modifies this
      ensures user == Step(policy, old(user), AdminLock(at)) == User(0, true, Some(at / SECOND))
    {
      user := user.(retryCount := 0, locked := true, lockedTime := Some(at / SECOND));
    }
  }

  // ---------- runs ----------

  function After(policy: Policy, user: User, run: seq<Event>): User {
    if run == [] then user
    else Step(policy, After(policy, user, run[..|run| - 1]), run[|run| - 1])
  }

  /** The clock never goes back, within an event and from one to the next. */
  predicate Ordered(run: seq<Event>) {
    && (forall i :: 0 <= i < |run| ==> Start(run[i]) <= End(run[i]))
    && (forall i, j :: 0 <= i < j < |run| ==> End(run[i]) <= Start(run[j]))
  }

  /** No login succeeds, and nobody clears the lock. */
  predicate Quiet(policy: Policy, user: User, run: seq<Event>) {
    run == [] ||
    var before, last := After(policy, user, run[..|run| - 1]), run[|run| - 1];
    && Quiet(policy, user, run[..|run| - 1])
    && !last.Cleared?
    && (last.Login? && last.check == Right ==> Blocked(policy, before, last.began))
  }

  /** The wrong checks of a run that fall in a window of time. */
  function WrongChecks(policy: Policy, user: User, run: seq<Event>, from: int, to: int): nat {
    if run == [] then 0
    else
      var before, last := After(policy, user, run[..|run| - 1]), run[|run| - 1];
      WrongChecks(policy, user, run[..|run| - 1], from, to)
      + if WrongCheck(policy, before, last) && from <= last.checked <= to then 1 else 0
  }

  /** A count that a signed 32-bit integer can hold, at least 1. */
  predicate Counts(policy: Policy, n: int) {
    policy.count == Some(n) && 1 <= n < INT32_LIMIT
  }

  /** While unlocked, fewer retries than the count. */
  predicate BelowCount(user: User, n: int) {
    !user.locked ==> 0 <= user.retryCount < n
  }

  /** Kept by every event, whatever the retry type. */
  lemma StepBelowCount(policy: Policy, user: User, e: Event, n: int)
    requires Counts(policy, n) && BelowCount(user, n)
    ensures BelowCount(Step(policy, user, e), n)
  {
    Int32Same(n);
    if !user.locked { Int32Same(user.retryCount + 1); }
    Int32Same(1);
  }

  lemma Int32Same(x: int)
    requires -INT32_LIMIT <= x < INT32_LIMIT
    ensures Int32(x) == x
  {
  }

  lemma {:induction false} RunBelowCount(policy: Policy, user: User, run: seq<Event>, n: int)
    requires Counts(policy, n) && BelowCount(user, n)
    ensures BelowCount(After(policy, user, run), n)
  {
    if run != [] {
      RunBelowCount(policy, user, run[..|run| - 1], n);
      StepBelowCount(policy, After(policy, user, run[..|run| - 1]), run[|run| - 1], n);
    }
  }

  // ---------- what opens, and what stays closed ----------

  /** All wrong checks of a run. */
  function Wrongs(policy: Policy, user: User, run: seq<Event>): nat {
    if run == [] then 0
    else
      Wrongs(policy, user, run[..|run| - 1])
      + if WrongCheck(policy, After(policy, user, run[..|run| - 1]), run[|run| - 1]) then 1 else 0
  }

  predicate NoAdminLock(run: seq<Event>) {
    forall i :: 0 <= i < |run| ==> !run[i].AdminLock?
  }

  /** A wrong check counts one more, and locks exactly when the count is reached, at the second it is made. */
  lemma WrongCheckCounts(policy: Policy, user: User, e: Event, n: int)
    requires Counts(policy, n) && WrongCheck(policy, user, e) && !user.locked && 0 <= user.retryCount < n
    ensures Step(policy, user, e)
         == if user.retryCount + 1 < n then user.(retryCount := user.retryCount + 1)
            else User(n, true, Some(e.checked / SECOND))
  {
    Int32Same(n);
    Int32Same(user.retryCount + 1);
  }

  /** While locked with retries a delay policy turns a login away for exactly so many minutes, unless they are
      more than a duration can hold. */
  lemma DelayedExactly(policy: Policy, user: User, now: int, minutes: int, second: int)
    requires policy.retryType == Delay && policy.delayMinutes == Some(minutes)
    requires user.locked && user.retryCount != 0 && user.lockedTime == Some(second)
    ensures -0x8000_0000_0000_0000 <= minutes * 60_000_000_000 < 0x8000_0000_0000_0000 ==>
      (Blocked(policy, user, now) <==> now < second * 1_000_000_000 + minutes * 60_000_000_000)
    ensures minutes * 60_000_000_000 >= 0x8000_0000_0000_0000 && now >= second * 1_000_000_000 ==>
      !Blocked(policy, user, now)
  {
  }

  /** A count of 2^31 or more is taken for a negative number, so the first wrong password locks. */
  lemma HugeCountLocksAtOnce(policy: Policy, user: User, e: Event, n: int)
    requires policy.count == Some(n) && 0x8000_0000 <= n < 0x1_0000_0000
    requires WrongCheck(policy, user, e) && !user.locked && 0 <= user.retryCount < 0x7fff_ffff
    ensures Step(policy, user, e) == User(user.retryCount + 1, true, Some(e.checked / SECOND))
  {
    Int32Same(user.retryCount + 1);
  }

  /** Fewer wrong checks than the count never lock an open user with no retries, whatever else happens but
      a lock by an administrator. */
  lemma {:induction false} FewWrongStayOpen(policy: Policy, user: User, run: seq<Event>, n: int)
    requires Counts(policy, n) && !user.locked && user.retryCount == 0 && NoAdminLock(run)
    requires Wrongs(policy, user, run) < n
    ensures var u := After(policy, user, run); !u.locked && 0 <= u.retryCount <= Wrongs(policy, user, run)
  {
    if run != [] {
      var init, last := run[..|run| - 1], run[|run| - 1];
      FewWrongStayOpen(policy, user, init, n);
      assert !last.AdminLock?;
      if WrongCheck(policy, After(policy, user, init), last) {
        WrongCheckCounts(policy, After(policy, user, init), last, n);
      }
    }
  }

  /** After a login that is welcomed the next n - 1 wrong passwords leave the user unlocked. */
  lemma WelcomeStartsAnew(policy: Policy, user: User, began: int, checked: int, run: seq<Event>, n: int)
    requires Counts(policy, n) && !Blocked(policy, user, began) && NoAdminLock(run)
    ensures var u := Step(policy, user, Login(began, checked, Right));
            && u.retryCount == 0 && !u.locked
            && (Wrongs(policy, u, run) < n ==> !After(policy, u, run).locked)
  {
    var u := Step(policy, user, Login(began, checked, Right));
    if Wrongs(policy, u, run) < n { FewWrongStayOpen(policy, u, run, n); }
  }

  /** With the lock policy the n-th wrong password locks, and not before. */
  lemma {:induction false} LockPolicyExact(policy: Policy, user: User, run: seq<Event>, n: int)
    requires Counts(policy, n) && policy.retryType == Lock && !user.locked && user.retryCount == 0
    requires Quiet(policy, user, run) && NoAdminLock(run)
    ensures var u, w := After(policy, user, run), Wrongs(policy, user, run);
            u.retryCount == w <= n && (u.locked <==> w == n)
  {
    if run != [] {
      var init, last := run[..|run| - 1], run[|run| - 1];
      LockPolicyExact(policy, user, init, n);
      assert !last.AdminLock?;
      if WrongCheck(policy, After(policy, user, init), last) {
        WrongCheckCounts(policy, After(policy, user, init), last, n);
      }
    }
  }

  /** A lock by an administrator stays until it is cleared, and no login passes it. */
  lemma {:induction false} AdminLockStays(policy: Policy, user: User, at: int, run: seq<Event>, began: int)
    requires forall i :: 0 <= i < |run| ==> !run[i].Cleared?
    ensures var u := After(policy, Step(policy, user, AdminLock(at)), run);
            u.locked && u.retryCount == 0 && Blocked(policy, u, began)
  {
    if run != [] {
      var last := run[|run| - 1];
      assert !last.Cleared?;
      AdminLockStays(policy, user, at, run[..|run| - 1], if last.Login? then last.began else 0);
    }
  }

  /** A reset opens the user whatever was before: the next login is checked. */
  lemma ClearedIsOpen(policy: Policy, user: User, at: int, began: int)
    ensures var u := Step(policy, user, Cleared(at));
            u.retryCount == 0 && !u.locked && u.lockedTime == None && !Blocked(policy, u, began)
  {
  }

  // ---------- the lock policy ----------

  /** With the lock policy at most n passwords are ever found wrong, and none after the lock. */
  lemma {:induction false} LockPolicyBound(policy: Policy, user: User, run: seq<Event>, n: int, from: int, to: int)
    requires Counts(policy, n) && policy.retryType == Lock && BelowCount(user, n)
    requires Quiet(policy, user, run)
    ensures var u, w := After(policy, user, run), WrongChecks(policy, user, run, from, to);
            w <= if u.locked then n else u.retryCount
  {
    if run != [] {
      var init, last := run[..|run| - 1], run[|run| - 1];
      LockPolicyBound(policy, user, init, n, from, to);
      RunBelowCount(policy, user, init, n);
      var u := After(policy, user, init);
      Int32Same(n);
      if !u.locked { Int32Same(u.retryCount + 1); }
    }
  }

  // ---------- the delay policy ----------

  predicate Delays(policy: Policy, n: int, minutes: int) {
    && Counts(policy, n) && policy.retryType == Delay && policy.delayMinutes == Some(minutes)
    && 1 <= minutes && minutes * MINUTE < INT64_LIMIT
  }

  /** The delay less a second. */
  function Gap(minutes: int): int {
    minutes * MINUTE - SECOND
  }

  /** The locks that are set in a run lose at most `loss` nanoseconds of their time to whole seconds. */
  predicate LocksLose(policy: Policy, user: User, run: seq<Event>, loss: int) {
    run == [] ||
    var before, last := After(policy, user, run[..|run| - 1]), run[|run| - 1];
    && LocksLose(policy, user, run[..|run| - 1], loss)
    && LockLoses(policy, before, last, loss)
  }

  predicate LockLoses(policy: Policy, user: User, e: Event, loss: int) {
    (WrongCheck(policy, user, e) || e.AdminLock?) && Step(policy, user, e).locked ==> End(e) % SECOND <= loss
  }

  lemma {:induction false} LossBelowSecond(policy: Policy, user: User, run: seq<Event>)
    ensures LocksLose(policy, user, run, SECOND - 1)
  {
    if run != [] { LossBelowSecond(policy, user, run[..|run| - 1]); }
  }

  /** `w` checks were wrong since `from`, in `k` batches that ended with a lock and one more that goes
      on while the user is not locked; each batch comes a gap after the one before. */
  predicate Batches(user: User, w: nat, k: nat, n: int, gap: int, loss: int, from: int, now: int) {
    if user.locked then
      && w <= k * n
      && (k >= 1 ==> from + (k - 1) * gap <= now)
      && (k >= 1 && user.retryCount != 0 ==>
            user.lockedTime.Some? && from + (k - 1) * gap <= user.lockedTime.value * SECOND + loss)
    else
      && w <= k * n + user.retryCount
      && (k >= 1 ==> from + k * gap <= now)
  }

  lemma AddProduct(k: int, x: int)
    ensures (k + 1) * x == k * x + x
  {
  }

  /** A lock ends the batch that goes on. */
  lemma BatchLocks(user: User, w: nat, k: nat, n: int, gap: int, loss: int, from: int, now: int, at: int, rc: int)
    requires Batches(user, w, k, n, gap, loss, from, now) && !user.locked && 0 <= user.retryCount < n
    requires from <= at && now <= at && at % SECOND <= loss
    requires rc == 0 || user.retryCount + 1 == n == rc
    ensures Batches(User(rc, true, Some(at / SECOND)), w, k + 1, n, gap, loss, from, at)
    ensures rc != 0 ==> Batches(User(rc, true, Some(at / SECOND)), w + 1, k + 1, n, gap, loss, from, at)
  {
    AddProduct(k, n);
    AddProduct(k, gap);
    assert at == at / SECOND * SECOND + at % SECOND;
  }

  lemma BatchGoesOn(user: User, w: nat, k: nat, n: int, gap: int, loss: int, from: int, now: int, at: int)
    requires Batches(user, w, k, n, gap, loss, from, now) && !user.locked && now <= at
    ensures Batches(user.(retryCount := user.retryCount + 1), w + 1, k, n, gap, loss, from, at)
    ensures Batches(user.(retryCount := user.retryCount + 1), w, k, n, gap, loss, from, at)
    ensures Batches(user, w, k, n, gap, loss, from, at)
  {
  }

  /** When a delay is over, the next batch comes a gap after the last. */
  lemma BatchOpens(user: User, w: nat, k: nat, n: int, delay: int, gap: int, loss: int, from: int, now: int, at: int)
    requires Batches(user, w, k, n, gap, loss, from, now) && user.locked && user.retryCount != 0
    requires user.lockedTime.Some? ==> at - user.lockedTime.value * SECOND >= delay
    requires gap + loss <= delay
    ensures Batches(CLEAR, w, k, n, gap, loss, from, at)
  {
    if k >= 1 { AddProduct(k - 1, gap); }
  }

  lemma MissedBatches(policy: Policy, user: User, n: int, w: nat, k: nat, gap: int, loss: int, from: int, now: int,
                      at: int, more: nat)
    returns (k': nat)
    requires Counts(policy, n) && !user.locked && BelowCount(user, n) && more <= 1
    requires Batches(user, w, k, n, gap, loss, from, now) && now <= at && from <= at
    requires Missed(policy, user, at).locked ==> at % SECOND <= loss
    ensures Batches(Missed(policy, user, at), w + more, k', n, gap, loss, from, at)
  {
    Int32Same(n);
    Int32Same(user.retryCount + 1);
    if user.retryCount + 1 >= n {
      BatchLocks(user, w, k, n, gap, loss, from, now, at, n);
      k' := k + 1;
    } else {
      BatchGoesOn(user, w, k, n, gap, loss, from, now, at);
      k' := k;
    }
  }

  /** One event of a quiet run; `more` is 1 if it is a wrong check to count. */
  lemma BatchesStep(policy: Policy, user: User, e: Event, n: int, minutes: int, loss: int, w: nat, k: nat, from: int,
                    now: int, more: nat)
    returns (k': nat)
    requires Delays(policy, n, minutes) && BelowCount(user, n) && LockLoses(policy, user, e, loss)
    requires Batches(user, w, k, n, minutes * MINUTE - loss, loss, from, now)
    requires now <= Start(e) <= End(e) && from <= End(e)
    requires !e.Cleared? && (e.Login? && e.check == Right ==> Blocked(policy, user, e.began))
    requires more <= if WrongCheck(policy, user, e) then 1 else 0
    ensures Batches(Step(policy, user, e), w + more, k', n, minutes * MINUTE - loss, loss, from, End(e))
  {
    var gap := minutes * MINUTE - loss;
    k' := k;
    if e.AdminLock? {
      if !user.locked {
        BatchLocks(user, w, k, n, gap, loss, from, now, e.at, 0);
        k' := k + 1;
      }
    } else if !Blocked(policy, user, e.began) {
      if user.locked { BatchOpens(user, w, k, n, minutes * MINUTE, gap, loss, from, now, e.began); }
      var current := Opened(policy, user);
      assert Batches(current, w, k, n, gap, loss, from, e.began);
      if e.check == Wrong {
        k' := MissedBatches(policy, current, n, w, k, gap, loss, from, e.began, e.checked, more);
      }
    }
  }

  lemma {:induction false} NoneYet(policy: Policy, user: User, run: seq<Event>, from: int, to: int)
    requires Ordered(run) && (run != [] ==> End(run[|run| - 1]) < from)
    ensures WrongChecks(policy, user, run, from, to) == 0
  {
    if run != [] {
      var init, last := run[..|run| - 1], run[|run| - 1];
      OrderedInit(run);
      NoneYet(policy, user, init, from, to);
    }
  }

  lemma OrderedInit(run: seq<Event>)
    requires Ordered(run) && run != []
    ensures Ordered(run[..|run| - 1]) && Start(run[|run| - 1]) <= End(run[|run| - 1])
    ensures |run| > 1 ==> End(run[..|run| - 1][|run| - 2]) <= Start(run[|run| - 1])
  {
    var init := run[..|run| - 1];
    forall i, j | 0 <= i < j < |init| ensures End(init[i]) <= Start(init[j]) { assert End(run[i]) <= Start(run[j]); }
    forall i | 0 <= i < |init| ensures Start(init[i]) <= End(init[i]) { assert Start(run[i]) <= End(run[i]); }
  }

  /** Wrong checks come in batches of at most n, and each batch comes the delay less the loss after the
      lock that ended the one before. */
  lemma {:induction false} RunBatches(policy: Policy, user: User, run: seq<Event>, n: int, minutes: int, loss: int,
                                      from: int, to: int)
    returns (k: nat)
    requires Delays(policy, n, minutes) && BelowCount(user, n)
    requires Ordered(run) && Quiet(policy, user, run) && LocksLose(policy, user, run, loss) && run != []
    ensures Batches(After(policy, user, run), WrongChecks(policy, user, run, from, to), k, n, minutes * MINUTE - loss,
                    loss, from, End(run[|run| - 1]))
  {
    var init, last := run[..|run| - 1], run[|run| - 1];
    RunBelowCount(policy, user, run, n);
    RunBelowCount(policy, user, init, n);
    OrderedInit(run);
    if End(last) < from {
      NoneYet(policy, user, run, from, to);
      k := 0;
    } else {
      var before, w := After(policy, user, init), WrongChecks(policy, user, init, from, to);
      var k0, now := 0, Start(last);
      if init != [] {
        k0 := RunBatches(policy, user, init, n, minutes, loss, from, to);
        now := End(init[|init| - 1]);
      }
      var more := if WrongCheck(policy, before, last) && from <= last.checked <= to then 1 else 0;
      k := BatchesStep(policy, before, last, n, minutes, loss, w, k0, from, now, more);
    }
  }

  lemma FitsTimes(m: nat, gap: int, length: int)
    requires gap > 0 && m * gap <= length
    ensures m <= length / gap
  {
    AddProduct(length / gap, gap);
  }

  lemma TimesMonotone(a: int, b: int, x: int)
    requires a <= b && x >= 0
    ensures a * x <= b * x
  {
  }

  /** In every window of the given length, of every run in which no login succeeds and nobody clears the
      lock: at most n wrong checks for each delay, less what the locks lose, that fits, and n more. */
  lemma {:induction false} LossBound(policy: Policy, user: User, run: seq<Event>, n: int, minutes: int, loss: int,
                                     from: int, length: nat)
    requires Delays(policy, n, minutes) && BelowCount(user, n) && loss < SECOND
    requires Ordered(run) && Quiet(policy, user, run) && LocksLose(policy, user, run, loss)
    ensures WrongChecks(policy, user, run, from, from + length) <= (length / (minutes * MINUTE - loss) + 1) * n
  {
    var gap := minutes * MINUTE - loss;
    TimesMonotone(0, length / gap + 1, n);
    if run != [] {
      var init, last := run[..|run| - 1], run[|run| - 1];
      if End(last) > from + length {
        OrderedInit(run);
        LossBound(policy, user, init, n, minutes, loss, from, length);
      } else {
        var k := RunBatches(policy, user, run, n, minutes, loss, from, from + length);
        RunBelowCount(policy, user, run, n);
        BatchesBound(After(policy, user, run), WrongChecks(policy, user, run, from, from + length), k, n, gap, loss,
                     from, End(last), length);
      }
    }
  }

  lemma BatchesBound(user: User, w: nat, k: nat, n: int, gap: int, loss: int, from: int, now: int, length: nat)
    requires Batches(user, w, k, n, gap, loss, from, now) && BelowCount(user, n)
    requires 1 <= n && 1 <= gap && now <= from + length
    ensures w <= (length / gap + 1) * n
  {
    var m: nat := if user.locked && k >= 1 then k - 1 else k;
    assert m * gap <= length by { if k == 0 { assert m == 0; } }
    FitsTimes(m, gap, length);
    AddProduct(m, n);
    assert w <= (m + 1) * n;
    TimesMonotone(m + 1, length / gap + 1, n);
  }

  /** Whatever the run: at most n wrong checks for each delay, less a second, that fits, and n more. */
  lemma WindowBound(policy: Policy, user: User, run: seq<Event>, n: int, minutes: int, from: int, length: nat)
    requires Delays(policy, n, minutes) && BelowCount(user, n)
    requires Ordered(run) && Quiet(policy, user, run)
    ensures WrongChecks(policy, user, run, from, from + length) <= (length / Gap(minutes) + 1) * n
  {
    LossBelowSecond(policy, user, run);
    LossBound(policy, user, run, n, minutes, SECOND - 1, from, length);
    LongerGap(length, Gap(minutes), Gap(minutes) + 1);
    TimesMonotone(length / (Gap(minutes) + 1) + 1, length / Gap(minutes) + 1, n);
  }

  lemma LongerGap(length: nat, gap: int, longer: int)
    requires 0 < gap <= longer
    ensures length / longer <= length / gap
  {
    var q := length / longer;
    TimesMonotone(gap, longer, q);
    assert q * gap == gap * q && q * longer == longer * q;
    FitsTimes(q, gap, length);
  }

  /** With locks on whole seconds the whole delay counts. */
  lemma WholeSecondBound(policy: Policy, user: User, run: seq<Event>, n: int, minutes: int, from: int, length: nat)
    requires Delays(policy, n, minutes) && BelowCount(user, n)
    requires Ordered(run) && Quiet(policy, user, run) && LocksLose(policy, user, run, 0)
    ensures WrongChecks(policy, user, run, from, from + length) <= (length / (minutes * MINUTE) + 1) * n
  {
    LossBound(policy, user, run, n, minutes, 0, from, length);
  }

  // ---------- the bound is sharp ----------

  /** Wrong checks, all at the last nanosecond of a second. */
  function Guesses(i: nat): seq<Event> {
    seq(i, _ => Login(SECOND - 1, SECOND - 1, Wrong))
  }

  lemma GuessesMore(i: nat)
    ensures Guesses(i + 1)[..i] == Guesses(i) && Guesses(i + 1)[i] == Login(SECOND - 1, SECOND - 1, Wrong)
  {
  }

  lemma {:induction false} GuessesLock(policy: Policy, n: int, minutes: int, i: nat, to: int)
    requires Delays(policy, n, minutes) && i <= n && SECOND - 1 <= to
    ensures After(policy, CLEAR, Guesses(i)) == if i < n then User(i, false, None) else User(n, true, Some(0))
    ensures Quiet(policy, CLEAR, Guesses(i)) && WrongChecks(policy, CLEAR, Guesses(i), SECOND - 1, to) == i
  {
    if i > 0 {
      GuessesLock(policy, n, minutes, i - 1, to);
      GuessesMore(i - 1);
      Int32Same(n);
      Int32Same(i);
    }
  }

  /** One more when the delay is over: n + 1 wrong checks within the delay less a second, and one nanosecond. */
  lemma LateGuess(policy: Policy, n: int, minutes: int) returns (run: seq<Event>)
    requires Delays(policy, n, minutes)
    ensures Ordered(run) && Quiet(policy, CLEAR, run)
    ensures WrongChecks(policy, CLEAR, run, SECOND - 1, minutes * MINUTE) == n + 1
  {
    var late := Login(minutes * MINUTE, minutes * MINUTE, Wrong);
    run := Guesses(n) + [late];
    assert run[..n] == Guesses(n) && run[n] == late;
    GuessesLock(policy, n, minutes, n, minutes * MINUTE);
    LockOver(policy, n, minutes);
  }

  lemma LockOver(policy: Policy, n: int, minutes: int)
    requires Delays(policy, n, minutes)
    ensures !Blocked(policy, User(n, true, Some(0)), minutes * MINUTE)
  {
  }

  lemma NoneFits(length: nat, gap: int, n: int)
    requires length < gap
    ensures (length / gap + 1) * n == n
  {
    assert length / gap == 0;
  }

  /** For every count and delay no bound with a longer gap holds in every run. */
  lemma GapIsSharp(policy: Policy, n: int, minutes: int, gap: int) returns (run: seq<Event>, from: int, length: nat)
    requires Delays(policy, n, minutes) && gap > Gap(minutes) + 1
    ensures Ordered(run) && Quiet(policy, CLEAR, run)
    ensures WrongChecks(policy, CLEAR, run, from, from + length) > (length / gap + 1) * n
  {
    from, length := SECOND - 1, Gap(minutes) + 1;
    run := LateGuess(policy, n, minutes);
    NoneFits(length, gap, n);
  }

  /** So the bound with the whole delay fails for every count and delay. */
  lemma WholeSecondsMatter(policy: Policy, n: int, minutes: int) returns (run: seq<Event>, from: int, length: nat)
    requires Delays(policy, n, minutes)
    ensures Ordered(run) && Quiet(policy, CLEAR, run)
    ensures WrongChecks(policy, CLEAR, run, from, from + length) > (length / (minutes * MINUTE) + 1) * n
  {
    run, from, length := GapIsSharp(policy, n, minutes, minutes * MINUTE);
  }

  /** In every window of every quiet run at most n wrong checks for each gap that fits, and n more. */
  ghost predicate Bounds(policy: Policy, n: int, gap: int)
    requires gap > 0
  {
    forall run, from, to :: Ordered(run) && Quiet(policy, CLEAR, run) && from <= to ==>
      WrongChecks(policy, CLEAR, run, from, to) <= ((to - from) / gap + 1) * n
  }

  /** The longest gap with which the bound holds is the delay less a second, and one nanosecond. */
  lemma GapExact(policy: Policy, n: int, minutes: int, gap: int)
    requires Delays(policy, n, minutes) && gap > 0
    ensures Bounds(policy, n, gap) <==> gap <= Gap(minutes) + 1
  {
    if gap <= Gap(minutes) + 1 {
      forall run, from, to | Ordered(run) && Quiet(policy, CLEAR, run) && from <= to
        ensures WrongChecks(policy, CLEAR, run, from, to) <= ((to - from) / gap + 1) * n
      {
        ShorterGapBounds(policy, run, n, minutes, gap, from, to - from);
      }
    } else {
      var run, from, length := GapIsSharp(policy, n, minutes, gap);
      assert (from + length - from) / gap == length / gap;
    }
  }

  lemma ShorterGapBounds(policy: Policy, run: seq<Event>, n: int, minutes: int, gap: int, from: int, length: nat)
    requires Delays(policy, n, minutes) && 0 < gap <= Gap(minutes) + 1
    requires Ordered(run) && Quiet(policy, CLEAR, run)
    ensures WrongChecks(policy, CLEAR, run, from, from + length) <= (length / gap + 1) * n
  {
    LossBelowSecond(policy, CLEAR, run);
    LossBound(policy, CLEAR, run, n, minutes, SECOND - 1, from, length);
    LongerGap(length, gap, Gap(minutes) + 1);
    TimesMonotone(length / (Gap(minutes) + 1) + 1, length / gap + 1, n);
  }
}
