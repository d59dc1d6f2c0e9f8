/** The Basic-Auth lockout of the serve listener (internal/server/auth.go): the authenticator
    itself, the function it computes, a reference policy stated on the bare call history, and
    the bound on how many wrong passwords a whole run can test. */
module Lockout {
  import opened Text

  const MAX_FAILURES_PER_WINDOW: int := 5
  const FAILURE_WINDOW: int := 60_000_000_000      // 60 s
  const LOCKOUT_DURATION: int := 300_000_000_000   // 300 s

  datatype AuthResult = AuthOK | AuthBadCredentials | AuthLockedOut

  datatype AuthState = AuthState(failures: seq<Instant>, lockedUntil: Instant)

  /** `lockedUntil` starts as Go's zero time. */
  const FRESH: AuthState := AuthState([], 0)

  /** The failures that lie strictly after the cutoff, in order. */
  function Unexpired(ts: seq<Instant>, cutoff: int): seq<Instant> {
    if ts == [] then [] else
      Unexpired(ts[..|ts| - 1], cutoff) +
      if ts[|ts| - 1] > cutoff then [ts[|ts| - 1]] else []
  }

  /** One call of `Check` at time `now`; `matches` says whether the password is the secret. */
  function CheckStep(s: AuthState, now: Instant, matches: bool): (AuthState, AuthResult) {
    if now < s.lockedUntil then
      (s, AuthLockedOut)
    else if matches then
      (s.(failures := []), AuthOK)
    else
      var kept := Unexpired(s.failures + [now], now - FAILURE_WINDOW);
      if |kept| >= MAX_FAILURES_PER_WINDOW then
        (AuthState([], now + LOCKOUT_DURATION), AuthBadCredentials)
      else
        (s.(failures := kept), AuthBadCredentials)
  }

  /** `failures[..count]` is the Go slice; the rest of the array is its spare capacity. */
  class Authenticator {
    const secret: string
    var failures: array<Instant>
    var count: nat
    var lockedUntil: Instant

    ghost predicate Valid()
      reads this
    {
      count <= failures.Length
    }

    ghost function State(): AuthState
      requires Valid()
      reads this, failures
    {
      AuthState(failures[..count], lockedUntil)
    }

    constructor (secret: string)
      ensures Valid() && State() == FRESH && this.secret == secret
      ensures fresh(failures)
    {
      this.secret := secret;
      failures := new Instant[0];
      count := 0;
      lockedUntil := 0;
    }

    method Check(password: string, now: Instant) returns (r: AuthResult)
      requires Valid()
      modifies this, failures
      ensures Valid() && (failures == old(failures) || fresh(failures))
      ensures (State(), r) == CheckStep(old(State()), now, password == secret)
    {
      if now < lockedUntil {
        return AuthLockedOut;
      }
      if password == secret {
        count := 0;
        return AuthOK;
      }
      Append(now);
      PruneInPlace(now - FAILURE_WINDOW);
      assert State() == AuthState(Unexpired(old(State()).failures + [now], now - FAILURE_WINDOW), old(lockedUntil));
      if count >= MAX_FAILURES_PER_WINDOW {
        lockedUntil := now + LOCKOUT_DURATION;
        count := 0;
      }
      r := AuthBadCredentials;
    }

    /** Go's `append`: write into the spare capacity, or move to a larger array. */
    method Append(t: Instant)
      requires Valid()
      modifies this`failures, this`count, failures
      ensures Valid() && (failures == old(failures) || fresh(failures))
      ensures State() == AuthState(old(State()).failures + [t], old(lockedUntil))
    {
      if count == failures.Length {
        var larger := new Instant[2 * count + 1];
        forall i | 0 <= i < count {
          larger[i] := failures[i];
        }
        failures := larger;
      }
      failures[count] := t;
      count := count + 1;
    }

    /** The filter over `kept := a.failures[:0]`: reads and writes share one array. */
    method PruneInPlace(cutoff: int)
      requires Valid()
      modifies this`count, failures
      ensures Valid()
      ensures State() == AuthState(Unexpired(old(State()).failures, cutoff), lockedUntil)
    {
      ghost var before := failures[..count];
      var n := count;
      var kept := 0;
      for i := 0 to n
        invariant kept <= i <= n == count
        invariant failures[..kept] == Unexpired(before[..i], cutoff)
        invariant forall j :: i <= j < n ==> failures[j] == before[j]
      {
        var t := failures[i];
        assert before[..i + 1] == before[..i] + [t];
        if t > cutoff {
          ghost var sofar := failures[..kept];
          failures[kept] := t;
          kept := kept + 1;
          assert failures[..kept] == sofar + [t];
        }
      }
      assert before[..n] == before;
      count := kept;
    }
  }

  // ---------------------------------------------------------------- runs

  datatype Call = Call(now: Instant, matches: bool)

  ghost predicate Monotone(h: seq<Call>) {
    forall i, j :: 0 <= i < j < |h| ==> h[i].now <= h[j].now
  }

  function Final(s: AuthState, h: seq<Call>): AuthState
    decreases h
  {
    if h == [] then s else Final(CheckStep(s, h[0].now, h[0].matches).0, h[1..])
  }

  function Results(s: AuthState, h: seq<Call>): (rs: seq<AuthResult>)
    ensures |rs| == |h|
    decreases h
  {
    if h == [] then [] else
      var (s', r) := CheckStep(s, h[0].now, h[0].matches);
      [r] + Results(s', h[1..])
  }

  lemma {:induction false} RunSplit(s: AuthState, h: seq<Call>, g: seq<Call>)
    ensures Final(s, h + g) == Final(Final(s, h), g)
    ensures Results(s, h + g) == Results(s, h) + Results(Final(s, h), g)
    decreases h
  {
    if h == [] {
      assert h + g == g;
    } else {
      assert (h + g)[1..] == h[1..] + g;
      RunSplit(CheckStep(s, h[0].now, h[0].matches).0, h[1..], g);
    }
  }

  lemma {:induction false} RunSnoc(s: AuthState, h: seq<Call>, n: nat)
    requires n < |h|
    ensures var (s', r) := CheckStep(Final(s, h[..n]), h[n].now, h[n].matches);
            Final(s, h[..n + 1]) == s' && Results(s, h)[n] == r
  {
    var s1 := Final(s, h[..n]);
    assert h[..n + 1] == h[..n] + [h[n]];
    RunSplit(s, h[..n], [h[n]]);
    assert Final(s1, [h[n]]) == CheckStep(s1, h[n].now, h[n].matches).0;
    assert h == h[..n] + h[n..];
    RunSplit(s, h[..n], h[n..]);
  }

  // ---------------------------------------------------------------- pruning

  lemma {:induction false} UnexpiredMembers(ts: seq<Instant>, cutoff: int)
    ensures forall x :: x in Unexpired(ts, cutoff) <==> x in ts && x > cutoff
  {
    if ts != [] {
      var front, last := ts[..|ts| - 1], ts[|ts| - 1];
      assert ts == front + [last];
      UnexpiredMembers(front, cutoff);
    }
  }

  lemma {:induction false} UnexpiredLength(ts: seq<Instant>, cutoff: int)
    ensures |Unexpired(ts, cutoff)| <= |ts|
  {
    if ts != [] {
      UnexpiredLength(ts[..|ts| - 1], cutoff);
    }
  }

  lemma {:induction false} UnexpiredAppend(ts: seq<Instant>, us: seq<Instant>, cutoff: int)
    ensures Unexpired(ts + us, cutoff) == Unexpired(ts, cutoff) + Unexpired(us, cutoff)
  {
    if us == [] {
      assert ts + us == ts;
    } else {
      assert (ts + us)[..|ts + us| - 1] == ts + us[..|us| - 1];
      UnexpiredAppend(ts, us[..|us| - 1], cutoff);
    }
  }

  /** Pruning early never loses an entry that a later, stricter pruning would keep. */
  lemma {:induction false} PruneTwice(ts: seq<Instant>, early: int, late: int)
    requires early <= late
    ensures Unexpired(Unexpired(ts, early), late) == Unexpired(ts, late)
  {
    if ts != [] {
      var front, last := ts[..|ts| - 1], ts[|ts| - 1];
      PruneTwice(front, early, late);
      UnexpiredAppend(Unexpired(front, early), if last > early then [last] else [], late);
    }
  }

  lemma {:induction false} UnexpiredExtremes(ts: seq<Instant>, cutoff: int)
    ensures (forall x :: x in ts ==> x > cutoff) ==> Unexpired(ts, cutoff) == ts
    ensures (forall x :: x in ts ==> x <= cutoff) ==> Unexpired(ts, cutoff) == []
  {
    if ts != [] {
      var front, last := ts[..|ts| - 1], ts[|ts| - 1];
      assert ts == front + [last];
      assert last in ts && forall x :: x in front ==> x in ts;
      UnexpiredExtremes(front, cutoff);
    }
  }

  ghost predicate Ascending(ts: seq<Instant>) {
    forall i, j :: 0 <= i < j < |ts| ==> ts[i] <= ts[j]
  }

  lemma {:induction false} UnexpiredAscending(ts: seq<Instant>, cutoff: int)
    requires Ascending(ts)
    ensures Ascending(Unexpired(ts, cutoff))
  {
    if ts != [] {
      var front, last := ts[..|ts| - 1], ts[|ts| - 1];
      UnexpiredAscending(front, cutoff);
      UnexpiredMembers(front, cutoff);
      var k := Unexpired(front, cutoff);
      forall i | 0 <= i < |k|
        ensures k[i] <= last
      {
        assert k[i] in front;
      }
    }
  }

  /** What every call keeps: at most four recorded failures, in time order, none in the future. */
  ghost predicate Sane(s: AuthState, t: int) {
    && |s.failures| < MAX_FAILURES_PER_WINDOW
    && Ascending(s.failures)
    && (forall x :: x in s.failures ==> x <= t)
  }

  lemma {:induction false} StepKeepsSane(s: AuthState, t: int, now: Instant, matches: bool)
    requires Sane(s, t) && t <= now
    ensures Sane(CheckStep(s, now, matches).0, now)
  {
    forall i | 0 <= i < |s.failures|
      ensures s.failures[i] <= now
    {
      assert s.failures[i] in s.failures;
    }
    UnexpiredMembers(s.failures + [now], now - FAILURE_WINDOW);
    UnexpiredAscending(s.failures + [now], now - FAILURE_WINDOW);
  }

  lemma {:induction false} RunKeepsSane(s: AuthState, t: int, h: seq<Call>)
    requires Sane(s, t) && Monotone(h) && (h != [] ==> t <= h[0].now)
    ensures Sane(Final(s, h), if h == [] then t else h[|h| - 1].now)
    decreases h
  {
    if h != [] {
      StepKeepsSane(s, t, h[0].now, h[0].matches);
      RunKeepsSane(CheckStep(s, h[0].now, h[0].matches).0, h[0].now, h[1..]);
    }
  }

  // ---------------------------------------------------------------- the policy, on the history

  /* The next definitions never mention AuthState: they read the list of calls alone. */

  /** Call `i` falls within 300 seconds of an earlier call that started a lockout. */
  ghost predicate LockedAt(h: seq<Call>, i: nat)
    requires i < |h|
    decreases i, 0
  {
    exists j :: 0 <= j < i && StartsLockout(h, j) && h[i].now < h[j].now + LOCKOUT_DURATION
  }

  /** Call `i` compared a wrong password. */
  ghost predicate Failed(h: seq<Call>, i: nat)
    requires i < |h|
    decreases i, 1
  {
    !LockedAt(h, i) && !h[i].matches
  }

  /** Call `i` forgets the failures before it: a success, or the start of a lockout. */
  ghost predicate Clears(h: seq<Call>, i: nat)
    requires i < |h|
    decreases i, 4
  {
    StartsLockout(h, i) || (!LockedAt(h, i) && h[i].matches)
  }

  /** The times of the failures among the first `n` calls that are later than the cutoff and that
      no call before call `end` has cleared. */
  ghost function Pending(h: seq<Call>, n: nat, end: nat, cutoff: int): seq<Instant>
    requires n <= end + 1 && n <= |h| && end <= |h|
    decreases end, 2, n
  {
    if n == 0 then [] else
      Pending(h, n - 1, end, cutoff) +
      if Failed(h, n - 1) && h[n - 1].now > cutoff && NoneClears(h, n - 1, end)
      then [h[n - 1].now] else []
  }

  /** No call from `from` to before `end` forgets. */
  ghost predicate NoneClears(h: seq<Call>, from: nat, end: nat)
    requires from <= end <= |h|
    decreases end, 1
  {
    forall m :: from <= m < end ==> !Clears(h, m)
  }

  /** Call `j` is at least the fifth uncleared failure strictly within 60 seconds. */
  ghost predicate StartsLockout(h: seq<Call>, j: nat)
    requires j < |h|
    decreases j, 3
  {
    Failed(h, j) && |Pending(h, j + 1, j, h[j].now - FAILURE_WINDOW)| >= MAX_FAILURES_PER_WINDOW
  }

  /** 60 seconds before the last compared failure among the first `n` calls. */
  ghost function LastCutoff(h: seq<Call>, n: nat): int
    requires n <= |h|
  {
    if n == 0 then -FAILURE_WINDOW
    else if Failed(h, n - 1) then h[n - 1].now - FAILURE_WINDOW
    else LastCutoff(h, n - 1)
  }

  ghost predicate TracksFailures(s: AuthState, h: seq<Call>, n: nat)
    requires n <= |h|
  {
    s.failures == Pending(h, n, n, LastCutoff(h, n))
  }

  ghost predicate TracksLockout(s: AuthState, h: seq<Call>, n: nat)
    requires n <= |h|
  {
    && (forall j :: 0 <= j < n && StartsLockout(h, j) ==> h[j].now + LOCKOUT_DURATION <= s.lockedUntil)
    && (s.lockedUntil == 0 ||
        exists j :: 0 <= j < n && StartsLockout(h, j) && s.lockedUntil == h[j].now + LOCKOUT_DURATION)
  }

  lemma {:induction false} CutoffBefore(h: seq<Call>, n: nat)
    requires Monotone(h) && n < |h|
    ensures LastCutoff(h, n) <= h[n].now - FAILURE_WINDOW
  {
    if n > 0 {
      CutoffBefore(h, n - 1);
    }
  }

  lemma {:induction false} PendingPruned(h: seq<Call>, n: nat, end: nat, early: int, late: int)
    requires n <= end + 1 && n <= |h| && end <= |h| && early <= late
    ensures Unexpired(Pending(h, n, end, early), late) == Pending(h, n, end, late)
  {
    if n > 0 {
      PendingPruned(h, n - 1, end, early, late);
      var front := Pending(h, n - 1, end, early);
      UnexpiredAppend(front, Pending(h, n, end, early)[|front|..], late);
      assert Pending(h, n, end, early) == front + Pending(h, n, end, early)[|front|..];
    }
  }

  lemma {:induction false} NoneClearsExtend(h: seq<Call>, from: nat, end: nat)
    requires from <= end < |h|
    ensures NoneClears(h, from, end + 1) <==> NoneClears(h, from, end) && !Clears(h, end)
  {
  }

  lemma {:induction false} PendingExtend(h: seq<Call>, n: nat, end: nat, cutoff: int)
    requires n <= end < |h|
    ensures !Clears(h, end) ==> Pending(h, n, end + 1, cutoff) == Pending(h, n, end, cutoff)
    ensures Clears(h, end) ==> Pending(h, n, end + 1, cutoff) == []
  {
    if n > 0 {
      NoneClearsExtend(h, n - 1, end);
      PendingExtend(h, n - 1, end, cutoff);
    }
  }

  lemma {:induction false} LockedIffBefore(s: AuthState, h: seq<Call>, n: nat)
    requires n < |h| && TracksLockout(s, h, n)
    ensures LockedAt(h, n) <==> h[n].now < s.lockedUntil
  {
  }

  /** After an uncleared failure at call `n`, pruning the record gives the window of call `n`. */
  lemma {:induction false} FailureWindowAt(s: AuthState, h: seq<Call>, n: nat)
    requires Monotone(h) && n < |h| && TracksFailures(s, h, n) && Failed(h, n)
    ensures Unexpired(s.failures + [h[n].now], h[n].now - FAILURE_WINDOW)
              == Pending(h, n + 1, n, h[n].now - FAILURE_WINDOW)
  {
    var cutoff := h[n].now - FAILURE_WINDOW;
    CutoffBefore(h, n);
    PendingPruned(h, n, n, LastCutoff(h, n), cutoff);
    UnexpiredAppend(s.failures, [h[n].now], cutoff);
    assert Unexpired([h[n].now], cutoff) == [h[n].now];
  }

  lemma {:induction false} PendingAfter(h: seq<Call>, n: nat, cutoff: int)
    requires n < |h|
    ensures Clears(h, n) ==> Pending(h, n + 1, n + 1, cutoff) == []
    ensures !Clears(h, n) ==> Pending(h, n + 1, n + 1, cutoff) == Pending(h, n + 1, n, cutoff)
    ensures !Failed(h, n) && !Clears(h, n) ==> Pending(h, n + 1, n + 1, cutoff) == Pending(h, n, n, cutoff)
  {
    PendingExtend(h, n, n, cutoff);
  }

  /** The answer to call `n` and the start of a lockout there, read off the state before it. */
  lemma {:induction false} StepAnswers(s: AuthState, h: seq<Call>, n: nat)
    requires Monotone(h) && n < |h|
    requires TracksFailures(s, h, n) && TracksLockout(s, h, n)
    ensures var (s', r) := CheckStep(s, h[n].now, h[n].matches);
            && (r == AuthLockedOut <==> LockedAt(h, n))
            && (r == AuthBadCredentials <==> Failed(h, n))
            && (StartsLockout(h, n) ==> s' == AuthState([], h[n].now + LOCKOUT_DURATION))
            && (!StartsLockout(h, n) ==> s'.lockedUntil == s.lockedUntil)
            && (Failed(h, n) && !StartsLockout(h, n) ==>
                 s'.failures == Pending(h, n + 1, n, h[n].now - FAILURE_WINDOW))
  {
    LockedIffBefore(s, h, n);
    if Failed(h, n) {
      FailureWindowAt(s, h, n);
    }
  }

  /** One call agrees with the policy, whatever the calls before it were. */
  lemma {:induction false} StepFollowsPolicy(s: AuthState, h: seq<Call>, n: nat)
    requires Monotone(h) && n < |h|
    requires TracksFailures(s, h, n) && TracksLockout(s, h, n)
    ensures var s' := CheckStep(s, h[n].now, h[n].matches).0;
            TracksFailures(s', h, n + 1) && TracksLockout(s', h, n + 1)
  {
    StepAnswers(s, h, n);
    var s' := CheckStep(s, h[n].now, h[n].matches).0;
    assert TracksLockout(s', h, n + 1) by {
      LockedIffBefore(s, h, n);
    }
    assert s'.failures == Pending(h, n + 1, n + 1, LastCutoff(h, n + 1)) by {
      PendingAfter(h, n, LastCutoff(h, n + 1));
    }
  }

  lemma {:induction false} PolicyGoesOn(h: seq<Call>, n: nat)
    requires Monotone(h) && n < |h|
    requires TracksFailures(Final(FRESH, h[..n]), h, n) && TracksLockout(Final(FRESH, h[..n]), h, n)
    ensures TracksFailures(Final(FRESH, h[..n + 1]), h, n + 1) && TracksLockout(Final(FRESH, h[..n + 1]), h, n + 1)
  {
    var s, s' := Final(FRESH, h[..n]), Final(FRESH, h[..n + 1]);
    assert s' == CheckStep(s, h[n].now, h[n].matches).0 by {
      RunSnoc(FRESH, h, n);
    }
    StepFollowsPolicy(s, h, n);
  }

  lemma {:induction false} PrefixFollowsPolicy(h: seq<Call>, n: nat)
    requires Monotone(h) && n <= |h|
    ensures TracksFailures(Final(FRESH, h[..n]), h, n) && TracksLockout(Final(FRESH, h[..n]), h, n)
  {
    if n > 0 {
      PrefixFollowsPolicy(h, n - 1);
      PolicyGoesOn(h, n - 1);
    }
  }

  /** What a call answers, and when it starts a lockout, in a state that follows the policy. */
  lemma {:induction false} AnswerFollows(s: AuthState, h: seq<Call>, n: nat)
    requires Monotone(h) && n < |h| && TracksFailures(s, h, n) && TracksLockout(s, h, n)
    ensures var (s', r) := CheckStep(s, h[n].now, h[n].matches);
            && (r == AuthLockedOut <==> LockedAt(h, n))
            && (r == AuthOK <==> !LockedAt(h, n) && h[n].matches)
            && (r == AuthBadCredentials <==> Failed(h, n))
            && (StartsLockout(h, n) <==> Failed(h, n) && s'.lockedUntil == h[n].now + LOCKOUT_DURATION)
  {
    StepAnswers(s, h, n);
    LockedIffBefore(s, h, n);
  }

  lemma {:induction false} RecordFollows(s: AuthState, h: seq<Call>, n: nat)
    requires Monotone(h) && n < |h| && s == Final(FRESH, h[..n + 1])
    ensures s.failures == Pending(h, n + 1, n + 1, LastCutoff(h, n + 1)) && Sane(s, h[n].now)
  {
    PrefixFollowsPolicy(h, n + 1);
    RunKeepsSane(FRESH, 0, h[..n + 1]);
  }

  /** The authenticator implements the policy: every answer, every start of a lockout, and the
      recorded failures are what the bare history prescribes. */
  lemma {:induction false} RunFollowsPolicy(h: seq<Call>, n: nat)
    requires Monotone(h) && n < |h|
    ensures var r, s := Results(FRESH, h)[n], Final(FRESH, h[..n + 1]);
            && (r == AuthLockedOut <==> LockedAt(h, n))
            && (r == AuthOK <==> !LockedAt(h, n) && h[n].matches)
            && (r == AuthBadCredentials <==> Failed(h, n))
            && (StartsLockout(h, n) <==> Failed(h, n) && s.lockedUntil == h[n].now + LOCKOUT_DURATION)
            && s.failures == Pending(h, n + 1, n + 1, LastCutoff(h, n + 1))
            && Sane(s, h[n].now)
  {
    PrefixFollowsPolicy(h, n);
    AnswerFollows(Final(FRESH, h[..n]), h, n);
    RunSnoc(FRESH, h, n);
    RecordFollows(Final(FRESH, h[..n + 1]), h, n);
  }

  // ---------------------------------------------------------------- six calls, in seconds

  function Times(h: seq<Call>, n: nat): seq<Instant>
    requires n <= |h|
  {
    if n == 0 then [] else Times(h, n - 1) + [h[n - 1].now]
  }

  ghost predicate AllWrong(h: seq<Call>, n: nat)
    requires n <= |h|
  {
    forall i :: 0 <= i < n ==> !h[i].matches
  }

  lemma {:induction false} TimesLength(h: seq<Call>, n: nat)
    requires n <= |h|
    ensures |Times(h, n)| == n
    ensures forall i :: 0 <= i < n ==> Times(h, n)[i] == h[i].now
  {
    if n > 0 {
      TimesLength(h, n - 1);
    }
  }

  /** The times of the calls before `n`, as of the last of them. */
  function Recent(h: seq<Call>, n: nat): seq<Instant>
    requires n <= |h|
  {
    Unexpired(Times(h, n), CutoffOf(h, n))
  }

  function CutoffOf(h: seq<Call>, n: nat): int
    requires n <= |h|
  {
    if n == 0 then -FAILURE_WINDOW else h[n - 1].now - FAILURE_WINDOW
  }

  lemma {:induction false} RecentNext(h: seq<Call>, n: nat)
    requires Monotone(h) && n < |h|
    ensures Unexpired(Recent(h, n) + [h[n].now], h[n].now - FAILURE_WINDOW) == Recent(h, n + 1)
  {
    PruneAppend(Times(h, n), h[n].now, CutoffOf(h, n), CutoffOf(h, n + 1));
  }

  lemma {:induction false} PruneAppend(ts: seq<Instant>, t: Instant, early: int, late: int)
    requires early <= late
    ensures Unexpired(Unexpired(ts, early) + [t], late) == Unexpired(ts + [t], late)
  {
    UnexpiredAppend(Unexpired(ts, early), [t], late);
    UnexpiredAppend(ts, [t], late);
    PruneTwice(ts, early, late);
  }

  /** A wrong password outside a lockout, by the record it leaves before counting. */
  lemma WrongCall(s: AuthState, now: Instant, record: seq<Instant>)
    requires s.lockedUntil <= now && record == Unexpired(s.failures + [now], now - FAILURE_WINDOW)
    ensures |record| < 5 ==> CheckStep(s, now, false).0 == AuthState(record, s.lockedUntil)
    ensures |record| >= 5 ==> CheckStep(s, now, false).0 == AuthState([], now + LOCKOUT_DURATION)
  {
  }

  /** Up to four wrong passwords in a row are recorded, but for those that have expired since. */
  lemma {:induction false} FirstWrong(h: seq<Call>, n: nat)
    requires Monotone(h) && n <= 4 && n < |h| && AllWrong(h, n)
    ensures Final(FRESH, h[..n]) == AuthState(Recent(h, n), 0)
  {
    if n > 0 {
      FirstWrong(h, n - 1);
      RunSnoc(FRESH, h, n - 1);
      WrongRecorded(Final(FRESH, h[..n - 1]), h, n - 1);
    }
  }

  lemma {:induction false} WrongRecorded(s: AuthState, h: seq<Call>, n: nat)
    requires Monotone(h) && n < 4 && n < |h| && !h[n].matches && s == AuthState(Recent(h, n), 0)
    ensures CheckStep(s, h[n].now, h[n].matches).0 == AuthState(Recent(h, n + 1), 0)
  {
    RecentNext(h, n);
    TimesLength(h, n + 1);
    UnexpiredLength(Times(h, n + 1), h[n].now - FAILURE_WINDOW);
    WrongCall(s, h[n].now, Recent(h, n + 1));
  }

  lemma {:induction false} FiveRecorded(h: seq<Call>)
    requires |h| > 4 && Monotone(h)
    ensures |Recent(h, 5)| >= 5 <==> h[4].now - h[0].now < FAILURE_WINDOW
  {
    TimesLength(h, 5);
    UnexpiredLength(Times(h, 5), h[4].now - FAILURE_WINDOW);
    AllKeptIff(Times(h, 5), h[4].now - FAILURE_WINDOW);
  }

  lemma {:induction false} FifthWrong(s: AuthState, h: seq<Call>)
    requires |h| > 4 && Monotone(h) && !h[4].matches && s == AuthState(Recent(h, 4), 0)
    ensures CheckStep(s, h[4].now, h[4].matches).0.lockedUntil ==
            if h[4].now - h[0].now < FAILURE_WINDOW then h[4].now + LOCKOUT_DURATION else 0
  {
    RecentNext(h, 4);
    FiveRecorded(h);
    WrongCall(s, h[4].now, Recent(h, 5));
  }

  lemma {:induction false} LockedAfterFive(h: seq<Call>)
    requires |h| > 4 && Monotone(h) && AllWrong(h, 5)
    ensures Final(FRESH, h[..5]).lockedUntil ==
            if h[4].now - h[0].now < FAILURE_WINDOW then h[4].now + LOCKOUT_DURATION else 0
  {
    FirstWrong(h, 4);
    RunSnoc(FRESH, h, 4);
    FifthWrong(Final(FRESH, h[..4]), h);
  }

  /** Everything is kept exactly when the first entry is. */
  lemma {:induction false} AllKeptIff(ts: seq<Instant>, cutoff: int)
    requires ts != [] && Ascending(ts)
    ensures |Unexpired(ts, cutoff)| == |ts| <==> ts[0] > cutoff
  {
    UnexpiredLength(ts, cutoff);
    if ts[0] > cutoff {
      UnexpiredExtremes(ts, cutoff);
    } else {
      UnexpiredAppend([ts[0]], ts[1..], cutoff);
      assert [ts[0]] + ts[1..] == ts && Unexpired([ts[0]], cutoff) == [];
      UnexpiredLength(ts[1..], cutoff);
    }
  }

  /** Five wrong passwords lock the listener if they come within less than a minute, for exactly five
      minutes from the fifth, the right password included; if they take a minute, they do not. */
  lemma {:induction false} SixCalls(h: seq<Call>)
    requires |h| == 6 && Monotone(h) && AllWrong(h, 5)
    ensures var r := Results(FRESH, h)[5];
            if h[4].now - h[0].now < 60_000_000_000 then
              r == AuthLockedOut <==> h[5].now < h[4].now + 300_000_000_000
            else r != AuthLockedOut
  {
    LockedAfterFive(h);
    RunSnoc(FRESH, h, 5);
  }

  // ---------------------------------------------------------------- the guessing bound

  function Count(rs: seq<AuthResult>, r: AuthResult): nat {
    if rs == [] then 0 else (if rs[0] == r then 1 else 0) + Count(rs[1..], r)
  }

  /** How many wrong passwords were compared. */
  function Guesses(rs: seq<AuthResult>): nat {
    Count(rs, AuthBadCredentials)
  }

  function Successes(rs: seq<AuthResult>): nat {
    Count(rs, AuthOK)
  }

  lemma {:induction false} CountAppend(a: seq<AuthResult>, b: seq<AuthResult>, r: AuthResult)
    ensures Count(a + b, r) == Count(a, r) + Count(b, r)
  {
    if a == [] {
      assert a + b == b;
    } else {
      assert (a + b)[1..] == a[1..] + b;
      CountAppend(a[1..], b, r);
    }
  }

  lemma {:induction false} CountNone(rs: seq<AuthResult>, r: AuthResult)
    ensures Count(rs, r) == 0 <==> r !in rs
  {
    if rs != [] {
      CountNone(rs[1..], r);
      assert rs == [rs[0]] + rs[1..];
    }
  }

  /** What the answers of a first call and of the calls after it add up to. */
  lemma {:induction false} CountNext(s: AuthState, h: seq<Call>, r: AuthResult)
    requires h != []
    ensures var (s', r0) := CheckStep(s, h[0].now, h[0].matches);
            Count(Results(s, h), r) == (if r0 == r then 1 else 0) + Count(Results(s', h[1..]), r)
  {
    var (s', r0) := CheckStep(s, h[0].now, h[0].matches);
    assert Results(s, h)[0] == r0 && Results(s, h)[1..] == Results(s', h[1..]);
  }

  /** With `n` guesses made since `t0` and the last success: all are still on record, or they have
      started a lockout. */
  ghost predicate Charged(s: AuthState, t0: Instant, n: nat) {
    || (s.lockedUntil >= t0 + LOCKOUT_DURATION && n <= MAX_FAILURES_PER_WINDOW)
    || (n <= |Unexpired(s.failures, t0 - 1)| && |s.failures| < MAX_FAILURES_PER_WINDOW)
  }

  lemma {:induction false} StepCharges(s: AuthState, t0: Instant, n: nat, now: Instant, matches: bool)
    requires Charged(s, t0, n) && t0 <= now < t0 + FAILURE_WINDOW
    ensures var (s', r) := CheckStep(s, now, matches);
            && (r != AuthOK ==> Charged(s', t0, n + if r == AuthBadCredentials then 1 else 0))
            && (r == AuthOK ==> n < MAX_FAILURES_PER_WINDOW && Charged(s', t0, 0))
  {
    RecordedSince(s.failures, t0, now);
  }

  /** Recording a failure at `now` and pruning keeps every failure since `t0`, and adds one. */
  lemma {:induction false} RecordedSince(failures: seq<Instant>, t0: Instant, now: Instant)
    requires t0 <= now < t0 + FAILURE_WINDOW
    ensures var kept := Unexpired(failures + [now], now - FAILURE_WINDOW);
            && |Unexpired(kept, t0 - 1)| == |Unexpired(failures, t0 - 1)| + 1 <= |kept| <= |failures| + 1
            && |Unexpired(failures, t0 - 1)| <= |failures|
  {
    var kept := Unexpired(failures + [now], now - FAILURE_WINDOW);
    assert |Unexpired(kept, t0 - 1)| == |Unexpired(failures, t0 - 1)| + 1 by {
      PruneTwice(failures + [now], now - FAILURE_WINDOW, t0 - 1);
      UnexpiredAppend(failures, [now], t0 - 1);
      assert Unexpired([now], t0 - 1) == [now];
    }
    UnexpiredLength(failures, t0 - 1);
    UnexpiredLength(failures + [now], now - FAILURE_WINDOW);
    UnexpiredLength(kept, t0 - 1);
  }

  /** Five guesses and four more for every success; or fewer; in the first case a lockout is left. */
  ghost predicate Spent(s: AuthState, t0: Instant, g: nat, n: nat) {
    || g < MAX_FAILURES_PER_WINDOW + 4 * n
    || (g == MAX_FAILURES_PER_WINDOW + 4 * n && s.lockedUntil >= t0 + LOCKOUT_DURATION)
  }

  ghost predicate Within(h: seq<Call>, from: int, to: int) {
    forall i :: 0 <= i < |h| ==> from <= h[i].now < to
  }

  /** Within one minute: at most five guesses, and four more for every success in it. */
  lemma {:induction false} MinuteBound(s: AuthState, t0: Instant, n: nat, h: seq<Call>)
    requires Charged(s, t0, n) && Within(h, t0, t0 + FAILURE_WINDOW)
    ensures Spent(Final(s, h), t0, n + Guesses(Results(s, h)), Successes(Results(s, h)))
    decreases h
  {
    if h == [] {
      UnexpiredLength(s.failures, t0 - 1);
    } else {
      var (s', r) := CheckStep(s, h[0].now, h[0].matches);
      CountNext(s, h, AuthBadCredentials);
      CountNext(s, h, AuthOK);
      StepCharges(s, t0, n, h[0].now, h[0].matches);
      MinuteBound(s', t0, if r == AuthOK then 0 else n + if r == AuthBadCredentials then 1 else 0, h[1..]);
    }
  }

  lemma {:induction false} LockedStretch(s: AuthState, h: seq<Call>, r: AuthResult)
    requires Within(h, 0, s.lockedUntil) && r != AuthLockedOut
    ensures Final(s, h) == s && Count(Results(s, h), r) == 0
    decreases h
  {
    if h != [] {
      CountNext(s, h, r);
      LockedStretch(s, h[1..], r);
    }
  }

  /** The first index whose call is at or after `t`. */
  function FirstFrom(h: seq<Call>, t: int): (k: nat)
    ensures k <= |h| && (k < |h| ==> h[k].now >= t)
    ensures forall i :: 0 <= i < k ==> h[i].now < t
  {
    if h == [] || h[0].now >= t then 0 else 1 + FirstFrom(h[1..], t)
  }

  function Minutes(h: seq<Call>): int
    requires h != []
  {
    (h[|h| - 1].now - h[0].now) / FAILURE_WINDOW
  }

  lemma {:induction false} CountSplit(s: AuthState, h: seq<Call>, k: nat, r: AuthResult)
    requires k <= |h|
    ensures Count(Results(s, h), r) == Count(Results(s, h[..k]), r) + Count(Results(Final(s, h[..k]), h[k..]), r)
  {
    assert h == h[..k] + h[k..];
    RunSplit(s, h[..k], h[k..]);
    CountAppend(Results(s, h[..k]), Results(Final(s, h[..k]), h[k..]), r);
  }

  lemma {:induction false} LaterStart(h: seq<Call>, k: nat, minutes: nat)
    requires k < |h| && Monotone(h) && h[k].now >= h[0].now + minutes * FAILURE_WINDOW
    ensures Minutes(h[k..]) <= Minutes(h) - minutes
  {
    var last := h[|h| - 1].now;
    assert h[k..][|h[k..]| - 1] == h[|h| - 1];
    assert (last - h[0].now - minutes * FAILURE_WINDOW) / FAILURE_WINDOW == (last - h[0].now) / FAILURE_WINDOW - minutes;
    assert last - h[k].now <= last - h[0].now - minutes * FAILURE_WINDOW;
  }

  /** The first minute of a stretch. */
  lemma {:induction false} FirstMinute(s: AuthState, h: seq<Call>, k: nat)
    requires h != [] && Monotone(h) && Sane(s, h[0].now) && k == FirstFrom(h, h[0].now + FAILURE_WINDOW)
    ensures 0 < k <= |h| && Sane(Final(s, h[..k]), h[k - 1].now)
    ensures Spent(Final(s, h[..k]), h[0].now, Guesses(Results(s, h[..k])), Successes(Results(s, h[..k])))
  {
    MinuteBound(s, h[0].now, 0, h[..k]);
    RunKeepsSane(s, h[0].now, h[..k]);
  }

  /** `g` guesses and `n` successes are within the bound for `minutes`. */
  predicate Bounded(g: nat, n: nat, minutes: int) {
    g <= 4 * minutes + 5 + 4 * n
  }

  /** Within 60 seconds MinuteBound; what follows is bounded by RestBound. */
  lemma {:induction false} StretchBound(s: AuthState, h: seq<Call>)
    requires h != [] && Monotone(h) && Sane(s, h[0].now)
    ensures Bounded(Guesses(Results(s, h)), Successes(Results(s, h)), Minutes(h))
    decreases |h|, 0
  {
    var k := FirstFrom(h, h[0].now + FAILURE_WINDOW);
    FirstMinute(s, h, k);
    CountSplit(s, h, k, AuthBadCredentials);
    CountSplit(s, h, k, AuthOK);
    var g, n := Guesses(Results(s, h[..k])), Successes(Results(s, h[..k]));
    if k < |h| {
      RestBound(Final(s, h[..k]), h, k, g, n);
    } else {
      assert Results(Final(s, h[..k]), h[k..]) == [];
      assert Minutes(h) >= 0;
    }
  }

  lemma {:induction false} DarkStretch(s: AuthState, h: seq<Call>, k: nat, m: nat, r: AuthResult)
    requires k <= m <= |h| && Within(h[k..m], 0, s.lockedUntil) && r != AuthLockedOut
    ensures Count(Results(s, h[k..]), r) == Count(Results(s, h[m..]), r)
  {
    LockedStretch(s, h[k..m], r);
    CountSplit(s, h[k..], m - k, r);
    assert h[k..][..m - k] == h[k..m] && h[k..][m - k..] == h[m..];
  }

  /** The amortised step: a minute that ends in a lockout pays with the four empty ones after it. */
  lemma {:induction false} RestBound(s: AuthState, h: seq<Call>, k: nat, g: nat, n: nat)
    requires 0 < k < |h| && Monotone(h) && Sane(s, h[k - 1].now)
    requires h[k].now >= h[0].now + FAILURE_WINDOW && Spent(s, h[0].now, g, n)
    ensures Bounded(g + Guesses(Results(s, h[k..])), n + Successes(Results(s, h[k..])), Minutes(h))
    decreases |h| - k, 3
  {
    if g < MAX_FAILURES_PER_WINDOW + 4 * n {
      LaterBound(s, h, k, 1);
    } else {
      DarkBound(s, h, k);
    }
  }

  /** After a lockout that began in the first minute. */
  lemma {:induction false} DarkBound(s: AuthState, h: seq<Call>, k: nat)
    requires 0 < k < |h| && Monotone(h) && Sane(s, h[k - 1].now) && s.lockedUntil >= h[0].now + LOCKOUT_DURATION
    ensures Bounded(5 + Guesses(Results(s, h[k..])), Successes(Results(s, h[k..])), Minutes(h))
    decreases |h| - k, 2
  {
    var m := Dark(s, h, k);
    if m < |h| {
      LaterBound(s, h, m, 5);
    } else {
      assert Results(s, h[m..]) == [];
      assert Minutes(h) >= 0;
    }
  }

  lemma {:induction false} Dark(s: AuthState, h: seq<Call>, k: nat) returns (m: nat)
    requires 0 < k < |h| && Monotone(h) && Sane(s, h[k - 1].now) && s.lockedUntil >= h[0].now + LOCKOUT_DURATION
    ensures k <= m <= |h|
    ensures Guesses(Results(s, h[k..])) == Guesses(Results(s, h[m..]))
    ensures Successes(Results(s, h[k..])) == Successes(Results(s, h[m..]))
    ensures m < |h| ==> h[m].now >= h[0].now + 5 * FAILURE_WINDOW && Sane(s, h[m - 1].now)
  {
    m := k + FirstFrom(h[k..], h[0].now + LOCKOUT_DURATION);
    DarkStretch(s, h, k, m, AuthBadCredentials);
    DarkStretch(s, h, k, m, AuthOK);
  }

  /** A stretch that starts `minutes` later has that much less to spend. */
  lemma {:induction false} LaterBound(s: AuthState, h: seq<Call>, k: nat, minutes: nat)
    requires 0 < k < |h| && Monotone(h) && Sane(s, h[k - 1].now)
    requires h[k].now >= h[0].now + minutes * FAILURE_WINDOW
    ensures Bounded(Guesses(Results(s, h[k..])), Successes(Results(s, h[k..])), Minutes(h) - minutes)
    decreases |h| - k, 1
  {
    LaterStart(h, k, minutes);
    StretchBound(s, h[k..]);
  }

  /** In any stretch of any run, at most 4 * floor(T / 60s) + 5 wrong passwords are compared, where T
      is the time from the first to the last call of the stretch, and four more for every success
      in the stretch; none more when it has no success. */
  lemma {:induction false} GuessBound(h: seq<Call>, i: nat, j: nat)
    requires Monotone(h) && i <= j < |h|
    ensures var rs, minutes := Results(FRESH, h)[i..j + 1], (h[j].now - h[i].now) / 60_000_000_000;
            && Guesses(rs) <= 4 * minutes + 5 + 4 * Successes(rs)
            && (AuthOK !in rs ==> Guesses(rs) <= 4 * minutes + 5)
  {
    StretchStart(h, i);
    StretchShape(h, i, j);
    StretchResults(FRESH, h, i, j + 1);
    StretchBound(Final(FRESH, h[..i]), h[i..j + 1]);
    CountNone(Results(FRESH, h)[i..j + 1], AuthOK);
  }

  /** A run of a fresh authenticator that keeps to the bound without successes. */
  ghost predicate Plain(h: seq<Call>)
    requires h != []
  {
    Guesses(Results(FRESH, h)) <= 4 * Minutes(h) + 5
  }

  /** Exactly when every run with `n` successes keeps to the bound without them: when there are none. */
  lemma {:induction false} PlainBoundIff(n: nat)
    ensures (forall h :: h != [] && Monotone(h) && Successes(Results(FRESH, h)) == n ==> Plain(h)) <==> n == 0
  {
    if n == 0 {
      forall h | h != [] && Monotone(h) && Successes(Results(FRESH, h)) == n
        ensures Plain(h)
      {
        CountNone(Results(FRESH, h), AuthOK);
        GuessBound(h, 0, |h| - 1);
        assert Results(FRESH, h)[0..|h|] == Results(FRESH, h);
      }
    } else {
      var h := GuessBoundIsExact(n, 0);
      assert h != [] && Monotone(h) && Successes(Results(FRESH, h)) == n && !Plain(h);
    }
  }

  lemma {:induction false} StretchStart(h: seq<Call>, i: nat)
    requires Monotone(h) && i < |h|
    ensures Sane(Final(FRESH, h[..i]), h[i].now)
  {
    RunKeepsSane(FRESH, 0, h[..i]);
  }

  lemma {:induction false} StretchShape(h: seq<Call>, i: nat, j: nat)
    requires Monotone(h) && i <= j < |h|
    ensures h[i..j + 1] != [] && h[i..j + 1][0] == h[i] && Monotone(h[i..j + 1])
    ensures Minutes(h[i..j + 1]) == (h[j].now - h[i].now) / FAILURE_WINDOW
  {
    assert h[i..j + 1][j - i] == h[j];
  }

  lemma {:induction false} StretchResults(s: AuthState, h: seq<Call>, i: nat, j: nat)
    requires i <= j <= |h|
    ensures Results(s, h)[i..j] == Results(Final(s, h[..i]), h[i..j])
  {
    assert h == h[..i] + h[i..] && h[i..] == h[i..j] + h[j..];
    RunSplit(s, h[..i], h[i..]);
    RunSplit(Final(s, h[..i]), h[i..j], h[j..]);
  }

  /** floor(span / 60s), by counting. */
  function WholeMinutes(span: int): nat
    decreases span
  {
    if span < FAILURE_WINDOW then 0 else 1 + WholeMinutes(span - FAILURE_WINDOW)
  }

  lemma {:induction false} MinutesCounted(span: nat)
    ensures WholeMinutes(span) == span / 60_000_000_000
  {
    if span >= FAILURE_WINDOW {
      MinutesCounted(span - FAILURE_WINDOW);
      assert (span - FAILURE_WINDOW) / FAILURE_WINDOW == span / FAILURE_WINDOW - 1;
    }
  }

  /** GuessBound, with the minutes counted. */
  lemma {:induction false} GuessBoundCounted(h: seq<Call>, i: nat, j: nat)
    requires Monotone(h) && i <= j < |h|
    ensures var rs := Results(FRESH, h)[i..j + 1];
            && Guesses(rs) <= 4 * WholeMinutes(h[j].now - h[i].now) + 5 + 4 * Successes(rs)
            && (AuthOK !in rs ==> Guesses(rs) <= 4 * WholeMinutes(h[j].now - h[i].now) + 5)
  {
    assert h[i].now <= h[j].now;
    MinutesCounted(h[j].now - h[i].now);
    GuessBound(h, i, j);
  }

  // ---------------------------------------------------------------- runs that reach the bound

  /** At time `now` there is no lockout and `n` recorded failures still count. */
  predicate OnRecord(s: AuthState, now: Instant, n: nat) {
    s.lockedUntil == 0 && |Unexpired(s.failures, now - FAILURE_WINDOW)| == n
  }

  /** No recorded failure is later than `t`. */
  ghost predicate Older(s: AuthState, t: int) {
    forall x :: x in s.failures ==> x <= t
  }

  lemma {:induction false} GuessRecorded(s: AuthState, now: Instant, n: nat)
    requires OnRecord(s, now, n)
    ensures CheckStep(s, now, false).1 == AuthBadCredentials
    ensures n < MAX_FAILURES_PER_WINDOW - 1 ==> OnRecord(CheckStep(s, now, false).0, now, n + 1)
    ensures n >= MAX_FAILURES_PER_WINDOW - 1 ==> CheckStep(s, now, false).0.lockedUntil == now + LOCKOUT_DURATION
  {
    var cut := now - FAILURE_WINDOW;
    var kept := Unexpired(s.failures + [now], cut);
    assert |kept| == n + 1 by {
      UnexpiredAppend(s.failures, [now], cut);
      assert Unexpired([now], cut) == [now];
    }
    assert Unexpired(kept, cut) == kept by {
      PruneTwice(s.failures + [now], cut, cut);
    }
  }

  lemma {:induction false} GuessOlder(s: AuthState, now: Instant)
    requires Older(s, now)
    ensures Older(CheckStep(s, now, false).0, now)
  {
    UnexpiredMembers(s.failures + [now], now - FAILURE_WINDOW);
  }

  /** The calls `h` from `s` make `g` guesses and `n` successes. */
  ghost predicate Scores(s: AuthState, h: seq<Call>, g: nat, n: nat) {
    Guesses(Results(s, h)) == g && Successes(Results(s, h)) == n
  }

  lemma {:induction false} NextScores(s: AuthState, c: Call, h: seq<Call>, g: nat, n: nat)
    requires Scores(CheckStep(s, c.now, c.matches).0, h, g, n)
    ensures var r := CheckStep(s, c.now, c.matches).1;
            Scores(s, [c] + h, g + (if r == AuthBadCredentials then 1 else 0), n + if r == AuthOK then 1 else 0)
  {
    assert ([c] + h)[1..] == h;
    CountNext(s, [c] + h, AuthBadCredentials);
    CountNext(s, [c] + h, AuthOK);
  }

  /** The calls are in time order, from `first` to `last`. */
  ghost predicate Spans(h: seq<Call>, first: Instant, last: Instant) {
    && h != [] && h[0].now == first && h[|h| - 1].now == last && Monotone(h)
    && forall i :: 0 <= i < |h| ==> first <= h[i].now <= last
  }

  lemma SpansCons(c: Call, h: seq<Call>, first: Instant, last: Instant)
    requires Spans(h, first, last) && c.now <= first
    ensures Spans([c] + h, c.now, last)
  {
    var g := [c] + h;
    forall i, j | 0 <= i < j < |g|
      ensures g[i].now <= g[j].now
    {
      assert g[j] == h[j - 1] && (i > 0 ==> g[i] == h[i - 1]);
    }
  }

  /** From `s`, a run from `first` to `last` with `g` guesses and `n` successes. */
  ghost predicate Reaches(s: AuthState, h: seq<Call>, first: Instant, last: Instant, g: nat, n: nat) {
    Spans(h, first, last) && Scores(s, h, g, n)
  }

  /** One more guess in front. */
  lemma {:induction false} GuessFirst(s: AuthState, now: Instant, k: nat, h: seq<Call>,
                                      first: Instant, last: Instant, g: nat, n: nat)
    returns (h': seq<Call>)
    requires OnRecord(s, now, k) && now <= first && Reaches(CheckStep(s, now, false).0, h, first, last, g, n)
    ensures Reaches(s, h', now, last, g + 1, n)
  {
    h' := [Call(now, false)] + h;
    GuessRecorded(s, now, k);
    NextScores(s, Call(now, false), h, g, n);
    SpansCons(Call(now, false), h, first, last);
  }

  lemma {:induction false} NextRecorded(s: AuthState, now: Instant, k: nat) returns (s': AuthState)
    requires OnRecord(s, now, k) && k < MAX_FAILURES_PER_WINDOW - 1 && Older(s, now)
    ensures s' == CheckStep(s, now, false).0 && OnRecord(s', now, k + 1) && Older(s', now)
  {
    GuessRecorded(s, now, k);
    GuessOlder(s, now);
    s' := CheckStep(s, now, false).0;
  }

  /** Failures a minute old no longer count. */
  lemma {:induction false} NoneOnRecord(s: AuthState, now: Instant)
    requires s.lockedUntil == 0 && Older(s, now - FAILURE_WINDOW)
    ensures OnRecord(s, now, 0) && Older(s, now)
  {
    UnexpiredExtremes(s.failures, now - FAILURE_WINDOW);
  }

  /** The fifth guess, and a call during the lockout it starts. */
  lemma {:induction false} LastGuess(s: AuthState, now: Instant, end: Instant) returns (h: seq<Call>)
    requires OnRecord(s, now, MAX_FAILURES_PER_WINDOW - 1) && now <= end < now + LOCKOUT_DURATION
    ensures Reaches(s, h, now, end, 1, 0)
  {
    GuessRecorded(s, now, MAX_FAILURES_PER_WINDOW - 1);
    var s', c := CheckStep(s, now, false).0, Call(end, false);
    assert Scores(CheckStep(s', end, false).0, [], 0, 0);
    NextScores(s', c, [], 0, 0);
    assert [c] + [] == [c];
    assert Spans([c], end, end);
    h := GuessFirst(s, now, MAX_FAILURES_PER_WINDOW - 1, [c], end, end, 0, 0);
  }

  /** From `k` guesses on record at `now`: the other ones up to four; then, a minute later, four more,
      and so on; in the last, begun minute a fifth; and a call at `end`. */
  lemma {:induction false} Attack(s: AuthState, now: Instant, end: Instant, k: nat, g: nat)
    returns (h: seq<Call>, first: Instant)
    requires now <= end && k < MAX_FAILURES_PER_WINDOW && OnRecord(s, now, k) && Older(s, now)
    requires g + k == 4 * WholeMinutes(end - now) + 5
    ensures Reaches(s, h, first, end, g, 0) && now <= first && (k < MAX_FAILURES_PER_WINDOW - 1 ==> first == now)
    decreases end - now, MAX_FAILURES_PER_WINDOW - k
  {
    if k < MAX_FAILURES_PER_WINDOW - 1 {
      var s' := NextRecorded(s, now, k);
      var h', first' := Attack(s', now, end, k + 1, g - 1);
      h := GuessFirst(s, now, k, h', first', end, g - 1, 0);
      first := now;
    } else if end < now + FAILURE_WINDOW {
      h := LastGuess(s, now, end);
      first := now;
    } else {
      NoneOnRecord(s, now + FAILURE_WINDOW);
      h, first := Attack(s, now + FAILURE_WINDOW, end, 0, g);
    }
  }

  lemma {:induction false} FourAndOne(s: AuthState, k: nat, h: seq<Call>, last: Instant, g: nat, n: nat)
    returns (h': seq<Call>)
    requires OnRecord(s, 0, k) && k < MAX_FAILURES_PER_WINDOW && Older(s, 0) && Reaches(FRESH, h, 0, last, g, n)
    ensures Reaches(s, h', 0, last, g + 4 - k, n + 1)
    decreases MAX_FAILURES_PER_WINDOW - k
  {
    if k < MAX_FAILURES_PER_WINDOW - 1 {
      var s' := NextRecorded(s, 0, k);
      h' := FourAndOne(s', k + 1, h, last, g, n);
      h' := GuessFirst(s, 0, k, h', 0, last, g + 4 - (k + 1), n + 1);
    } else {
      h' := [Call(0, true)] + h;
      NextScores(s, Call(0, true), h, g, n);
      SpansCons(Call(0, true), h, 0, last);
    }
  }

  /** `n` times four wrong passwords and the right one, all at time 0, and then `rest`. */
  lemma {:induction false} Alternate(n: nat, rest: seq<Call>, last: Instant, g: nat) returns (h: seq<Call>)
    requires Reaches(FRESH, rest, 0, last, g, 0)
    ensures Reaches(FRESH, h, 0, last, 4 * n + g, n)
  {
    h := rest;
    if n > 0 {
      h := Alternate(n - 1, rest, last, g);
      assert OnRecord(FRESH, 0, 0) && Older(FRESH, 0);
      h := FourAndOne(FRESH, 0, h, last, 4 * (n - 1) + g, n - 1);
    }
  }

  /** The bound of GuessBound is exact: for every length of time and every number of successes a run
      of a fresh authenticator reaches it. */
  lemma {:induction false} GuessBoundIsExact(n: nat, end: Instant) returns (h: seq<Call>)
    ensures Spans(h, 0, end) && Successes(Results(FRESH, h)) == n
    ensures Guesses(Results(FRESH, h)) == 4 * WholeMinutes(end) + 5 + 4 * n
    ensures WholeMinutes(end) == end / 60_000_000_000
  {
    assert OnRecord(FRESH, 0, 0) && Older(FRESH, 0);
    var first;
    h, first := Attack(FRESH, 0, end, 0, 4 * WholeMinutes(end) + 5);
    MinutesCounted(end);
    h := Alternate(n, h, end, 4 * WholeMinutes(end) + 5);
  }
}
