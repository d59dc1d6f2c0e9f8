/** The Lambda deployment as a whole: every execution environment has its own secretCache
    (deploy/aws-lambda/main.go), and several serve requests side by side. */
module LambdaFleet {
  import opened Text
  import opened Lambda

  /** The caches of the environments, and the one record. An environment that has not started yet has
      an empty cache. */
  datatype Fleet = Fleet(caches: seq<CacheState>, record: Option<string>)

  /** A request and the environment that it is routed to. */
  datatype Routed = Routed(env: nat, x: Exchange)

  predicate Cold(s: Fleet) {
    forall e :: 0 <= e < |s.caches| ==> s.caches[e] == CacheState("", 0)
  }

  predicate RoutedWithin(xs: seq<Routed>, n: nat) {
    forall i :: 0 <= i < |xs| ==> xs[i].env < n
  }

  function FleetStep(cfg: Config, ttl: nat, r: Routed, s: Fleet): Handled
    requires r.env < |s.caches|
  {
    HandleStep(cfg, ttl, r.x.req, r.x.hooks, HandlerState(s.caches[r.env], s.record))
  }

  function FleetAll(cfg: Config, ttl: nat, s: Fleet, xs: seq<Routed>): (s': Fleet)
    requires RoutedWithin(xs, |s.caches|)
    ensures |s'.caches| == |s.caches|
  {
    if xs == [] then s else
      var before, r := FleetAll(cfg, ttl, s, xs[..|xs| - 1]), xs[|xs| - 1];
      var h := FleetStep(cfg, ttl, r, before);
      Fleet(before.caches[r.env := h.state.cache], h.state.record)
  }

  /** The requests that environment `e` sees. */
  function Of(xs: seq<Routed>, e: nat): seq<Exchange> {
    if xs == [] then [] else
      Of(xs[..|xs| - 1], e) + if xs[|xs| - 1].env == e then [xs[|xs| - 1].x] else []
  }

  /** What the environment of request `m` has in its cache when the request arrives. */
  function CacheAt(cfg: Config, ttl: nat, s: Fleet, xs: seq<Routed>, m: nat): CacheState
    requires RoutedWithin(xs, |s.caches|) && m < |xs|
  {
    FleetAll(cfg, ttl, s, xs[..m]).caches[xs[m].env]
  }

  /** Request `m` presented the secret that its environment's get returned to it. */
  predicate AcceptedIn(cfg: Config, ttl: nat, s: Fleet, xs: seq<Routed>, m: nat)
    requires RoutedWithin(xs, |s.caches|) && m < |xs|
  {
    && AsksSecret(cfg, xs[m].x.req)
    && GetStep(CacheAt(cfg, ttl, s, xs, m), ttl, xs[m].x.hooks.fetch).1 == Ok(PasswordOf(cfg, xs[m].x))
  }

  /** When the get of request `m` returns. */
  function AnsweredAt(cfg: Config, ttl: nat, s: Fleet, xs: seq<Routed>, m: nat): Instant
    requires RoutedWithin(xs, |s.caches|) && m < |xs|
  {
    ReturnedAt(CacheAt(cfg, ttl, s, xs, m), ttl, xs[m].x.hooks.fetch)
  }

  // ---------------------------------------------------------------- an environment on its own

  /** Whatever the routing, each environment's cache is what its own requests make of it. */
  lemma {:induction false} EnvironmentAlone(cfg: Config, ttl: nat, s: Fleet, xs: seq<Routed>, e: nat, record: Option<string>)
    requires RoutedWithin(xs, |s.caches|) && e < |s.caches|
    ensures FleetAll(cfg, ttl, s, xs).caches[e] == HandleAll(cfg, ttl, HandlerState(s.caches[e], record), Of(xs, e)).cache
  {
    if xs != [] {
      var front, r := xs[..|xs| - 1], xs[|xs| - 1];
      EnvironmentAlone(cfg, ttl, s, front, e, record);
      if r.env == e {
        var own := Of(front, e);
        assert Of(xs, e)[..|own|] == own && Of(xs, e)[|own|] == r.x;
        StepCache(cfg, ttl, r.x.req, r.x.hooks, HandleAll(cfg, ttl, HandlerState(s.caches[e], record), own));
        StepCache(cfg, ttl, r.x.req, r.x.hooks, HandlerState(s.caches[e], record));
        CacheAlone(cfg, ttl, r, FleetAll(cfg, ttl, s, front), HandleAll(cfg, ttl, HandlerState(s.caches[e], record), own));
      } else {
        assert Of(xs, e) == Of(front, e);
      }
    }
  }

  lemma CacheAlone(cfg: Config, ttl: nat, r: Routed, s: Fleet, h: HandlerState)
    requires r.env < |s.caches| && s.caches[r.env] == h.cache
    ensures FleetStep(cfg, ttl, r, s).state.cache == HandleStep(cfg, ttl, r.x.req, r.x.hooks, h).state.cache
  {
    StepCache(cfg, ttl, r.x.req, r.x.hooks, h);
    StepCache(cfg, ttl, r.x.req, r.x.hooks, HandlerState(s.caches[r.env], s.record));
  }

  /** The place of request `m` among those of its environment. */
  lemma {:induction false} PlaceOf(xs: seq<Routed>, m: nat, e: nat)
    requires m < |xs| && xs[m].env == e
    ensures var own, k := Of(xs, e), |Of(xs[..m], e)|;
            k < |own| && own[k] == xs[m].x && own[..k] == Of(xs[..m], e)
  {
    if m < |xs| - 1 {
      var front := xs[..|xs| - 1];
      PlaceOf(front, m, e);
      assert front[..m] == xs[..m];
    }
  }

  lemma {:induction false} PlacesGrow(xs: seq<Routed>, n: nat, m: nat, e: nat)
    requires n < m <= |xs| && xs[n].env == e
    ensures |Of(xs[..n], e)| < |Of(xs[..m], e)|
  {
    assert xs[..m][n] == xs[n] && xs[..m][..n] == xs[..n];
    PlaceOf(xs[..m], n, e);
  }

  /** A request fares in the fleet as it does in its environment's own run. */
  lemma FaresAlone(cfg: Config, ttl: nat, s: Fleet, xs: seq<Routed>, m: nat, record: Option<string>)
    requires RoutedWithin(xs, |s.caches|) && m < |xs| && Cold(s)
    ensures var own, k := Of(xs, xs[m].env), |Of(xs[..m], xs[m].env)|;
            && k < |own| && own[k] == xs[m].x
            && CacheAt(cfg, ttl, s, xs, m) == HandleAll(cfg, ttl, HandlerState(CacheState("", 0), record), own[..k]).cache
            && (AcceptedIn(cfg, ttl, s, xs, m) <==> Accepted(cfg, ttl, HandlerState(CacheState("", 0), record), own, k))
  {
    PlaceOf(xs, m, xs[m].env);
    EnvironmentAlone(cfg, ttl, s, xs[..m], xs[m].env, record);
  }

  lemma OfNext(xs: seq<Routed>, n: nat, e: nat)
    requires n < |xs|
    ensures Of(xs[..n + 1], e) == Of(xs[..n], e) + if xs[n].env == e then [xs[n].x] else []
  {
    assert xs[..n + 1][..n] == xs[..n];
  }

  ghost predicate HonestRequests(param: Instant -> string, d: nat, xs: seq<Exchange>) {
    forall i :: 0 <= i < |xs| ==> Honest(param, d, xs[i].hooks.fetch)
  }

  ghost predicate HonestFetches(param: Instant -> string, d: nat, fs: seq<Fetch>) {
    forall i :: 0 <= i < |fs| ==> Honest(param, d, fs[i])
  }

  lemma {:induction false} OwnAreHonest(param: Instant -> string, d: nat, xs: seq<Routed>, n: nat, e: nat)
    requires n <= |xs| && forall i :: 0 <= i < |xs| ==> Honest(param, d, xs[i].x.hooks.fetch)
    ensures HonestRequests(param, d, Of(xs[..n], e))
  {
    if n > 0 {
      OwnAreHonest(param, d, xs, n - 1, e);
      OfNext(xs, n - 1, e);
      assert Honest(param, d, xs[n - 1].x.hooks.fetch);
    }
  }

  lemma EnvironmentHonest(cfg: Config, param: Instant -> string, d: nat, xs: seq<Routed>, e: nat)
    requires forall i :: 0 <= i < |xs| ==> Honest(param, d, xs[i].x.hooks.fetch)
    ensures HonestRequests(param, d, Of(xs, e)) && HonestFetches(param, d, Fetches(cfg, Of(xs, e)))
  {
    OwnAreHonest(param, d, xs, |xs|, e);
    assert xs[..|xs|] == xs;
    FetchesAreHonest(cfg, param, d, Of(xs, e));
  }

  /** In each environment one call of get follows another, and its clock does not go back; nothing is
      said of how the requests of different environments lie in time. */
  ghost predicate EachInOrder(cfg: Config, xs: seq<Routed>, n: nat) {
    forall e: nat :: e < n ==> InOrder(Fetches(cfg, Of(xs, e)))
  }

  ghost predicate Served(cfg: Config, param: Instant -> string, d: nat, ttl: nat, s: Fleet, xs: seq<Routed>) {
    && ttl > 0 && Cold(s) && RoutedWithin(xs, |s.caches|) && EachInOrder(cfg, xs, |s.caches|)
    && forall i :: 0 <= i < |xs| ==> Honest(param, d, xs[i].x.hooks.fetch)
  }

  /** Every UPSERT of a fleet was authorised by a password that was the parameter's value at a moment
      later than t - ttl - d, where t is when that request's get returned. */
  lemma FleetUpsertsAreAuthorised(cfg: Config, param: Instant -> string, d: nat, ttl: nat,
                                  s: Fleet, xs: seq<Routed>, m: nat)
    requires Served(cfg, param, d, ttl, s, xs) && m < |xs|
    requires FleetStep(cfg, ttl, xs[m], FleetAll(cfg, ttl, s, xs[..m])).called.Some?
    ensures AcceptedIn(cfg, ttl, s, xs, m)
    ensures FleetStep(cfg, ttl, xs[m], FleetAll(cfg, ttl, s, xs[..m])).called == Some(xs[m].x.req.sourceIP)
    ensures ValueWithin(param, PasswordOf(cfg, xs[m].x), AnsweredAt(cfg, ttl, s, xs, m), ttl + d)
  {
    var e := xs[m].env;
    var own, k, before := Of(xs, e), |Of(xs[..m], e)|, FleetAll(cfg, ttl, s, xs[..m]);
    StepGate(cfg, ttl, xs[m].x.req, xs[m].x.hooks, HandlerState(before.caches[e], before.record));
    FaresAlone(cfg, ttl, s, xs, m, None);
    EnvironmentHonest(cfg, param, d, xs, e);
    AcceptedReturned(cfg, ttl, None, own, k);
    FetchOfRequest(cfg, own, k);
    SecretsAreFresh(param, d, ttl, Fetches(cfg, own), |Fetches(cfg, own[..k])|);
  }

  /** The successful fetches of the first `n` environments. */
  function FetchedByAll(cfg: Config, ttl: nat, xs: seq<Routed>, n: nat): nat {
    if n == 0 then 0 else
      FetchedByAll(cfg, ttl, xs, n - 1) + |Fetched(CacheState("", 0), ttl, Fetches(cfg, Of(xs, n - 1)))|
  }

  ghost predicate DoneWithin(fs: seq<Fetch>, start: Instant, span: nat) {
    forall i :: 0 <= i < |fs| ==> start <= fs[i].doneAt <= start + span
  }

  lemma {:induction false} FetchedWithin(c: CacheState, ttl: nat, fs: seq<Fetch>, start: Instant, span: nat)
    requires DoneWithin(fs, start, span)
    ensures forall t :: t in Fetched(c, ttl, fs) ==> start <= t <= start + span
    decreases fs
  {
    if fs != [] {
      FetchedWithin(GetStep(c, ttl, fs[0]).0, ttl, fs[1..], start, span);
    }
  }

  predicate FetchesAtMost(cfg: Config, ttl: nat, xs: seq<Routed>, e: nat, q: nat) {
    |Fetched(CacheState("", 0), ttl, Fetches(cfg, Of(xs, e)))| <= q
  }

  lemma {:induction false} SumOfFetched(cfg: Config, ttl: nat, xs: seq<Routed>, n: nat, q: nat)
    requires forall e: nat :: e < n ==> FetchesAtMost(cfg, ttl, xs, e, q)
    ensures FetchedByAll(cfg, ttl, xs, n) <= n * q
  {
    if n > 0 {
      SumOfFetched(cfg, ttl, xs, n - 1, q);
      assert FetchesAtMost(cfg, ttl, xs, n - 1, q);
      assert n * q == (n - 1) * q + q;
    }
  }

  lemma EnvironmentFetches(cfg: Config, param: Instant -> string, d: nat, ttl: nat,
                           s: Fleet, xs: seq<Routed>, start: Instant, span: nat, e: nat)
    requires Served(cfg, param, d, ttl, s, xs) && e < |s.caches| && DoneWithin(Fetches(cfg, Of(xs, e)), start, span)
    ensures FetchesAtMost(cfg, ttl, xs, e, span / ttl + 1)
  {
    var fs := Fetches(cfg, Of(xs, e));
    EnvironmentHonest(cfg, param, d, xs, e);
    FetchedWithin(CacheState("", 0), ttl, fs, start, span);
    FetchedSpread(param, d, CacheState("", 0), ttl, fs);
    CountInSpan(Fetched(CacheState("", 0), ttl, fs), ttl, start, span);
  }

  /** The parameter store answers at most n * (floor(T / ttl) + 1) fetches in a span T, with n
      environments. */
  lemma FleetFetchBound(cfg: Config, param: Instant -> string, d: nat, ttl: nat,
                        s: Fleet, xs: seq<Routed>, start: Instant, span: nat)
    requires Served(cfg, param, d, ttl, s, xs)
    requires forall e: nat :: e < |s.caches| ==> DoneWithin(Fetches(cfg, Of(xs, e)), start, span)
    ensures FetchedByAll(cfg, ttl, xs, |s.caches|) <= |s.caches| * (span / ttl + 1)
  {
    var q := span / ttl + 1;
    forall e: nat | e < |s.caches|
      ensures FetchesAtMost(cfg, ttl, xs, e, q)
    {
      EnvironmentFetches(cfg, param, d, ttl, s, xs, start, span, e);
    }
    SumOfFetched(cfg, ttl, xs, |s.caches|, q);
  }

  lemma CountInSpan(ts: seq<Instant>, ttl: nat, start: Instant, span: nat)
    requires ttl > 0 && Spread(ts, ttl) && forall t :: t in ts ==> start <= t <= start + span
    ensures |ts| <= span / ttl + 1
  {
    if ts != [] {
      SpreadSpan(ts, ttl);
      assert ts[0] in ts && ts[|ts| - 1] in ts;
      QuotientBound(span, |ts| - 1, ttl);
    }
  }

  // ---------------------------------------------------------------- a rotation of the secret

  /** A rotation, seen from outside a fleet of any size: no environment accepts the old secret from
      `change` + ttl + d - 1 on (BothSecretsWork shows that it may one moment before), and none does
      after it has itself accepted another one. */
  lemma {:induction false} FleetRotates(cfg: Config, param: Instant -> string, previous: string, change: Instant,
                                        d: nat, ttl: nat, s: Fleet, xs: seq<Routed>, m: nat)
    requires Rotates(param, previous, change) && Served(cfg, param, d, ttl, s, xs) && m < |xs|
    requires AcceptedIn(cfg, ttl, s, xs, m) && PasswordOf(cfg, xs[m].x) == previous
    ensures AnsweredAt(cfg, ttl, s, xs, m) < change + ttl + d - 1
    ensures forall n :: 0 <= n < m && xs[n].env == xs[m].env && AcceptedIn(cfg, ttl, s, xs, n) ==>
              PasswordOf(cfg, xs[n].x) == previous
  {
    var e := xs[m].env;
    var own, k := Of(xs, e), |Of(xs[..m], e)|;
    FaresAlone(cfg, ttl, s, xs, m, None);
    EnvironmentHonest(cfg, param, d, xs, e);
    RotationCompletes(cfg, param, previous, change, d, ttl, None, own, k);
    forall n | 0 <= n < m && xs[n].env == e && AcceptedIn(cfg, ttl, s, xs, n)
      ensures PasswordOf(cfg, xs[n].x) == previous
    {
      FaresAlone(cfg, ttl, s, xs, n, None);
      PlacesGrow(xs, n, m, e);
    }
  }

  /** A request at time `t` that finds the parameter store failing, should it ask it. */
  function Asking(req: Request, t: Instant): Exchange {
    Exchange(req, Hooks(Fetch(t, Err(""), t, t), PutOk))
  }

  /** A request whose get, on a miss, takes from `t` to `done` and reads `v` at `t`. */
  function Fetching(req: Request, t: Instant, v: string, done: Instant): Exchange {
    Exchange(req, Hooks(Fetch(t, Ok(v), t, done), PutOk))
  }

  /** The environment holds the old secret, and would still use it at time `t`. */
  predicate Holds(c: CacheState, previous: string, ttl: nat, t: Instant) {
    c.value == previous && t - c.fetchedAt < ttl
  }

  predicate Over(s: Fleet, previous: string, ttl: nat, t: Instant) {
    forall e :: 0 <= e < |s.caches| ==> !Holds(s.caches[e], previous, ttl, t)
  }

  /** Requests from `t` on. */
  ghost predicate From(param: Instant -> string, d: nat, t: Instant, n: nat, xs: seq<Routed>) {
    && RoutedWithin(xs, n)
    && forall i :: 0 <= i < |xs| ==> Honest(param, d, xs[i].x.hooks.fetch) && t <= xs[i].x.hooks.fetch.checkedAt
  }

  predicate OldAccepted(cfg: Config, previous: string, ttl: nat, s: Fleet, xs: seq<Routed>, m: nat)
    requires RoutedWithin(xs, |s.caches|) && m < |xs|
  {
    AcceptedIn(cfg, ttl, s, xs, m) && PasswordOf(cfg, xs[m].x) == previous
  }

  /** No request of any run from `t` on is accepted with the old secret. */
  ghost predicate NeverAgain(cfg: Config, param: Instant -> string, previous: string, d: nat, ttl: nat,
                             s: Fleet, t: Instant)
  {
    forall xs: seq<Routed>, m: nat :: From(param, d, t, |s.caches|, xs) && m < |xs| ==>
      !OldAccepted(cfg, previous, ttl, s, xs, m)
  }

  lemma {:induction false} OverStays(cfg: Config, param: Instant -> string, previous: string, change: Instant,
                                     d: nat, ttl: nat, s: Fleet, t: Instant, xs: seq<Routed>)
    requires Rotates(param, previous, change) && t >= change && Over(s, previous, ttl, t)
    requires From(param, d, t, |s.caches|, xs)
    ensures Over(FleetAll(cfg, ttl, s, xs), previous, ttl, t)
  {
    if xs != [] {
      var front, r := xs[..|xs| - 1], xs[|xs| - 1];
      assert From(param, d, t, |s.caches|, front);
      OverStays(cfg, param, previous, change, d, ttl, s, t, front);
      var before := FleetAll(cfg, ttl, s, front);
      StepCache(cfg, ttl, r.x.req, r.x.hooks, HandlerState(before.caches[r.env], before.record));
      assert !Holds(before.caches[r.env], previous, ttl, t);
      assert Honest(param, d, r.x.hooks.fetch);
    }
  }

  /** From `t` on, after the change, the old secret is never accepted again, anywhere, if and only if
      at `t` no environment holds it in an entry that has not expired. */
  lemma OldIsOverIff(cfg: Config, param: Instant -> string, previous: string, change: Instant, d: nat, ttl: nat,
                     s: Fleet, t: Instant, req: Request)
    requires Rotates(param, previous, change) && t >= change && previous != ""
    requires AsksSecret(cfg, req) && ParseBasicAuth(cfg, req.headers).value.1 == previous
    ensures NeverAgain(cfg, param, previous, d, ttl, s, t) <==> Over(s, previous, ttl, t)
  {
    if Over(s, previous, ttl, t) {
      forall xs: seq<Routed>, m: nat | From(param, d, t, |s.caches|, xs) && m < |xs|
        ensures !OldAccepted(cfg, previous, ttl, s, xs, m)
      {
        assert From(param, d, t, |s.caches|, xs[..m]);
        OverStays(cfg, param, previous, change, d, ttl, s, t, xs[..m]);
        assert !Holds(CacheAt(cfg, ttl, s, xs, m), previous, ttl, t);
        assert Honest(param, d, xs[m].x.hooks.fetch);
      }
    } else {
      var e: nat :| e < |s.caches| && Holds(s.caches[e], previous, ttl, t);
      var xs := [Routed(e, Asking(req, t))];
      assert xs[..0] == [];
      assert From(param, d, t, |s.caches|, xs) && OldAccepted(cfg, previous, ttl, s, xs, 0);
    }
  }

  /** An environment that has accepted another secret no longer holds the old one. */
  lemma MovedOn(cfg: Config, param: Instant -> string, previous: string, change: Instant, d: nat, ttl: nat,
                s: Fleet, xs: seq<Routed>, n: nat)
    requires Rotates(param, previous, change) && Served(cfg, param, d, ttl, s, xs) && n < |xs|
    requires AcceptedIn(cfg, ttl, s, xs, n) && PasswordOf(cfg, xs[n].x) != previous
    ensures FleetAll(cfg, ttl, s, xs).caches[xs[n].env].value != previous
  {
    var e := xs[n].env;
    var own, k, fs := Of(xs, e), |Of(xs[..n], e)|, Fetches(cfg, Of(xs, e));
    FaresAlone(cfg, ttl, s, xs, n, None);
    AcceptedReturned(cfg, ttl, None, own, k);
    EnvironmentHonest(cfg, param, d, xs, e);
    RenewedToTheEnd(param, previous, change, d, ttl, fs, |Fetches(cfg, own[..k])|, PasswordOf(cfg, xs[n].x));
    EnvironmentAlone(cfg, ttl, s, xs, e, None);
    CacheFollowsFetches(cfg, ttl, HandlerState(CacheState("", 0), None), own);
  }

  lemma RenewedToTheEnd(param: Instant -> string, previous: string, change: Instant, d: nat, ttl: nat,
                        fs: seq<Fetch>, n: nat, v: string)
    requires Rotates(param, previous, change) && ttl > 0 && InOrder(fs) && n < |fs|
    requires forall i :: 0 <= i < |fs| ==> Honest(param, d, fs[i])
    requires Returned(ttl, fs, n, v) && v != previous
    ensures Renewed(param, previous, change, StateAfter(CacheState("", 0), ttl, fs))
  {
    NewRenews(param, previous, change, d, ttl, fs, n, v);
    CacheStaysHonest(param, d, ttl, fs, n + 1);
    RenewedStays(param, previous, change, d, ttl, fs, n + 1, |fs|);
    assert fs[..|fs|] == fs;
  }

  /** Environment `e` has accepted another secret than the old one. */
  ghost predicate HasMovedOn(cfg: Config, previous: string, ttl: nat, s: Fleet, xs: seq<Routed>, e: nat)
    requires RoutedWithin(xs, |s.caches|)
  {
    exists n: nat :: n < |xs| && xs[n].env == e && AcceptedIn(cfg, ttl, s, xs, n) && PasswordOf(cfg, xs[n].x) != previous
  }

  /** That is so once every environment has accepted another secret: for a single one, from the first
      such request on. */
  lemma OverWhenAllMovedOn(cfg: Config, param: Instant -> string, previous: string, change: Instant, d: nat, ttl: nat,
                           s: Fleet, xs: seq<Routed>, t: Instant)
    requires Rotates(param, previous, change) && Served(cfg, param, d, ttl, s, xs)
    requires forall e: nat :: e < |s.caches| ==> HasMovedOn(cfg, previous, ttl, s, xs, e)
    ensures Over(FleetAll(cfg, ttl, s, xs), previous, ttl, t)
  {
    forall e: nat | e < |s.caches|
      ensures FleetAll(cfg, ttl, s, xs).caches[e].value != previous
    {
      assert HasMovedOn(cfg, previous, ttl, s, xs, e);
      var n: nat :| n < |xs| && xs[n].env == e && AcceptedIn(cfg, ttl, s, xs, n) && PasswordOf(cfg, xs[n].x) != previous;
      MovedOn(cfg, param, previous, change, d, ttl, s, xs, n);
    }
  }

  /** With any number it is so at `change` + ttl + d - 1, whatever was asked before. */
  lemma {:induction false} OverInTime(cfg: Config, param: Instant -> string, previous: string, change: Instant, d: nat,
                                      ttl: nat, s: Fleet, xs: seq<Routed>, t: Instant)
    requires Rotates(param, previous, change) && Served(cfg, param, d, ttl, s, xs)
    requires t >= change + ttl + d - 1 && previous != ""
    ensures Over(FleetAll(cfg, ttl, s, xs), previous, ttl, t)
  {
    forall e | 0 <= e < |s.caches|
      ensures !Holds(FleetAll(cfg, ttl, s, xs).caches[e], previous, ttl, t)
    {
      var fs := Fetches(cfg, Of(xs, e));
      EnvironmentAlone(cfg, ttl, s, xs, e, None);
      CacheFollowsFetches(cfg, ttl, HandlerState(CacheState("", 0), None), Of(xs, e));
      EnvironmentHonest(cfg, param, d, xs, e);
      CacheStaysHonest(param, d, ttl, fs, |fs|);
      assert fs[..|fs|] == fs;
    }
  }

  lemma NextFills(cfg: Config, ttl: nat, s: Fleet, xs: seq<Routed>, n: nat,
                  req: Request, t: Instant, v: string, done: Instant)
    requires RoutedWithin(xs, |s.caches|) && n < |xs| && xs[n].x == Fetching(req, t, v, done) && AsksSecret(cfg, req)
    requires CacheAt(cfg, ttl, s, xs, n) == CacheState("", 0)
    ensures FleetAll(cfg, ttl, s, xs[..n + 1]).caches ==
            FleetAll(cfg, ttl, s, xs[..n]).caches[xs[n].env := CacheState(v, done)]
  {
    assert xs[..n + 1][..n] == xs[..n];
    StepCache(cfg, ttl, req, xs[n].x.hooks,
              HandlerState(CacheAt(cfg, ttl, s, xs, n), FleetAll(cfg, ttl, s, xs[..n]).record));
  }

  lemma NextHits(cfg: Config, ttl: nat, s: Fleet, xs: seq<Routed>, n: nat)
    requires RoutedWithin(xs, |s.caches|) && n < |xs| && AsksSecret(cfg, xs[n].x.req)
    requires Hit(CacheAt(cfg, ttl, s, xs, n), ttl, xs[n].x.hooks.fetch)
    ensures FleetAll(cfg, ttl, s, xs[..n + 1]).caches == FleetAll(cfg, ttl, s, xs[..n]).caches
  {
    assert xs[..n + 1][..n] == xs[..n];
    StepCache(cfg, ttl, xs[n].x.req, xs[n].x.hooks,
              HandlerState(CacheAt(cfg, ttl, s, xs, n), FleetAll(cfg, ttl, s, xs[..n]).record));
  }

  /** The first environment reads the old secret just before the change, the second one the new
      secret at the change; then a request with the old one comes to the first, at time `t`, and one
      with the new one to the second. */
  predicate SideBySide(xs: seq<Routed>, previous: string, next: string, change: nat, d: nat,
                       withOld: Request, withNew: Request, t: Instant)
    requires change > 0
  {
    && |xs| == 4
    && xs[0] == Routed(0, Fetching(withOld, change - 1, previous, change - 1 + d))
    && xs[1] == Routed(1, Fetching(withNew, change, next, change + d))
    && xs[2] == Routed(0, Asking(withOld, t)) && xs[3] == Routed(1, Asking(withNew, t))
  }

  /** Two environments that have not started. */
  predicate TwoCold(s: Fleet) {
    Cold(s) && |s.caches| == 2
  }

  lemma SideCaches(cfg: Config, previous: string, next: string, change: nat, d: nat, ttl: nat,
                   s: Fleet, withOld: Request, withNew: Request, t: Instant, xs: seq<Routed>)
    requires TwoCold(s)
    requires change > 0 && previous != "" && next != "" && AsksSecret(cfg, withOld) && AsksSecret(cfg, withNew)
    requires t <= change + ttl + d - 2 && SideBySide(xs, previous, next, change, d, withOld, withNew, t)
    ensures CacheAt(cfg, ttl, s, xs, 0) == CacheAt(cfg, ttl, s, xs, 1) == CacheState("", 0)
    ensures CacheAt(cfg, ttl, s, xs, 2) == CacheState(previous, change - 1 + d)
    ensures CacheAt(cfg, ttl, s, xs, 3) == CacheState(next, change + d)
  {
    assert FleetAll(cfg, ttl, s, xs[..0]) == s;
    NextFills(cfg, ttl, s, xs, 0, withOld, change - 1, previous, change - 1 + d);
    NextFills(cfg, ttl, s, xs, 1, withNew, change, next, change + d);
    NextHits(cfg, ttl, s, xs, 2);
  }

  /** With two environments both secrets work side by side, for nearly ttl: all four requests are
      accepted, at whatever moment `t` the last two come, up to the last one that FleetRotates leaves. */
  lemma BothSecretsWork(cfg: Config, previous: string, next: string, change: nat, d: nat, ttl: nat,
                        s: Fleet, withOld: Request, withNew: Request, t: Instant, xs: seq<Routed>)
    requires TwoCold(s)
    requires change > 0 && previous != "" && next != "" && AsksSecret(cfg, withOld) && AsksSecret(cfg, withNew)
    requires ParseBasicAuth(cfg, withOld.headers).value.1 == previous && ParseBasicAuth(cfg, withNew.headers).value.1 == next
    requires change + d <= t <= change + ttl + d - 2 && SideBySide(xs, previous, next, change, d, withOld, withNew, t)
    ensures AcceptedIn(cfg, ttl, s, xs, 0) && AcceptedIn(cfg, ttl, s, xs, 1)
    ensures AcceptedIn(cfg, ttl, s, xs, 2) && AnsweredAt(cfg, ttl, s, xs, 2) == t
    ensures AcceptedIn(cfg, ttl, s, xs, 3) && AnsweredAt(cfg, ttl, s, xs, 3) == t
  {
    SideCaches(cfg, previous, next, change, d, ttl, s, withOld, withNew, t, xs);
    FirstAccepted(cfg, previous, next, change, d, ttl, s, withOld, withNew, t, xs);
    LastOldAccepted(cfg, previous, next, change, d, ttl, s, withOld, withNew, t, xs);
    LastNewAccepted(cfg, previous, next, change, d, ttl, s, withOld, withNew, t, xs);
  }

  lemma FirstAccepted(cfg: Config, previous: string, next: string, change: nat, d: nat, ttl: nat,
                      s: Fleet, withOld: Request, withNew: Request, t: Instant, xs: seq<Routed>)
    requires TwoCold(s)
    requires change > 0 && AsksSecret(cfg, withOld) && AsksSecret(cfg, withNew)
    requires ParseBasicAuth(cfg, withOld.headers).value.1 == previous && ParseBasicAuth(cfg, withNew.headers).value.1 == next
    requires SideBySide(xs, previous, next, change, d, withOld, withNew, t)
    requires CacheAt(cfg, ttl, s, xs, 0) == CacheAt(cfg, ttl, s, xs, 1) == CacheState("", 0)
    ensures AcceptedIn(cfg, ttl, s, xs, 0) && AcceptedIn(cfg, ttl, s, xs, 1)
  {
    FetchingAccepted(cfg, ttl, s, xs, 0, withOld, change - 1, previous, change - 1 + d);
    FetchingAccepted(cfg, ttl, s, xs, 1, withNew, change, next, change + d);
  }

  lemma LastOldAccepted(cfg: Config, previous: string, next: string, change: nat, d: nat, ttl: nat,
                        s: Fleet, withOld: Request, withNew: Request, t: Instant, xs: seq<Routed>)
    requires TwoCold(s)
    requires change > 0 && previous != "" && next != "" && AsksSecret(cfg, withOld) && AsksSecret(cfg, withNew)
    requires ParseBasicAuth(cfg, withOld.headers).value.1 == previous && ParseBasicAuth(cfg, withNew.headers).value.1 == next
    requires t <= change + ttl + d - 2 && SideBySide(xs, previous, next, change, d, withOld, withNew, t)
    requires CacheAt(cfg, ttl, s, xs, 2) == CacheState(previous, change - 1 + d)
    ensures AcceptedIn(cfg, ttl, s, xs, 2) && AnsweredAt(cfg, ttl, s, xs, 2) == t
  {
    AskingAccepted(cfg, ttl, s, xs, 2, withOld, t, CacheState(previous, change - 1 + d));
  }

  lemma LastNewAccepted(cfg: Config, previous: string, next: string, change: nat, d: nat, ttl: nat,
                        s: Fleet, withOld: Request, withNew: Request, t: Instant, xs: seq<Routed>)
    requires TwoCold(s)
    requires change > 0 && previous != "" && next != "" && AsksSecret(cfg, withOld) && AsksSecret(cfg, withNew)
    requires ParseBasicAuth(cfg, withOld.headers).value.1 == previous && ParseBasicAuth(cfg, withNew.headers).value.1 == next
    requires t <= change + ttl + d - 2 && SideBySide(xs, previous, next, change, d, withOld, withNew, t)
    requires CacheAt(cfg, ttl, s, xs, 3) == CacheState(next, change + d)
    ensures AcceptedIn(cfg, ttl, s, xs, 3) && AnsweredAt(cfg, ttl, s, xs, 3) == t
  {
    AskingAccepted(cfg, ttl, s, xs, 3, withNew, t, CacheState(next, change + d));
  }

  lemma FetchingAccepted(cfg: Config, ttl: nat, s: Fleet, xs: seq<Routed>, n: nat,
                         req: Request, t: Instant, v: string, done: Instant)
    requires RoutedWithin(xs, |s.caches|) && n < |xs| && xs[n].x == Fetching(req, t, v, done) && AsksSecret(cfg, req)
    requires CacheAt(cfg, ttl, s, xs, n) == CacheState("", 0) && ParseBasicAuth(cfg, req.headers).value.1 == v
    ensures AcceptedIn(cfg, ttl, s, xs, n)
  {
  }

  lemma AskingAccepted(cfg: Config, ttl: nat, s: Fleet, xs: seq<Routed>, n: nat, req: Request, t: Instant,
                       c: CacheState)
    requires RoutedWithin(xs, |s.caches|) && n < |xs| && xs[n].x == Asking(req, t) && AsksSecret(cfg, req)
    requires CacheAt(cfg, ttl, s, xs, n) == c && c.value != "" && t - c.fetchedAt < ttl
    requires ParseBasicAuth(cfg, req.headers).value.1 == c.value
    ensures AcceptedIn(cfg, ttl, s, xs, n) && AnsweredAt(cfg, ttl, s, xs, n) == t
  {
  }

  /** That run is one of a fleet with honest fetches, whose parameter is `previous` before the change
      and `next` from then on. */
  lemma SideBySideIsServed(cfg: Config, param: Instant -> string, previous: string, next: string, change: nat, d: nat,
                           ttl: nat, s: Fleet, withOld: Request, withNew: Request, t: Instant, xs: seq<Routed>)
    requires TwoCold(s)
    requires forall u: Instant :: param(u) == if u < change then previous else next
    requires change > 0 && ttl > 0 && previous != "" && next != "" && previous != next && change + d <= t
    requires AsksSecret(cfg, withOld) && AsksSecret(cfg, withNew)
    requires SideBySide(xs, previous, next, change, d, withOld, withNew, t)
    ensures Rotates(param, previous, change) && Served(cfg, param, d, ttl, s, xs)
  {
    SideIsHonest(param, previous, next, change, d, withOld, withNew, t, xs);
    forall e: nat | e < 2
      ensures InOrder(Fetches(cfg, Of(xs, e)))
    {
      SideFetches(cfg, xs, e);
      TwoInOrder(xs[e].x.hooks.fetch, xs[e + 2].x.hooks.fetch);
    }
  }

  lemma TwoInOrder(f: Fetch, g: Fetch)
    requires f.checkedAt <= f.doneAt <= g.checkedAt <= g.doneAt
    ensures InOrder([f, g])
  {
  }

  lemma SideIsHonest(param: Instant -> string, previous: string, next: string, change: nat, d: nat,
                     withOld: Request, withNew: Request, t: Instant, xs: seq<Routed>)
    requires forall u: Instant :: param(u) == if u < change then previous else next
    requires change > 0 && previous != "" && next != ""
    requires SideBySide(xs, previous, next, change, d, withOld, withNew, t)
    ensures forall i :: 0 <= i < |xs| ==> Honest(param, d, xs[i].x.hooks.fetch)
  {
    forall i | 0 <= i < 4
      ensures Honest(param, d, xs[i].x.hooks.fetch)
    {
      assert i == 0 || i == 1 || i == 2 || i == 3;
    }
  }

  lemma SideFetches(cfg: Config, xs: seq<Routed>, e: nat)
    requires |xs| == 4 && e < 2 && xs[0].env == xs[2].env == 0 && xs[1].env == xs[3].env == 1
    requires AsksSecret(cfg, xs[e].x.req) && AsksSecret(cfg, xs[e + 2].x.req)
    ensures Fetches(cfg, Of(xs, e)) == [xs[e].x.hooks.fetch, xs[e + 2].x.hooks.fetch]
  {
    OfNext(xs, 0, e);
    OfNext(xs, 1, e);
    OfNext(xs, 2, e);
    OfNext(xs, 3, e);
    assert xs[..4] == xs && xs[..0] == [];
    assert Of(xs, e) == [xs[e].x, xs[e + 2].x];
    TwoFetches(cfg, xs[e].x, xs[e + 2].x);
  }

  lemma TwoFetches(cfg: Config, x: Exchange, y: Exchange)
    requires AsksSecret(cfg, x.req) && AsksSecret(cfg, y.req)
    ensures Fetches(cfg, [x, y]) == [x.hooks.fetch, y.hooks.fetch]
  {
    assert [x, y][..1] == [x] && [x][..0] == [];
    assert Fetches(cfg, [x]) == [x.hooks.fetch];
  }
}
