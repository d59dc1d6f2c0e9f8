/** The Lambda deployment's handler and its cached shared secret (deploy/aws-lambda/handler.go). */
module Lambda {
  import opened Text

  // ---------------------------------------------------------------- the secret cache

  datatype CacheState = CacheState(value: string, fetchedAt: Instant)

  /** One call of get: the clock when it checks, and, should it fetch, the reply of SSM, the moment
      SSM read the parameter, and the clock after the fetch. */
  datatype Fetch = Fetch(checkedAt: Instant, reply: Result<string>, readAt: Instant, doneAt: Instant)

  predicate Hit(c: CacheState, ttl: nat, f: Fetch) {
    c.value != "" && f.checkedAt - c.fetchedAt < ttl
  }

  function GetStep(c: CacheState, ttl: nat, f: Fetch): (CacheState, Result<string>) {
    if Hit(c, ttl, f) then (c, Ok(c.value))
    else if f.reply.Err? then (c, Err(f.reply.error))
    else (CacheState(f.reply.value, f.doneAt), f.reply)
  }

  /** When get returns. */
  function ReturnedAt(c: CacheState, ttl: nat, f: Fetch): Instant {
    if Hit(c, ttl, f) then f.checkedAt else f.doneAt
  }

  class SecretCache {
    const ttl: nat
    var value: string
    var fetchedAt: Instant

    ghost function State(): CacheState
      reads this
    {
      CacheState(value, fetchedAt)
    }

    constructor (ttl: nat)
      ensures this.ttl == ttl && State() == CacheState("", 0)
    {
      this.ttl, value, fetchedAt := ttl, "", 0;
    }

    method Get(f: Fetch) returns (r: Result<string>)
      modifies this
      ensures (State(), r) == GetStep(old(State()), ttl, f)
    {
      if value != "" && f.checkedAt - fetchedAt < ttl {
        return Ok(value);
      }
      if f.reply.Err? {
        return Err(f.reply.error);
      }
      value := f.reply.value;
      fetchedAt := f.doneAt;
      r := Ok(f.reply.value);
    }
  }

  /** SSM answers with the parameter's value at some moment of the fetch, never the empty string,
      and a fetch takes at most `d`. */
  ghost predicate Honest(param: Instant -> string, d: nat, f: Fetch) {
    && f.checkedAt <= f.readAt <= f.doneAt <= f.checkedAt + d
    && (f.reply.Ok? ==> f.reply.value == param(f.readAt) && f.reply.value != "")
  }

  /** The calls are serialised by the mutex and the clock does not go back. */
  ghost predicate InOrder(fs: seq<Fetch>) {
    && (forall i :: 0 <= i < |fs| ==> fs[i].checkedAt <= fs[i].doneAt)
    && forall i, j :: 0 <= i < j < |fs| ==> fs[i].doneAt <= fs[j].checkedAt
  }

  /** `v` was the parameter's value at a moment after `t - age` and not after `t`. */
  ghost predicate ValueWithin(param: Instant -> string, v: string, t: Instant, age: nat) {
    exists u: Instant :: t - age < u <= t && v == param(u)
  }

  ghost predicate CacheHonest(param: Instant -> string, d: nat, c: CacheState) {
    c.value != "" ==> exists u: Instant :: c.fetchedAt - d <= u <= c.fetchedAt && c.value == param(u)
  }

  function StateAfter(c: CacheState, ttl: nat, fs: seq<Fetch>): CacheState {
    if fs == [] then c else GetStep(StateAfter(c, ttl, fs[..|fs| - 1]), ttl, fs[|fs| - 1]).0
  }

  lemma GetIsFresh(param: Instant -> string, d: nat, ttl: nat, c: CacheState, f: Fetch)
    requires ttl > 0 && CacheHonest(param, d, c) && Honest(param, d, f) && c.fetchedAt <= f.checkedAt
    ensures var (c', r) := GetStep(c, ttl, f);
            && CacheHonest(param, d, c') && c'.fetchedAt <= f.doneAt
            && (r.Ok? ==> r.value != "" && ValueWithin(param, r.value, ReturnedAt(c, ttl, f), ttl + d))
  {
    if Hit(c, ttl, f) {
      var u: Instant :| c.fetchedAt - d <= u <= c.fetchedAt && c.value == param(u);
      assert f.checkedAt - (ttl + d) < u <= f.checkedAt;
    } else if f.reply.Ok? {
      var u := f.readAt;
      assert f.doneAt - (ttl + d) < u <= f.doneAt && f.doneAt - d <= u && f.reply.value == param(u);
    }
  }

  lemma {:induction false} CacheStaysHonest(param: Instant -> string, d: nat, ttl: nat, fs: seq<Fetch>, n: nat)
    requires ttl > 0 && InOrder(fs) && n <= |fs| && forall i :: 0 <= i < |fs| ==> Honest(param, d, fs[i])
    ensures var c := StateAfter(CacheState("", 0), ttl, fs[..n]);
            CacheHonest(param, d, c) && forall i :: n <= i < |fs| ==> c.fetchedAt <= fs[i].checkedAt
  {
    if n > 0 {
      CacheStaysHonest(param, d, ttl, fs, n - 1);
      assert fs[..n][..n - 1] == fs[..n - 1];
      GetIsFresh(param, d, ttl, StateAfter(CacheState("", 0), ttl, fs[..n - 1]), fs[n - 1]);
    }
  }

  /** Freshness: every secret returned at time t was the parameter's value later than t - ttl - d. */
  lemma SecretsAreFresh(param: Instant -> string, d: nat, ttl: nat, fs: seq<Fetch>, n: nat)
    requires ttl > 0 && InOrder(fs) && n < |fs| && forall i :: 0 <= i < |fs| ==> Honest(param, d, fs[i])
    ensures var c := StateAfter(CacheState("", 0), ttl, fs[..n]);
            GetStep(c, ttl, fs[n]).1.Ok? ==>
              ValueWithin(param, GetStep(c, ttl, fs[n]).1.value, ReturnedAt(c, ttl, fs[n]), ttl + d)
  {
    CacheStaysHonest(param, d, ttl, fs, n);
    GetIsFresh(param, d, ttl, StateAfter(CacheState("", 0), ttl, fs[..n]), fs[n]);
  }

  // ---------------------------------------------------------------- how often SSM is asked

  /** When the successful fetches of a run completed. */
  function Fetched(c: CacheState, ttl: nat, fs: seq<Fetch>): seq<Instant>
    decreases fs
  {
    if fs == [] then [] else
      (if !Hit(c, ttl, fs[0]) && fs[0].reply.Ok? then [fs[0].doneAt] else []) +
      Fetched(GetStep(c, ttl, fs[0]).0, ttl, fs[1..])
  }

  /** Each moment is at least ttl after the one before. */
  ghost predicate Spread(ts: seq<Instant>, ttl: nat) {
    forall i :: 0 < i < |ts| ==> ts[i] >= ts[i - 1] + ttl
  }

  lemma {:induction false} FetchedSpread(param: Instant -> string, d: nat, c: CacheState, ttl: nat, fs: seq<Fetch>)
    requires InOrder(fs) && forall i :: 0 <= i < |fs| ==> Honest(param, d, fs[i])
    ensures var ts := Fetched(c, ttl, fs);
            && (c.value != "" && ts != [] ==> ts[0] >= c.fetchedAt + ttl)
            && Spread(ts, ttl)
    decreases fs
  {
    if fs != [] {
      assert Honest(param, d, fs[0]);
      var c' := GetStep(c, ttl, fs[0]).0;
      var ts, later := Fetched(c, ttl, fs), Fetched(c', ttl, fs[1..]);
      FetchedSpread(param, d, c', ttl, fs[1..]);
      if !Hit(c, ttl, fs[0]) && fs[0].reply.Ok? {
        assert ts == [fs[0].doneAt] + later;
        forall i | 0 < i < |ts|
          ensures ts[i] >= ts[i - 1] + ttl
        {
          assert ts[i] == later[i - 1] && (i > 1 ==> ts[i - 1] == later[i - 2]);
        }
      } else {
        assert ts == later;
      }
    }
  }

  lemma {:induction false} SpreadSpan(ts: seq<Instant>, ttl: nat)
    requires ts != [] && Spread(ts, ttl)
    ensures ts[|ts| - 1] - ts[0] >= (|ts| - 1) * ttl
  {
    if |ts| > 1 {
      SpreadSpan(ts[..|ts| - 1], ttl);
      assert (|ts| - 1) * ttl == (|ts| - 2) * ttl + ttl;
    }
  }

  lemma ProductGrows(a: int, b: int, ttl: nat)
    requires a <= b
    ensures a * ttl <= b * ttl
  {
    assert (b - a) * ttl >= 0;
    assert b * ttl == a * ttl + (b - a) * ttl;
  }

  lemma QuotientBound(span: nat, n: nat, ttl: nat)
    requires ttl > 0 && span >= n * ttl
    ensures span / ttl >= n
  {
    var q := span / ttl;
    assert span == q * ttl + span % ttl;
    assert (q + 1) * ttl == q * ttl + ttl;
    if q < n {
      ProductGrows(q + 1, n, ttl);
    }
  }

  /** Successful fetches of one cache are at least ttl apart: at most floor(T / ttl) + 1 in a span T. */
  lemma FetchBound(param: Instant -> string, d: nat, c: CacheState, ttl: nat, fs: seq<Fetch>)
    requires ttl > 0 && InOrder(fs) && forall i :: 0 <= i < |fs| ==> Honest(param, d, fs[i])
    ensures var ts := Fetched(c, ttl, fs);
            && Spread(ts, ttl)
            && (ts != [] ==> |ts| <= (ts[|ts| - 1] - ts[0]) / ttl + 1)
  {
    var ts := Fetched(c, ttl, fs);
    FetchedSpread(param, d, c, ttl, fs);
    if ts != [] {
      SpreadSpan(ts, ttl);
      QuotientBound(ts[|ts| - 1] - ts[0], |ts| - 1, ttl);
    }
  }

  // ---------------------------------------------------------------- the handler

  /** `headers` lists the request's headers in the order the map iteration visits them. */
  datatype Request = Request(sourceIP: string, headers: seq<(string, string)>, hostname: string, dryRun: string)

  /** `decode` is base64.StdEncoding.DecodeString, `isIP` is net.ParseIP accepting a text. */
  datatype Config = Config(hostname: string, decode: string -> Option<string>, isIP: string -> bool)

  datatype Put = PutOk | PutErr(error: string, applied: bool)

  datatype Hooks = Hooks(fetch: Fetch, put: Put)

  function AuthHeader(headers: seq<(string, string)>): string {
    if headers == [] then ""
    else if EqualFold(headers[0].0, "Authorization") then headers[0].1
    else AuthHeader(headers[1..])
  }

  /** A header that matters. */
  predicate IsAuth(header: (string, string)) {
    EqualFold(header.0, "authorization")
  }

  predicate NoneIsAuth(headers: seq<(string, string)>) {
    forall i :: 0 <= i < |headers| ==> !IsAuth(headers[i])
  }

  predicate AtMostOneAuth(headers: seq<(string, string)>) {
    forall i, j :: 0 <= i < j < |headers| ==> !(IsAuth(headers[i]) && IsAuth(headers[j]))
  }

  lemma FoldedName(name: string)
    ensures EqualFold(name, "Authorization") <==> EqualFold(name, "authorization")
  {
    var upper, lower := "Authorization", "authorization";
    assert |upper| == |lower| == 13;
    assert upper[0] == 'A' && lower[0] == 'a' && upper[1..] == lower[1..];
    forall i | 0 <= i < 13
      ensures Lower(upper[i]) == Lower(lower[i])
    {
      assert i > 0 ==> upper[i] == upper[1..][i - 1] && lower[i] == lower[1..][i - 1];
    }
  }

  /** The header is found wherever it stands, whatever the case of its name. */
  lemma {:induction false} AuthHeaderFound(before: seq<(string, string)>, header: (string, string),
                                           after: seq<(string, string)>)
    requires NoneIsAuth(before) && IsAuth(header)
    ensures AuthHeader(before + [header] + after) == header.1
  {
    var all := before + [header] + after;
    if before == [] {
      FoldedName(header.0);
      assert all[0] == header;
    } else {
      assert all[0] == before[0] && all[1..] == before[1..] + [header] + after;
      FoldedName(before[0].0);
      AuthHeaderFound(before[1..], header, after);
    }
  }

  lemma {:induction false} AuthHeaderMissing(headers: seq<(string, string)>)
    requires NoneIsAuth(headers)
    ensures AuthHeader(headers) == ""
  {
    if headers != [] {
      FoldedName(headers[0].0);
      AuthHeaderMissing(headers[1..]);
    }
  }

  /** If one header at most is called "authorization", the order in which the map iteration visits the
      headers does not matter. */
  lemma HeaderOrderFree(cfg: Config, headers: seq<(string, string)>, others: seq<(string, string)>)
    requires multiset(headers) == multiset(others) && AtMostOneAuth(headers)
    ensures ParseBasicAuth(cfg, headers) == ParseBasicAuth(cfg, others)
  {
    SameMembers(headers, others);
    if NoneIsAuth(headers) {
      forall j | 0 <= j < |others|
        ensures !IsAuth(others[j])
      {
        assert others[j] in headers;
      }
      AuthHeaderMissing(headers);
      AuthHeaderMissing(others);
    } else {
      var i :| 0 <= i < |headers| && IsAuth(headers[i]);
      assert headers[i] in others;
      var j :| 0 <= j < |others| && others[j] == headers[i];
      AuthHeaderAt(headers, i);
      OneAuthAt(headers, others, i, j);
      AuthHeaderAt(others, j);
    }
  }

  lemma SameMembers(a: seq<(string, string)>, b: seq<(string, string)>)
    requires multiset(a) == multiset(b)
    ensures forall x :: x in a <==> x in b
  {
    forall x
      ensures x in a <==> x in b
    {
      assert x in a <==> x in multiset(a);
      assert x in b <==> x in multiset(b);
    }
  }

  lemma AuthHeaderAt(headers: seq<(string, string)>, i: nat)
    requires i < |headers| && IsAuth(headers[i]) && forall k :: 0 <= k < i ==> !IsAuth(headers[k])
    ensures AuthHeader(headers) == headers[i].1
  {
    AuthHeaderFound(headers[..i], headers[i], headers[i + 1..]);
    assert headers == headers[..i] + [headers[i]] + headers[i + 1..];
  }

  /** The only such header is the only one in any other order as well. */
  lemma OneAuthAt(headers: seq<(string, string)>, others: seq<(string, string)>, i: nat, j: nat)
    requires i < |headers| && j < |others| && others[j] == headers[i] && IsAuth(headers[i])
    requires multiset(headers) == multiset(others) && AtMostOneAuth(headers)
    ensures forall k :: 0 <= k < |others| && k != j ==> !IsAuth(others[k])
  {
    forall k | 0 <= k < |others| && k != j
      ensures !IsAuth(others[k])
    {
      if IsAuth(others[k]) {
        SameMembers(headers, others);
        assert others[k] in headers;
        var m :| 0 <= m < |headers| && headers[m] == others[k];
        assert m == i;
        TwiceIn(others, j, k);
        OnceIn(headers, i);
      }
    }
  }

  lemma TwiceIn(s: seq<(string, string)>, j: nat, k: nat)
    requires j < |s| && k < |s| && j != k && s[j] == s[k]
    ensures multiset(s)[s[j]] >= 2
  {
    var a, b := if j < k then j else k, if j < k then k else j;
    assert s == s[..a] + [s[a]] + s[a + 1..b] + [s[b]] + s[b + 1..];
  }

  lemma OnceIn(s: seq<(string, string)>, i: nat)
    requires i < |s| && forall k :: 0 <= k < |s| && k != i ==> s[k] != s[i]
    ensures multiset(s)[s[i]] == 1
  {
    assert s == s[..i] + [s[i]] + s[i + 1..];
    assert s[i] !in s[..i] && s[i] !in s[i + 1..];
    assert multiset(s) == multiset(s[..i]) + multiset{s[i]} + multiset(s[i + 1..]);
  }

  const BASIC := "Basic "

  function ParseBasicAuth(cfg: Config, headers: seq<(string, string)>): Option<(string, string)> {
    var raw := AuthHeader(headers);
    if !(BASIC <= raw) then None else
      var decoded := cfg.decode(raw[|BASIC|..]);
      if decoded.None? then None else Cut(decoded.value, ':')
  }

  /** A header that encodes "user:pass" is read back, colons in the password included, exactly when
      the user name has none, wherever the header stands and whatever the case of its name; without
      such a header there are no credentials. */
  lemma BasicAuthRoundTrip(cfg: Config, encoded: string, user: string, pass: string,
                           before: seq<(string, string)>, name: string, after: seq<(string, string)>)
    requires cfg.decode(encoded) == Some(user + ":" + pass) && NoneIsAuth(before) && EqualFold(name, "authorization")
    ensures ParseBasicAuth(cfg, before + [(name, "Basic " + encoded)] + after) == Some((user, pass)) <==> ':' !in user
    ensures ParseBasicAuth(cfg, before) == None
  {
    AuthHeaderFound(before, (name, BASIC + encoded), after);
    AuthHeaderMissing(before);
    assert (BASIC + encoded)[|BASIC|..] == encoded;
    if ':' !in user {
      CutAt(user, pass, ':');
    }
  }

  function LowerAll(s: string): string {
    seq(|s|, i requires 0 <= i < |s| => Lower(s[i]))
  }

  predicate IsDryRun(v: string) {
    LowerAll(TrimSpace(v)) in ["true", "1", "yes", "on"]
  }

  /** A dry run is asked for by one of four words, in any case, with any space around it. */
  lemma DryRunIff(v: string)
    ensures IsDryRun(v) <==>
              var w := TrimSpace(v); EqualFold(w, "true") || EqualFold(w, "1") || EqualFold(w, "yes") || EqualFold(w, "on")
  {
    FoldIsLower(TrimSpace(v), "true");
    FoldIsLower(TrimSpace(v), "1");
    FoldIsLower(TrimSpace(v), "yes");
    FoldIsLower(TrimSpace(v), "on");
  }

  lemma FoldIsLower(a: string, b: string)
    requires forall i :: 0 <= i < |b| ==> Lower(b[i]) == b[i]
    ensures LowerAll(a) == b <==> EqualFold(a, b)
  {
    if LowerAll(a) == b {
      forall i | 0 <= i < |a|
        ensures Lower(a[i]) == Lower(b[i])
      {
        assert LowerAll(a)[i] == b[i];
      }
    }
  }

  datatype HandlerState = HandlerState(cache: CacheState, record: Option<string>)

  /** A request answered: the state, the first line of the body, the address passed to UpdateIP. */
  datatype Handled = Handled(state: HandlerState, body: string, called: Option<string>)

  function HandleStep(cfg: Config, ttl: nat, req: Request, h: Hooks, s: HandlerState): Handled {
    if req.sourceIP == "" then Handled(s, "dnserr no source ip", None)
    else if !cfg.isIP(req.sourceIP) then Handled(s, "dnserr source ip unparseable", None)
    else
      var auth := ParseBasicAuth(cfg, req.headers);
      if auth.None? then Handled(s, "badauth", None) else
        var (cache', expected) := GetStep(s.cache, ttl, h.fetch);
        var s1 := s.(cache := cache');
        if expected.Err? then Handled(s1, "dnserr ssm", None)
        else if auth.value.1 != expected.value then Handled(s1, "badauth", None)
        else
          var hostname := TrimSpace(req.hostname);
          if hostname == "" then Handled(s1, "notfqdn", None)
          else if !EqualFold(hostname, cfg.hostname) then Handled(s1, "nohost", None)
          else if IsDryRun(req.dryRun) then Handled(s1, "good " + req.sourceIP + " (dry-run)", None)
          else
            match h.put
            case PutOk => Handled(s1.(record := Some(req.sourceIP)), "good " + req.sourceIP, Some(req.sourceIP))
            case PutErr(error, applied) =>
              Handled(if applied then s1.(record := Some(req.sourceIP)) else s1, "dnserr " + error, Some(req.sourceIP))
  }

  class LambdaHandler {
    const cfg: Config
    const cache: SecretCache
    var record: Option<string>

    ghost function State(): HandlerState
      reads this, cache
    {
      HandlerState(cache.State(), record)
    }

    constructor (cfg: Config, cache: SecretCache, record: Option<string>)
      ensures this.cfg == cfg && this.cache == cache && this.record == record
    {
      this.cfg, this.cache, this.record := cfg, cache, record;
    }

    method Handle(req: Request, h: Hooks) returns (body: string, called: Option<string>)
      modifies this, cache
      ensures Handled(State(), body, called) == HandleStep(cfg, cache.ttl, req, h, old(State()))
    {
      called := None;
      if req.sourceIP == "" {
        return "dnserr no source ip", called;
      }
      if !cfg.isIP(req.sourceIP) {
        return "dnserr source ip unparseable", called;
      }
      var auth := ParseBasicAuth(cfg, req.headers);
      if auth.None? {
        return "badauth", called;
      }
      var expected := cache.Get(h.fetch);
      if expected.Err? {
        return "dnserr ssm", called;
      }
      if auth.value.1 != expected.value {
        return "badauth", called;
      }
      var hostname := TrimSpace(req.hostname);
      if hostname == "" {
        return "notfqdn", called;
      }
      if !EqualFold(hostname, cfg.hostname) {
        return "nohost", called;
      }
      if IsDryRun(req.dryRun) {
        return "good " + req.sourceIP + " (dry-run)", called;
      }
      called := Some(req.sourceIP);
      match h.put
      case PutOk =>
        record := Some(req.sourceIP);
        body := "good " + req.sourceIP;
      case PutErr(error, applied) =>
        if applied {
          record := Some(req.sourceIP);
        }
        body := "dnserr " + error;
    }
  }

  /** The request presents the secret that get returns to it. */
  predicate LetIn(cfg: Config, ttl: nat, req: Request, h: Hooks, s: HandlerState) {
    AsksSecret(cfg, req) && GetStep(s.cache, ttl, h.fetch).1 == Ok(ParseBasicAuth(cfg, req.headers).value.1)
  }

  lemma BodiesDiffer(ip: string)
    ensures |"dnserr no source ip"| == 19 && |"dnserr source ip unparseable"| == 28 && |"dnserr ssm"| == 10
    ensures |"badauth"| == 7 && |"notfqdn"| == 7 && |"nohost"| == 6 && "badauth" != "notfqdn"
    ensures var dry := "good " + ip + " (dry-run)"; |dry| == |ip| + 15 && dry[0] == 'g'
  {
    assert "badauth"[0] != "notfqdn"[0];
  }

  /** The replies of the requests that do not get to UpdateIP, each exactly when. */
  lemma RefusalsIff(cfg: Config, ttl: nat, req: Request, h: Hooks, s: HandlerState)
    ensures var r, got := HandleStep(cfg, ttl, req, h, s), GetStep(s.cache, ttl, h.fetch).1;
            var isIn, name := LetIn(cfg, ttl, req, h, s), TrimSpace(req.hostname);
            r.called.None? ==>
              && (r.body == "dnserr no source ip" <==> req.sourceIP == "")
              && (r.body == "dnserr source ip unparseable" <==> req.sourceIP != "" && !cfg.isIP(req.sourceIP))
              && (r.body == "dnserr ssm" <==> AsksSecret(cfg, req) && got.Err?)
              && (r.body == "badauth" <==>
                   && req.sourceIP != "" && cfg.isIP(req.sourceIP)
                   && (ParseBasicAuth(cfg, req.headers).None? || (got.Ok? && !isIn)))
              && (r.body == "notfqdn" <==> isIn && name == "")
              && (r.body == "nohost" <==> isIn && name != "" && !EqualFold(name, cfg.hostname))
              && (r.body == "good " + req.sourceIP + " (dry-run)" <==>
                   isIn && name != "" && EqualFold(name, cfg.hostname) && IsDryRun(req.dryRun))
  {
    BodiesDiffer(req.sourceIP);
    assert "dnserr no source ip"[0] == 'd' && "dnserr source ip unparseable"[0] == 'd' && "dnserr ssm"[0] == 'd';
    assert "badauth"[0] == 'b' && "notfqdn"[0] == 'n' && "nohost"[0] == 'n';
  }

  // ---------------------------------------------------------------- whole runs

  datatype Exchange = Exchange(req: Request, hooks: Hooks)

  function HandleAll(cfg: Config, ttl: nat, s: HandlerState, xs: seq<Exchange>): HandlerState {
    if xs == [] then s else
      HandleStep(cfg, ttl, xs[|xs| - 1].req, xs[|xs| - 1].hooks, HandleAll(cfg, ttl, s, xs[..|xs| - 1])).state
  }

  function HandledAt(cfg: Config, ttl: nat, s: HandlerState, xs: seq<Exchange>, n: nat): Handled
    requires n < |xs|
  {
    HandleStep(cfg, ttl, xs[n].req, xs[n].hooks, HandleAll(cfg, ttl, s, xs[..n]))
  }

  /** The request asks for the secret. */
  predicate AsksSecret(cfg: Config, req: Request) {
    req.sourceIP != "" && cfg.isIP(req.sourceIP) && ParseBasicAuth(cfg, req.headers).Some?
  }

  /** The calls of get in a run. */
  function Fetches(cfg: Config, xs: seq<Exchange>): seq<Fetch> {
    if xs == [] then [] else
      Fetches(cfg, xs[..|xs| - 1]) + if AsksSecret(cfg, xs[|xs| - 1].req) then [xs[|xs| - 1].hooks.fetch] else []
  }

  lemma StepCache(cfg: Config, ttl: nat, req: Request, h: Hooks, s: HandlerState)
    ensures HandleStep(cfg, ttl, req, h, s).state.cache ==
              if AsksSecret(cfg, req) then GetStep(s.cache, ttl, h.fetch).0 else s.cache
  {
  }

  lemma {:induction false} OneMoreFetch(c: CacheState, ttl: nat, fs: seq<Fetch>, f: Fetch)
    ensures StateAfter(c, ttl, fs + [f]) == GetStep(StateAfter(c, ttl, fs), ttl, f).0
  {
    assert (fs + [f])[..|fs|] == fs;
  }

  lemma {:induction false} CacheFollowsFetches(cfg: Config, ttl: nat, s: HandlerState, xs: seq<Exchange>)
    ensures HandleAll(cfg, ttl, s, xs).cache == StateAfter(s.cache, ttl, Fetches(cfg, xs))
  {
    if xs != [] {
      var front, x := xs[..|xs| - 1], xs[|xs| - 1];
      CacheFollowsFetches(cfg, ttl, s, front);
      StepCache(cfg, ttl, x.req, x.hooks, HandleAll(cfg, ttl, s, front));
      if AsksSecret(cfg, x.req) {
        OneMoreFetch(s.cache, ttl, Fetches(cfg, front), x.hooks.fetch);
      } else {
        assert Fetches(cfg, front) + [] == Fetches(cfg, front);
      }
    }
  }

  /** UpdateIP is called, with the connection's own source address, exactly when the password is the
      secret that get returned, the host name matches, and the request is not a dry run; nothing
      else moves the record. */
  lemma StepGate(cfg: Config, ttl: nat, req: Request, h: Hooks, s: HandlerState)
    ensures var r := HandleStep(cfg, ttl, req, h, s);
            && (r.called.Some? <==>
                 && AsksSecret(cfg, req)
                 && GetStep(s.cache, ttl, h.fetch).1 == Ok(ParseBasicAuth(cfg, req.headers).value.1)
                 && TrimSpace(req.hostname) != "" && EqualFold(TrimSpace(req.hostname), cfg.hostname)
                 && !IsDryRun(req.dryRun))
            && (r.called.Some? ==> r.called.value == req.sourceIP)
            && (r.state.record != s.record ==> r.called.Some? && r.state.record == r.called)
            && (r.body == "good " + req.sourceIP <==> r.called.Some? && h.put.PutOk?)
            && (r.called.Some? && h.put.PutOk? ==> r.state.record == Some(req.sourceIP))
            && (r.called.Some? && h.put.PutErr? ==>
                 && r.body == "dnserr " + h.put.error
                 && r.state.record == if h.put.applied then Some(req.sourceIP) else s.record)
  {
    var good := "good " + req.sourceIP;
    assert good[0] == 'g' && |good + " (dry-run)"| > |good|;
    assert "dnserr no source ip"[0] == 'd' && "dnserr source ip unparseable"[0] == 'd' && "dnserr ssm"[0] == 'd';
    assert "badauth"[0] == 'b' && "notfqdn"[0] == 'n' && "nohost"[0] == 'n';
    if h.put.PutErr? {
      assert ("dnserr " + h.put.error)[0] == 'd';
    }
  }

  /** Every UPSERT of a run was authorised by a password that was the parameter's value at a moment
      later than t - ttl - d, where t is when that request's get returned. */
  lemma UpsertsAreAuthorised(cfg: Config, param: Instant -> string, d: nat, ttl: nat,
                             record: Option<string>, xs: seq<Exchange>, n: nat)
    requires ttl > 0 && n < |xs| && InOrder(Fetches(cfg, xs[..n + 1]))
    requires forall i :: 0 <= i <= n ==> Honest(param, d, xs[i].hooks.fetch)
    requires HandledAt(cfg, ttl, HandlerState(CacheState("", 0), record), xs, n).called.Some?
    ensures var before := HandleAll(cfg, ttl, HandlerState(CacheState("", 0), record), xs[..n]);
            && AsksSecret(cfg, xs[n].req)
            && HandledAt(cfg, ttl, HandlerState(CacheState("", 0), record), xs, n).called == Some(xs[n].req.sourceIP)
            && ValueWithin(param, ParseBasicAuth(cfg, xs[n].req.headers).value.1,
                           ReturnedAt(before.cache, ttl, xs[n].hooks.fetch), ttl + d)
  {
    var s0 := HandlerState(CacheState("", 0), record);
    StepGate(cfg, ttl, xs[n].req, xs[n].hooks, HandleAll(cfg, ttl, s0, xs[..n]));
    CacheFollowsFetches(cfg, ttl, s0, xs[..n]);
    assert xs[..n + 1][..n] == xs[..n];
    var fs := Fetches(cfg, xs[..n + 1]);
    FetchesAreHonest(cfg, param, d, xs[..n + 1]);
    assert fs[..|fs| - 1] == Fetches(cfg, xs[..n]);
    SecretsAreFresh(param, d, ttl, fs, |fs| - 1);
  }

  // ---------------------------------------------------------------- a rotation of the secret

  /** The parameter is `previous` before `change` and something else, possibly changing, from then on. */
  ghost predicate Rotates(param: Instant -> string, previous: string, change: Instant) {
    forall u: Instant :: param(u) == previous <==> u < change
  }

  /** Call `n` of get returned `v`. */
  predicate Returned(ttl: nat, fs: seq<Fetch>, n: nat, v: string)
    requires n < |fs|
  {
    GetStep(StateAfter(CacheState("", 0), ttl, fs[..n]), ttl, fs[n]).1 == Ok(v)
  }

  /** The cache holds a value read from the change on. */
  ghost predicate Renewed(param: Instant -> string, previous: string, change: Instant, c: CacheState) {
    c.value != "" && c.value != previous && c.fetchedAt >= change
  }

  lemma {:induction false} RenewedStays(param: Instant -> string, previous: string, change: Instant, d: nat, ttl: nat,
                                        fs: seq<Fetch>, n: nat, m: nat)
    requires Rotates(param, previous, change) && InOrder(fs) && n <= m <= |fs|
    requires forall i :: 0 <= i < |fs| ==> Honest(param, d, fs[i])
    requires Renewed(param, previous, change, StateAfter(CacheState("", 0), ttl, fs[..n]))
    requires forall i :: n <= i < |fs| ==> change <= fs[i].checkedAt
    ensures Renewed(param, previous, change, StateAfter(CacheState("", 0), ttl, fs[..m]))
  {
    if n < m {
      RenewedStays(param, previous, change, d, ttl, fs, n, m - 1);
      assert fs[..m][..m - 1] == fs[..m - 1];
      assert Honest(param, d, fs[m - 1]);
    }
  }

  lemma {:induction false} NewRenews(param: Instant -> string, previous: string, change: Instant, d: nat, ttl: nat,
                                     fs: seq<Fetch>, n: nat, v: string)
    requires Rotates(param, previous, change) && ttl > 0 && InOrder(fs) && n < |fs|
    requires forall i :: 0 <= i < |fs| ==> Honest(param, d, fs[i])
    requires Returned(ttl, fs, n, v) && v != previous
    ensures Renewed(param, previous, change, StateAfter(CacheState("", 0), ttl, fs[..n + 1]))
  {
    assert fs[..n + 1][..n] == fs[..n];
    CacheStaysHonest(param, d, ttl, fs, n);
    var c := StateAfter(CacheState("", 0), ttl, fs[..n]);
    assert Honest(param, d, fs[n]);
    if Hit(c, ttl, fs[n]) {
      var u: Instant :| c.fetchedAt - d <= u <= c.fetchedAt && c.value == param(u);
    }
  }

  /** A rotation, seen from get: the old value is not returned from `change` + ttl + d - 1 on, and once
      another value has been returned the old one never is again. */
  lemma {:induction false} RotationAtGet(param: Instant -> string, previous: string, change: Instant, d: nat, ttl: nat,
                                         fs: seq<Fetch>, m: nat)
    requires Rotates(param, previous, change) && ttl > 0 && InOrder(fs) && m < |fs|
    requires forall i :: 0 <= i < |fs| ==> Honest(param, d, fs[i])
    ensures ReturnedAt(StateAfter(CacheState("", 0), ttl, fs[..m]), ttl, fs[m]) >= change + ttl + d - 1 ==>
              !Returned(ttl, fs, m, previous)
    ensures (exists n, v :: 0 <= n < m && v != previous && Returned(ttl, fs, n, v)) ==> !Returned(ttl, fs, m, previous)
  {
    SecretsAreFresh(param, d, ttl, fs, m);
    if n, v :| 0 <= n < m && v != previous && Returned(ttl, fs, n, v) {
      OldIsGone(param, previous, change, d, ttl, fs, n, v, m);
    }
  }

  lemma {:induction false} OldIsGone(param: Instant -> string, previous: string, change: Instant, d: nat, ttl: nat,
                                     fs: seq<Fetch>, n: nat, v: string, m: nat)
    requires Rotates(param, previous, change) && ttl > 0 && InOrder(fs) && n < m < |fs|
    requires forall i :: 0 <= i < |fs| ==> Honest(param, d, fs[i])
    requires Returned(ttl, fs, n, v) && v != previous
    ensures !Returned(ttl, fs, m, previous)
  {
    NewRenews(param, previous, change, d, ttl, fs, n, v);
    CacheStaysHonest(param, d, ttl, fs, n + 1);
    RenewedStays(param, previous, change, d, ttl, fs, n + 1, m);
    assert Honest(param, d, fs[m]);
  }

  /** Request `n` presented the secret that get returned to it. */
  predicate Accepted(cfg: Config, ttl: nat, s: HandlerState, xs: seq<Exchange>, n: nat)
    requires n < |xs|
  {
    && AsksSecret(cfg, xs[n].req)
    && GetStep(HandleAll(cfg, ttl, s, xs[..n]).cache, ttl, xs[n].hooks.fetch).1 ==
         Ok(ParseBasicAuth(cfg, xs[n].req.headers).value.1)
  }

  function PasswordOf(cfg: Config, x: Exchange): string {
    var auth := ParseBasicAuth(cfg, x.req.headers);
    if auth.Some? then auth.value.1 else ""
  }

  lemma {:induction false} FetchOfRequest(cfg: Config, xs: seq<Exchange>, n: nat)
    requires n < |xs| && AsksSecret(cfg, xs[n].req)
    ensures var fs, k := Fetches(cfg, xs), |Fetches(cfg, xs[..n])|;
            k < |fs| && fs[k] == xs[n].hooks.fetch && fs[..k] == Fetches(cfg, xs[..n])
  {
    if n < |xs| - 1 {
      var front := xs[..|xs| - 1];
      FetchOfRequest(cfg, front, n);
      assert front[..n] == xs[..n];
    }
  }

  lemma {:induction false} AcceptedReturned(cfg: Config, ttl: nat, record: Option<string>, xs: seq<Exchange>, n: nat)
    requires n < |xs| && Accepted(cfg, ttl, HandlerState(CacheState("", 0), record), xs, n)
    ensures var fs, k := Fetches(cfg, xs), |Fetches(cfg, xs[..n])|;
            && k < |fs| && Returned(ttl, fs, k, PasswordOf(cfg, xs[n]))
            && StateAfter(CacheState("", 0), ttl, fs[..k]) ==
                 HandleAll(cfg, ttl, HandlerState(CacheState("", 0), record), xs[..n]).cache
  {
    FetchOfRequest(cfg, xs, n);
    CacheFollowsFetches(cfg, ttl, HandlerState(CacheState("", 0), record), xs[..n]);
  }

  lemma {:induction false} MoreFetches(cfg: Config, xs: seq<Exchange>, n: nat, m: nat)
    requires n < m <= |xs| && AsksSecret(cfg, xs[n].req)
    ensures |Fetches(cfg, xs[..n])| < |Fetches(cfg, xs[..m])|
  {
    assert xs[..m][n] == xs[n] && xs[..m][..n] == xs[..n];
    FetchOfRequest(cfg, xs[..m], n);
  }

  /** A rotation in one execution environment: it accepts no request with the old secret from `change`
      + ttl + d - 1 on, nor after it has accepted one with another secret. */
  lemma {:induction false} RotationCompletes(cfg: Config, param: Instant -> string, previous: string, change: Instant,
                                             d: nat, ttl: nat, record: Option<string>, xs: seq<Exchange>, m: nat)
    requires Rotates(param, previous, change) && ttl > 0 && InOrder(Fetches(cfg, xs)) && m < |xs|
    requires forall i :: 0 <= i < |xs| ==> Honest(param, d, xs[i].hooks.fetch)
    requires var s := HandlerState(CacheState("", 0), record);
             Accepted(cfg, ttl, s, xs, m) && PasswordOf(cfg, xs[m]) == previous
    ensures var s := HandlerState(CacheState("", 0), record);
            && ReturnedAt(HandleAll(cfg, ttl, s, xs[..m]).cache, ttl, xs[m].hooks.fetch) < change + ttl + d - 1
            && forall n :: 0 <= n < m && Accepted(cfg, ttl, s, xs, n) ==> PasswordOf(cfg, xs[n]) == previous
  {
    var s, fs := HandlerState(CacheState("", 0), record), Fetches(cfg, xs);
    var k := |Fetches(cfg, xs[..m])|;
    FetchesAreHonest(cfg, param, d, xs);
    AcceptedReturned(cfg, ttl, record, xs, m);
    FetchOfRequest(cfg, xs, m);
    RotationAtGet(param, previous, change, d, ttl, fs, k);
    forall n | 0 <= n < m && Accepted(cfg, ttl, s, xs, n)
      ensures PasswordOf(cfg, xs[n]) == previous
    {
      AcceptedReturned(cfg, ttl, record, xs, n);
      MoreFetches(cfg, xs, n, m);
    }
  }

  lemma {:induction false} FetchesAreHonest(cfg: Config, param: Instant -> string, d: nat, xs: seq<Exchange>)
    requires forall i :: 0 <= i < |xs| ==> Honest(param, d, xs[i].hooks.fetch)
    ensures forall i :: 0 <= i < |Fetches(cfg, xs)| ==> Honest(param, d, Fetches(cfg, xs)[i])
  {
    if xs != [] {
      FetchesAreHonest(cfg, param, d, xs[..|xs| - 1]);
    }
  }

  /** One secret at a time in one execution environment: while its cache holds a value, that value
      alone is accepted, whatever the parameter has become since; the new secret is refused until the
      entry expires, and the old one from then on. */
  lemma OneSecretAtATime(cfg: Config, ttl: nat, req: Request, h: Hooks, s: HandlerState)
    requires AsksSecret(cfg, req)
    ensures var pass, r := ParseBasicAuth(cfg, req.headers).value.1, HandleStep(cfg, ttl, req, h, s);
            && (Hit(s.cache, ttl, h.fetch) ==> (r.body == "badauth" <==> pass != s.cache.value))
            && (!Hit(s.cache, ttl, h.fetch) && h.fetch.reply.Ok? ==> (r.body == "badauth" <==> pass != h.fetch.reply.value))
  {
    assert "badauth"[0] == 'b';
  }
}
