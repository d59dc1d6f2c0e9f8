/** One request of the serve handler (internal/server/handler.go), and requests served one after
    another; requests in flight at the same time are in ServeInterleaving. */
module ServeRuns {
  import opened Text
  import opened Lockout
  import opened Updater
  import opened UpdateRuns
  import opened WanIP
  import opened Audit
  import opened Serve

  datatype Exchange = Exchange(req: Request, hooks: Hooks)

  /** The state after requests served one after another. */
  function StateAfter(cfg: ServeConfig, isIP: string -> bool, s: ServerState, xs: seq<Exchange>): ServerState {
    if xs == [] then s else
      var before, x := StateAfter(cfg, isIP, s, xs[..|xs| - 1]), xs[|xs| - 1];
      ServeStep(cfg, isIP, x.req, x.hooks, before).state
  }

  /** How request `n` of the run was served. */
  function ServedAt(cfg: ServeConfig, isIP: string -> bool, s: ServerState, xs: seq<Exchange>, n: nat): Served
    requires n < |xs|
  {
    ServeStep(cfg, isIP, xs[n].req, xs[n].hooks, StateAfter(cfg, isIP, s, xs[..n]))
  }

  // ---------------------------------------------------------------- the gate

  /** The request reaches the password check. */
  predicate Checked(cfg: ServeConfig, req: Request) {
    cfg.server.Some? && cfg.server.value.allowed(req.remoteAddr) && req.verb == "GET" && req.password.Some?
  }

  /** The request passes every layer in front of the update flow. */
  predicate Passes(cfg: ServeConfig, req: Request, h: Hooks, auth: AuthState) {
    LetIn(cfg, req, h, auth) && Named(cfg, req) && h.wan.WanFound?
  }

  /** The update flow of a request that passes. */
  function Flow(cfg: ServeConfig, isIP: string -> bool, q: IPv4, h: Hooks, w: World): Run {
    RunUpdate(cfg.update, Options(false, false, Dotted(q)), h.update, w, isIP)
  }

  /** A request that passes is answered by the update flow, given the WAN address just read. */
  lemma PassingStep(cfg: ServeConfig, isIP: string -> bool, req: Request, h: Hooks, s: ServerState)
    requires Passes(cfg, req, h, s.auth)
    ensures var r, run := ServeStep(cfg, isIP, req, h, s), Flow(cfg, isIP, h.wan.q, h, s.world);
            && r.state.world == run.world && r.called == run.called && r.accepted == run.accepted
            && r.entry.myIPVerified == Dotted(h.wan.q)
            && exists e :: (r.response, r.entry) == Reply(run.outcome, e)
  {
    var e := BlankEntry(req.remoteAddr).(authOutcome := "ok", hostname := req.hostname, myIPClaimed := req.myip,
                                         myIPVerified := Dotted(h.wan.q));
    var r, run := ServeStep(cfg, isIP, req, h, s), Flow(cfg, isIP, h.wan.q, h, s.world);
    assert (r.response, r.entry) == Reply(run.outcome, e);
  }

  /** A request that does not pass touches neither record nor cache, and gets no update reply. */
  lemma RefusedStep(cfg: ServeConfig, isIP: string -> bool, req: Request, h: Hooks, s: ServerState)
    requires !Passes(cfg, req, h, s.auth)
    ensures var r := ServeStep(cfg, isIP, req, h, s);
            && r.state.world == s.world && r.called.None? && !r.accepted && r.entry.myIPVerified == ""
            && (r.response.Dyndns? ==> r.response.code != "good" && r.response.code != "nochg")
            && r.entry.action != "updated"
  {
    CodesDiffer();
    assert "updated"[0] == 'u' && "panic"[0] == 'p' && "cidr-deny"[0] == 'c' && "method-deny"[0] == 'm';
    assert "notfqdn"[0] == 'n' && "nohost"[0] == 'n' && "wanip-error"[0] == 'w';
  }

  /** UpdateIP is called exactly when the request passes and the update flow, given the WAN address
      just read, calls it; it is called with that address. A request that does not pass changes
      neither record nor cache, and one that is not checked leaves the lockout state alone. */
  lemma StepGate(cfg: ServeConfig, isIP: string -> bool, req: Request, h: Hooks, s: ServerState)
    ensures var r := ServeStep(cfg, isIP, req, h, s);
            && (r.called.Some? <==>
                 Passes(cfg, req, h, s.auth) && Flow(cfg, isIP, h.wan.q, h, s.world).called.Some?)
            && (r.called.Some? ==> ReadDotted(r.called.value) == Some(h.wan.q) && r.called.value == Dotted(h.wan.q))
            && (r.called.None? ==> r.state.world.record == s.world.record)
            && (!Passes(cfg, req, h, s.auth) ==> r.state.world == s.world)
            && (r.checked.Some? <==> Checked(cfg, req))
            && (!Checked(cfg, req) ==> r.state.auth == s.auth)
            && r.state.audited == s.audited + [r.entry]
            && r.state.snapshots == s.snapshots + [SnapshotOf(r.entry, h.emittedAt)]
  {
    StepAuth(cfg, isIP, req, h, s);
    EmitsOnce(cfg, isIP, req, h, s);
    if Passes(cfg, req, h, s.auth) {
      PassingStep(cfg, isIP, req, h, s);
      FlowGate(cfg, isIP, h, s.world);
      DottedReads(h.wan.q);
    } else {
      RefusedStep(cfg, isIP, req, h, s);
    }
  }

  lemma FlowGate(cfg: ServeConfig, isIP: string -> bool, h: Hooks, w: World)
    requires h.wan.WanFound?
    ensures var run := Flow(cfg, isIP, h.wan.q, h, w);
            && (run.called.Some? ==> run.called.value == Dotted(h.wan.q))
            && (run.called.None? ==> run.world.record == w.record)
  {
    DottedIsAddress(h.wan.q);
    WorldAfter(cfg.update, Options(false, false, Dotted(h.wan.q)), h.update, w, isIP);
    CallIff(cfg.update, Options(false, false, Dotted(h.wan.q)), h.update, w, isIP);
  }

  /** A missing header, a wrong password and a lockout get the same reply, and nothing else gets it. */
  lemma BadAuthIff(cfg: ServeConfig, isIP: string -> bool, req: Request, h: Hooks, s: ServerState)
    ensures ServeStep(cfg, isIP, req, h, s).response == Dyndns("badauth", "") <==>
              && cfg.server.Some? && cfg.server.value.allowed(req.remoteAddr) && req.verb == "GET"
              && (req.password.None? || req.password.value != cfg.secret || h.checkedAt < s.auth.lockedUntil)
  {
    CodesDiffer();
  }

  /** The request holds the right password outside a lockout. */
  predicate LetIn(cfg: ServeConfig, req: Request, h: Hooks, auth: AuthState) {
    Checked(cfg, req) && req.password.value == cfg.secret && h.checkedAt >= auth.lockedUntil
  }

  predicate Named(cfg: ServeConfig, req: Request) {
    req.hostname != "" && EqualFold(req.hostname, cfg.update.hostname)
  }

  lemma CodesDiffer()
    ensures |"911"| == 3 && |"good"| == 4 && |"nochg"| == 5 && |"nohost"| == |"dnserr"| == 6
    ensures |"notfqdn"| == |"badauth"| == 7
    ensures "nohost" != "dnserr" && "notfqdn" != "badauth"
  {
    assert "nohost"[0] != "dnserr"[0] && "notfqdn"[0] != "badauth"[0];
  }

  /** The response table of the refusals: each one exactly when. */
  lemma RefusalsIff(cfg: ServeConfig, isIP: string -> bool, req: Request, h: Hooks, s: ServerState)
    ensures var r := ServeStep(cfg, isIP, req, h, s).response;
            && (r == Code(403) <==> cfg.server.Some? && !cfg.server.value.allowed(req.remoteAddr))
            && (r == Code(405) <==> cfg.server.Some? && cfg.server.value.allowed(req.remoteAddr) && req.verb != "GET")
            && (r == Dyndns("notfqdn", "") <==> LetIn(cfg, req, h, s.auth) && req.hostname == "")
            && (r == Dyndns("nohost", "") <==>
                 LetIn(cfg, req, h, s.auth) && req.hostname != "" && !Named(cfg, req))
  {
    CodesDiffer();
  }

  /** What the update flow's outcome says to the client. */
  lemma FlowReply(cfg: ServeConfig, isIP: string -> bool, h: Hooks, w: World, e: AuditEntry)
    requires h.wan.WanFound?
    ensures var run := Flow(cfg, isIP, h.wan.q, h, w);
            var (r, f) := Reply(run.outcome, e);
            && (r == Dyndns("911", "") <==> run.outcome.Panicked?)
            && (r == Dyndns("dnserr", "") <==> run.outcome.Failed?)
            && (r == Dyndns("good", Dotted(h.wan.q)) <==> run.accepted)
            && (r == Dyndns("nochg", Dotted(h.wan.q)) <==> run.outcome.Done? && !run.accepted)
            && r.Dyndns? && (r.code in ["good", "nochg"] <==> run.outcome.Done?)
            && (r.code == "good" <==> run.accepted) && (r.code in ["good", "nochg"] ==> r.ip == Dotted(h.wan.q))
            && (f.action == "updated" <==> run.accepted) && f == e.(action := f.action, err := f.err)
  {
    CodesDiffer();
    assert |"updated"| == |"dry-run"| == 7 && |"panic"| == 5 && |"dnserr"| == 6;
    assert |"nochg-cache"| == 11 && |"nochg-dns"| == 9;
    assert "updated"[0] != "dry-run"[0];
    DottedIsAddress(h.wan.q);
    ActionsTellEffects(cfg.update, Options(false, false, Dotted(h.wan.q)), h.update, w, isIP);
  }

  /** The response table of the requests that reach the WAN lookup: each reply exactly when. */
  lemma RepliesIff(cfg: ServeConfig, isIP: string -> bool, req: Request, h: Hooks, s: ServerState)
    requires LetIn(cfg, req, h, s.auth) && Named(cfg, req)
    ensures var r := ServeStep(cfg, isIP, req, h, s).response;
            && (r == Dyndns("911", "") <==>
                 h.wan.WanPanics? || (h.wan.WanFound? && Flow(cfg, isIP, h.wan.q, h, s.world).outcome.Panicked?))
            && (r == Dyndns("dnserr", "") <==>
                 h.wan.WanFails? || (h.wan.WanFound? && Flow(cfg, isIP, h.wan.q, h, s.world).outcome.Failed?))
            && (h.wan.WanFound? ==>
                 var run := Flow(cfg, isIP, h.wan.q, h, s.world);
                 && (r == Dyndns("good", Dotted(h.wan.q)) <==> run.accepted)
                 && (r == Dyndns("nochg", Dotted(h.wan.q)) <==> run.outcome.Done? && !run.accepted))
  {
    CodesDiffer();
    if h.wan.WanFound? {
      PassingStep(cfg, isIP, req, h, s);
      var e :| (ServeStep(cfg, isIP, req, h, s).response, ServeStep(cfg, isIP, req, h, s).entry)
                 == Reply(Flow(cfg, isIP, h.wan.q, h, s.world).outcome, e);
      FlowReply(cfg, isIP, h, s.world, e);
    }
  }

  lemma EntryFields(cfg: ServeConfig, isIP: string -> bool, req: Request, h: Hooks, s: ServerState)
    ensures var r := ServeStep(cfg, isIP, req, h, s);
            && r.entry.remoteAddr == req.remoteAddr
            && r.entry.hostname == (if LetIn(cfg, req, h, s.auth) then req.hostname else "")
            && r.entry.myIPClaimed == (if LetIn(cfg, req, h, s.auth) then req.myip else "")
            && (r.entry.authOutcome == "ok" <==> LetIn(cfg, req, h, s.auth))
  {
    assert |"ok"| == 2 && |"bad"| == 3 && |"locked"| == 6 && |"missing"| == 7;
  }

  /** The audit entry tells the truth about its request: whether the password check let it in, what
      the client claimed and what was verified, and whether the record was updated, to what. */
  lemma EntryTells(cfg: ServeConfig, isIP: string -> bool, req: Request, h: Hooks, s: ServerState)
    ensures var r, isIn := ServeStep(cfg, isIP, req, h, s), LetIn(cfg, req, h, s.auth);
            && r.entry.remoteAddr == req.remoteAddr && (r.entry.authOutcome == "ok" <==> isIn)
            && r.entry.hostname == (if isIn then req.hostname else "")
            && r.entry.myIPClaimed == (if isIn then req.myip else "")
            && r.entry.myIPVerified == (if Passes(cfg, req, h, s.auth) then Dotted(h.wan.q) else "")
            && (r.entry.action == "updated" <==> r.accepted)
            && (r.called.Some? ==> r.called.value == r.entry.myIPVerified)
  {
    EntryFields(cfg, isIP, req, h, s);
    if Passes(cfg, req, h, s.auth) {
      PassingStep(cfg, isIP, req, h, s);
      FlowGate(cfg, isIP, h, s.world);
      var e :| (ServeStep(cfg, isIP, req, h, s).response, ServeStep(cfg, isIP, req, h, s).entry)
                 == Reply(Flow(cfg, isIP, h.wan.q, h, s.world).outcome, e);
      FlowReply(cfg, isIP, h, s.world, e);
    } else {
      RefusedStep(cfg, isIP, req, h, s);
    }
  }

  lemma ActionsDiffer()
    ensures |"updated"| == |"dry-run"| == 7 && |"panic"| == 5 && |"dnserr"| == |"nohost"| == 6 && |"notfqdn"| == 7
    ensures |"cidr-deny"| == 9 && |"nochg-dns"| == 9 && |"method-deny"| == |"nochg-cache"| == 11 && |"wanip-error"| == 11
    ensures "notfqdn" != "updated" && "notfqdn" != "dry-run" && "dnserr" != "nohost" && "cidr-deny" != "nochg-dns"
    ensures "method-deny" != "nochg-cache" && "method-deny" != "wanip-error" && "wanip-error" != "nochg-cache"
  {
    assert "notfqdn"[0] == 'n' && "updated"[0] == 'u' && "dry-run"[0] == 'd' && "dnserr"[0] == 'd' && "nohost"[0] == 'n';
    assert "cidr-deny"[0] == 'c' && "nochg-dns"[0] == 'n';
    assert "method-deny"[0] == 'm' && "nochg-cache"[0] == 'n' && "wanip-error"[0] == 'w';
  }

  /** The refusals in the audit log: each action exactly when. */
  lemma RefusedActionIff(cfg: ServeConfig, isIP: string -> bool, req: Request, h: Hooks, s: ServerState)
    requires cfg.server.Some? && !Passes(cfg, req, h, s.auth)
    ensures var e, isIn := ServeStep(cfg, isIP, req, h, s).entry, LetIn(cfg, req, h, s.auth);
            && (e.action == "cidr-deny" <==> !cfg.server.value.allowed(req.remoteAddr))
            && (e.action == "method-deny" <==> cfg.server.value.allowed(req.remoteAddr) && req.verb != "GET")
            && (e.action == "notfqdn" <==> isIn && req.hostname == "")
            && (e.action == "nohost" <==> isIn && req.hostname != "" && !Named(cfg, req))
            && (e.action == "wanip-error" <==> isIn && Named(cfg, req) && h.wan.WanFails?)
            && (e.action == "panic" <==> isIn && Named(cfg, req) && h.wan.WanPanics?)
  {
    ActionsDiffer();
  }

  /** And what the log says of the password: each outcome exactly when. */
  lemma AuthOutcomeIff(cfg: ServeConfig, isIP: string -> bool, req: Request, h: Hooks, s: ServerState)
    requires cfg.server.Some?
    ensures var e := ServeStep(cfg, isIP, req, h, s).entry;
            var asked := cfg.server.value.allowed(req.remoteAddr) && req.verb == "GET";
            && (e.authOutcome == "" <==> !asked)
            && (e.authOutcome == "missing" <==> asked && req.password.None?)
            && (e.authOutcome == "locked" <==> Checked(cfg, req) && h.checkedAt < s.auth.lockedUntil)
            && (e.authOutcome == "ok" <==> LetIn(cfg, req, h, s.auth))
            && (e.authOutcome == "bad" <==>
                 Checked(cfg, req) && h.checkedAt >= s.auth.lockedUntil && req.password.value != cfg.secret)
  {
    assert |"ok"| == 2 && |"bad"| == 3 && |"locked"| == 6 && |"missing"| == 7 && |""| == 0;
  }

  /** What both records show of a request: the log entry says at which layer it was stopped and how the
      password check went, and the status snapshot agrees with it. */
  lemma RecordsTell(cfg: ServeConfig, isIP: string -> bool, req: Request, h: Hooks, s: ServerState)
    requires cfg.server.Some?
    ensures var r := ServeStep(cfg, isIP, req, h, s);
            var e, snap, isIn := r.entry, r.state.snapshots[|s.snapshots|], LetIn(cfg, req, h, s.auth);
            && r.state.audited == s.audited + [e] && |r.state.snapshots| == |s.snapshots| + 1
            && snap.lastAction == e.action && snap.lastAuthOutcome == e.authOutcome && snap.lastError == e.err
            && snap.lastRemoteAddr == req.remoteAddr && snap.lastRequestAt == h.emittedAt
            && (e.authOutcome == "missing" || e.authOutcome == "bad" || e.authOutcome == "locked" ==> e.action == "")
            && (!Passes(cfg, req, h, s.auth) ==>
                 && (e.action == "cidr-deny" <==> !cfg.server.value.allowed(req.remoteAddr))
                 && (e.action == "method-deny" <==> cfg.server.value.allowed(req.remoteAddr) && req.verb != "GET")
                 && (e.action == "notfqdn" <==> isIn && req.hostname == "")
                 && (e.action == "nohost" <==> isIn && req.hostname != "" && !Named(cfg, req))
                 && (e.action == "wanip-error" <==> isIn && Named(cfg, req) && h.wan.WanFails?)
                 && (e.action == "panic" <==> isIn && Named(cfg, req) && h.wan.WanPanics?))
  {
    EmitsOnce(cfg, isIP, req, h, s);
    EntryFields(cfg, isIP, req, h, s);
    AuthOutcomeIff(cfg, isIP, req, h, s);
    if cfg.server.value.allowed(req.remoteAddr) && req.verb == "GET" && !LetIn(cfg, req, h, s.auth) {
      BadAuthSilent(cfg, isIP, req, h, s);
    }
    if !Passes(cfg, req, h, s.auth) {
      RefusedActionIff(cfg, isIP, req, h, s);
    }
  }

  /** The error that the log shows: that of the WAN lookup, or of the update flow, and else none. */
  lemma ErrorTells(cfg: ServeConfig, isIP: string -> bool, req: Request, h: Hooks, s: ServerState)
    requires cfg.server.Some?
    ensures var e, reached := ServeStep(cfg, isIP, req, h, s).entry, LetIn(cfg, req, h, s.auth) && Named(cfg, req);
            && (!reached ==> e.err == "")
            && (reached && h.wan.WanFails? ==> e.err == h.wan.error)
            && (reached && h.wan.WanPanics? ==> e.err == h.wan.value)
            && (Passes(cfg, req, h, s.auth) ==>
                 match Flow(cfg, isIP, h.wan.q, h, s.world).outcome
                 case Failed(error) => e.action == "dnserr" && e.err == error
                 case Panicked(value) => e.action == "panic" && e.err == value
                 case Done(result) => e.action == result.action && e.err == "")
  {
    if Passes(cfg, req, h, s.auth) {
      ActionsTellEffects(cfg.update, Options(false, false, Dotted(h.wan.q)), h.update, s.world, isIP);
    }
  }

  lemma BadAuthSilent(cfg: ServeConfig, isIP: string -> bool, req: Request, h: Hooks, s: ServerState)
    requires cfg.server.Some? && cfg.server.value.allowed(req.remoteAddr) && req.verb == "GET" && !LetIn(cfg, req, h, s.auth)
    ensures ServeStep(cfg, isIP, req, h, s).entry.action == ""
  {
  }

  predicate Known(code: string) {
    || code == "911" || code == "good" || code == "nochg" || code == "nohost" || code == "dnserr"
    || code == "notfqdn" || code == "badauth"
  }

  lemma CodeIsKnown(cfg: ServeConfig, isIP: string -> bool, req: Request, h: Hooks, s: ServerState)
    ensures var r := ServeStep(cfg, isIP, req, h, s).response;
            r.Dyndns? ==> Known(r.code)
  {
  }

  lemma KnownIsWord(code: string)
    requires Known(code)
    ensures ' ' !in code
  {
  }

  /** What a client can learn from the text of a reply: whether its update went through, with the WAN
      address and nothing else as its argument; whether nothing was needed; and otherwise at which
      layer it was stopped, or what failed. A missing password, a wrong one and a lockout read the same. */
  lemma ClientReads(cfg: ServeConfig, isIP: string -> bool, req: Request, h: Hooks, s: ServerState)
    requires cfg.server.Some? && cfg.server.value.allowed(req.remoteAddr) && req.verb == "GET"
    ensures var r := ServeStep(cfg, isIP, req, h, s);
            var seen, isIn := ReadBody(Body(r.response)), LetIn(cfg, req, h, s.auth);
            && seen == Some(r.response)
            && (seen == Some(Dyndns("badauth", "")) <==> !isIn)
            && (seen == Some(Dyndns("notfqdn", "")) <==> isIn && req.hostname == "")
            && (seen == Some(Dyndns("nohost", "")) <==> isIn && req.hostname != "" && !Named(cfg, req))
            && (isIn && Named(cfg, req) ==>
                 && (seen == Some(Dyndns("911", "")) <==>
                      h.wan.WanPanics? || (h.wan.WanFound? && Flow(cfg, isIP, h.wan.q, h, s.world).outcome.Panicked?))
                 && (seen == Some(Dyndns("dnserr", "")) <==>
                      h.wan.WanFails? || (h.wan.WanFound? && Flow(cfg, isIP, h.wan.q, h, s.world).outcome.Failed?)))
            && (h.wan.WanFound? && seen == Some(Dyndns("good", Dotted(h.wan.q))) <==> r.accepted)
            && (h.wan.WanFound? && seen == Some(Dyndns("nochg", Dotted(h.wan.q))) <==>
                 Passes(cfg, req, h, s.auth) && NothingNeeded(cfg, isIP, h, s.world))
            && (seen.value.code in ["good", "nochg"] ==> h.wan.WanFound? && ReadDotted(seen.value.ip) == Some(h.wan.q))
  {
    ReplyTable(cfg, isIP, req, h, s);
    BodyRoundTrip(ServeStep(cfg, isIP, req, h, s).response);
  }

  /** The whole table of replies to a GET from an allowed peer. */
  lemma ReplyTable(cfg: ServeConfig, isIP: string -> bool, req: Request, h: Hooks, s: ServerState)
    requires cfg.server.Some? && cfg.server.value.allowed(req.remoteAddr) && req.verb == "GET"
    ensures var r := ServeStep(cfg, isIP, req, h, s);
            var seen, isIn := r.response, LetIn(cfg, req, h, s.auth);
            && seen.Dyndns? && ' ' !in seen.code
            && (seen == Dyndns("badauth", "") <==> !isIn)
            && (seen == Dyndns("notfqdn", "") <==> isIn && req.hostname == "")
            && (seen == Dyndns("nohost", "") <==> isIn && req.hostname != "" && !Named(cfg, req))
            && (isIn && Named(cfg, req) ==>
                 && (seen == Dyndns("911", "") <==>
                      h.wan.WanPanics? || (h.wan.WanFound? && Flow(cfg, isIP, h.wan.q, h, s.world).outcome.Panicked?))
                 && (seen == Dyndns("dnserr", "") <==>
                      h.wan.WanFails? || (h.wan.WanFound? && Flow(cfg, isIP, h.wan.q, h, s.world).outcome.Failed?)))
            && (h.wan.WanFound? && seen == Dyndns("good", Dotted(h.wan.q)) <==> r.accepted)
            && (h.wan.WanFound? && seen == Dyndns("nochg", Dotted(h.wan.q)) <==>
                 Passes(cfg, req, h, s.auth) && NothingNeeded(cfg, isIP, h, s.world))
            && (seen.code in ["good", "nochg"] ==> h.wan.WanFound? && ReadDotted(seen.ip) == Some(h.wan.q))
  {
    CodeIsKnown(cfg, isIP, req, h, s);
    RefusalsIff(cfg, isIP, req, h, s);
    BadAuthIff(cfg, isIP, req, h, s);
    assert ServeStep(cfg, isIP, req, h, s).response.Dyndns?;
    KnownIsWord(ServeStep(cfg, isIP, req, h, s).response.code);
    UpdateReplies(cfg, isIP, req, h, s);
    if h.wan.WanFound? {
      DottedReads(h.wan.q);
    }
    NochgIff(cfg, isIP, req, h, s);
    if LetIn(cfg, req, h, s.auth) && Named(cfg, req) {
      RepliesIff(cfg, isIP, req, h, s);
    }
  }

  /** The request's WAN address is what is seen in the cache, or what the lookup finds in the record. */
  predicate NothingNeeded(cfg: ServeConfig, isIP: string -> bool, h: Hooks, w: World)
    requires h.wan.WanFound?
  {
    var opts := Options(false, false, Dotted(h.wan.q));
    Dotted(h.wan.q) == SeenIP(w.cache, h.update, isIP) || FindsRecord(cfg.update, opts, h.update, w, isIP)
  }

  lemma DoneIff(cfg: ServeConfig, isIP: string -> bool, h: Hooks, w: World)
    requires h.wan.WanFound?
    ensures var run := Flow(cfg, isIP, h.wan.q, h, w);
            run.outcome.Done? && !run.accepted <==> NothingNeeded(cfg, isIP, h, w)
  {
    DottedIsAddress(h.wan.q);
  }

  /** "nochg" is answered exactly to a request that passes and needs nothing. */
  lemma NochgIff(cfg: ServeConfig, isIP: string -> bool, req: Request, h: Hooks, s: ServerState)
    ensures h.wan.WanFound? && ServeStep(cfg, isIP, req, h, s).response == Dyndns("nochg", Dotted(h.wan.q)) <==>
              Passes(cfg, req, h, s.auth) && NothingNeeded(cfg, isIP, h, s.world)
  {
    if Passes(cfg, req, h, s.auth) {
      PassingStep(cfg, isIP, req, h, s);
      var e :| (ServeStep(cfg, isIP, req, h, s).response, ServeStep(cfg, isIP, req, h, s).entry)
                 == Reply(Flow(cfg, isIP, h.wan.q, h, s.world).outcome, e);
      FlowReply(cfg, isIP, h, s.world, e);
      DoneIff(cfg, isIP, h, s.world);
    } else {
      RefusedStep(cfg, isIP, req, h, s);
    }
  }

  lemma UpdateReplies(cfg: ServeConfig, isIP: string -> bool, req: Request, h: Hooks, s: ServerState)
    ensures var r := ServeStep(cfg, isIP, req, h, s);
            && (h.wan.WanFound? && r.response == Dyndns("good", Dotted(h.wan.q)) <==> r.accepted)
            && (r.response.Dyndns? && r.response.code in ["good", "nochg"] ==>
                 h.wan.WanFound? && r.response.ip == Dotted(h.wan.q))
  {
    if Passes(cfg, req, h, s.auth) {
      PassingStep(cfg, isIP, req, h, s);
      var e :| (ServeStep(cfg, isIP, req, h, s).response, ServeStep(cfg, isIP, req, h, s).entry)
                 == Reply(Flow(cfg, isIP, h.wan.q, h, s.world).outcome, e);
      FlowReply(cfg, isIP, h, s.world, e);
    } else {
      RefusedStep(cfg, isIP, req, h, s);
    }
  }

  lemma DottedIsAddress(q: IPv4)
    ensures AddressText(Dotted(q))
  {
    var d := Dotted(q);
    forall c | c in d
      ensures '0' <= c <= ':' || c == '.'
    {
      DecimalDigits(q[0]);
      DecimalDigits(q[1]);
      DecimalDigits(q[2]);
      DecimalDigits(q[3]);
      assert c in Decimal(q[0]) || c in Decimal(q[1]) || c in Decimal(q[2]) || c in Decimal(q[3]) || c == '.';
    }
  }

  lemma DecimalDigits(n: Byte)
    ensures forall c :: c in Decimal(n) ==> '0' <= c <= '9'
  {
  }

  lemma StepAuth(cfg: ServeConfig, isIP: string -> bool, req: Request, h: Hooks, s: ServerState)
    ensures ServeStep(cfg, isIP, req, h, s).state.auth ==
              if Checked(cfg, req) then CheckStep(s.auth, h.checkedAt, req.password.value == cfg.secret).0 else s.auth
    ensures ServeStep(cfg, isIP, req, h, s).checked.Some? <==> Checked(cfg, req)
  {
  }

  lemma EmitsOnce(cfg: ServeConfig, isIP: string -> bool, req: Request, h: Hooks, s: ServerState)
    ensures var r := ServeStep(cfg, isIP, req, h, s);
            && r.state.audited == s.audited + [r.entry]
            && r.state.snapshots == s.snapshots + [SnapshotOf(r.entry, h.emittedAt)]
  {
  }

  // ---------------------------------------------------------------- replies tell the truth

  /** No failed cache write, and no UPSERT that takes effect and still errs. */
  ghost predicate CleanCalls(e: Env) {
    e.cacheWrite.CacheWritten? && (e.upsert.UpsertSucceeds? || !e.upsert.applied)
  }

  /** The reply and the audit entry are true. */
  ghost predicate Truthful(x: Exchange, r: Served) {
    && (r.entry.action == "updated" <==> r.accepted)
    && (r.called.Some? ==> r.called.value == r.entry.myIPVerified)
    && (r.response.Dyndns? && r.response.code in ["good", "nochg"] ==>
         && x.hooks.wan.WanFound? && r.response.ip == Dotted(x.hooks.wan.q)
         && r.state.world.record == Some(r.response.ip))
    && (r.response.Dyndns? && r.response.code == "good" <==> r.accepted)
  }

  lemma StepIsTruthful(cfg: ServeConfig, isIP: string -> bool, x: Exchange, s: ServerState)
    requires Coherent(s.world, isIP) && CleanCalls(x.hooks.update)
    ensures var r := ServeStep(cfg, isIP, x.req, x.hooks, s);
            Truthful(x, r) && Coherent(r.state.world, isIP)
  {
    EntryTells(cfg, isIP, x.req, x.hooks, s);
    if Passes(cfg, x.req, x.hooks, s.auth) {
      PassingStep(cfg, isIP, x.req, x.hooks, s);
      FlowIsTruthful(cfg, isIP, x.hooks, s.world);
      var e :| (ServeStep(cfg, isIP, x.req, x.hooks, s).response, ServeStep(cfg, isIP, x.req, x.hooks, s).entry)
                 == Reply(Flow(cfg, isIP, x.hooks.wan.q, x.hooks, s.world).outcome, e);
      FlowReply(cfg, isIP, x.hooks, s.world, e);
    } else {
      RefusedStep(cfg, isIP, x.req, x.hooks, s);
    }
  }

  lemma FlowIsTruthful(cfg: ServeConfig, isIP: string -> bool, h: Hooks, w: World)
    requires h.wan.WanFound? && Coherent(w, isIP) && CleanCalls(h.update)
    ensures var run := Flow(cfg, isIP, h.wan.q, h, w);
            Coherent(run.world, isIP) && (run.outcome.Done? ==> run.world.record == Some(Dotted(h.wan.q)))
  {
    DottedIsAddress(h.wan.q);
    AddressCacheable(Dotted(h.wan.q));
    JobKeepsCoherent(cfg.update, Job(Options(false, false, Dotted(h.wan.q)), h.update), w, isIP);
    OnlyDryRunsSaySo(cfg.update, Options(false, false, Dotted(h.wan.q)), h.update, w, isIP);
  }

  lemma {:induction false} RunStaysCoherent(cfg: ServeConfig, isIP: string -> bool, s: ServerState, xs: seq<Exchange>)
    requires Coherent(s.world, isIP) && forall i :: 0 <= i < |xs| ==> CleanCalls(xs[i].hooks.update)
    ensures Coherent(StateAfter(cfg, isIP, s, xs).world, isIP)
  {
    if xs != [] {
      var front := xs[..|xs| - 1];
      RunStaysCoherent(cfg, isIP, s, front);
      StepIsTruthful(cfg, isIP, xs[|xs| - 1], StateAfter(cfg, isIP, s, front));
    }
  }

  /** In every run from a coherent cache, without failed cache writes, outside edits or errors after
      the fact: after "good x" or "nochg x" the record is x and x is the WAN address that request
      read; and "good" is sent exactly when that request's UPSERT succeeded. */
  lemma RunIsTruthful(cfg: ServeConfig, isIP: string -> bool, s: ServerState, xs: seq<Exchange>, n: nat)
    requires Coherent(s.world, isIP) && n < |xs| && forall i :: 0 <= i <= n ==> CleanCalls(xs[i].hooks.update)
    ensures Truthful(xs[n], ServedAt(cfg, isIP, s, xs, n))
  {
    RunStaysCoherent(cfg, isIP, s, xs[..n]);
    StepIsTruthful(cfg, isIP, xs[n], StateAfter(cfg, isIP, s, xs[..n]));
  }
}
