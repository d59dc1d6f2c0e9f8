/** The serve handler with many requests in flight (internal/server/handler.go): net/http starts a
    goroutine for each, and they meet only where a mutex or another process makes them: the password
    check, the record and the cache, the audit log, the status file. A schedule says which request
    moves next, and when anything else changes the record or the cache. */
module ServeInterleaving {
  import opened Text
  import opened Lockout
  import opened Updater
  import opened Audit
  import opened WanIP
  import opened Serve
  import opened ServeRuns
  import U = UpdateInterleaving
  import UpdateRuns

  /** Where a request stands between two of its steps. A reply has been sent once the request is to
      write its audit entry. */
  datatype Stage =
    | Arrived
    | Checking
    | ReadingWan(entry: AuditEntry)
    | Updating(entry: AuditEntry, q: IPv4, point: U.Point)
    | Auditing(response: Response, entry: AuditEntry)
    | Reporting(response: Response, entry: AuditEntry)
    | Ended(response: Response, entry: AuditEntry)

  datatype Setting = Setting(cfg: ServeConfig, isIP: string -> bool, xs: seq<Exchange>)

  /** `checks` lists the requests in the order in which they held the authenticator's mutex, `logged`
      in the order of their audit entries. */
  datatype System = System(shared: ServerState, stages: seq<Stage>, checks: seq<nat>, logged: seq<nat>)

  predicate Matches(x: Setting, i: nat)
    requires i < |x.xs|
  {
    x.xs[i].req.password == Some(x.cfg.secret)
  }

  /** The layers in front of the password check. */
  function Admit(cfg: ServeConfig, req: Request): Stage {
    var e := BlankEntry(req.remoteAddr);
    if cfg.server.None? then Auditing(Dyndns("911", ""), e.(action := "panic", err := "nil pointer dereference"))
    else if !cfg.server.value.allowed(req.remoteAddr) then Auditing(Code(403), e.(action := "cidr-deny"))
    else if req.verb != "GET" then Auditing(Code(405), e.(action := "method-deny"))
    else if req.password.None? then Auditing(Dyndns("badauth", ""), e.(authOutcome := "missing"))
    else Checking
  }

  /** From the answer of the password check to the WAN lookup. */
  function AfterCheck(cfg: ServeConfig, req: Request, r: AuthResult): Stage {
    var e := BlankEntry(req.remoteAddr).(authOutcome := OutcomeText(r));
    if r != AuthOK then Auditing(Dyndns("badauth", ""), e) else
      var e' := e.(hostname := req.hostname, myIPClaimed := req.myip);
      if req.hostname == "" then Auditing(Dyndns("notfqdn", ""), e'.(action := "notfqdn"))
      else if !EqualFold(req.hostname, cfg.update.hostname) then Auditing(Dyndns("nohost", ""), e'.(action := "nohost"))
      else ReadingWan(e')
  }

  function AfterWan(e: AuditEntry, wan: Wan): Stage {
    match wan
    case WanPanics(value) => Auditing(Dyndns("911", ""), e.(action := "panic", err := value))
    case WanFails(error) => Auditing(Dyndns("dnserr", ""), e.(action := "wanip-error", err := error))
    case WanFound(q) => Updating(e.(myIPVerified := Dotted(q)), q, U.Resolving)
  }

  function JobOf(x: Setting, i: nat, q: IPv4): UpdateRuns.Job
    requires i < |x.xs|
  {
    UpdateRuns.Job(Options(false, false, Dotted(q)), x.xs[i].hooks.update)
  }

  /** One step of request `i`. */
  function Advance(x: Setting, i: nat, s: System): (s': System)
    requires i < |x.xs| == |s.stages|
    ensures |s'.stages| == |s.stages|
  {
    var req, h := x.xs[i].req, x.xs[i].hooks;
    match s.stages[i]
    case Arrived =>
      s.(stages := s.stages[i := Admit(x.cfg, req)])
    case Checking =>
      var (auth', r) := CheckStep(s.shared.auth, h.checkedAt, Matches(x, i));
      System(s.shared.(auth := auth'), s.stages[i := AfterCheck(x.cfg, req, r)], s.checks + [i], s.logged)
    case ReadingWan(e) =>
      s.(stages := s.stages[i := AfterWan(e, h.wan)])
    case Updating(e, q, point) =>
      if point.Finished? then
        var (response, e') := Reply(point.outcome, e);
        s.(stages := s.stages[i := Auditing(response, e')])
      else
        var (w, point') := U.Advance(x.cfg.update, JobOf(x, i, q), s.shared.world, point, x.isIP);
        s.(shared := s.shared.(world := w), stages := s.stages[i := Updating(e, q, point')])
    case Auditing(response, e) =>
      System(s.shared.(audited := s.shared.audited + [e]), s.stages[i := Reporting(response, e)],
             s.checks, s.logged + [i])
    case Reporting(response, e) =>
      s.(shared := s.shared.(snapshots := s.shared.snapshots + [SnapshotOf(e, h.emittedAt)]),
         stages := s.stages[i := Ended(response, e)])
    case Ended(_, _) => s
  }

  // ---------------------------------------------------------------- one request alone

  function StepsLeft(st: Stage): nat {
    match st
    case Arrived => 11
    case Checking => 10
    case ReadingWan(_) => 9
    case Updating(_, _, point) => 3 + U.StepsLeft(point)
    case Auditing(_, _) => 2
    case Reporting(_, _) => 1
    case Ended(_, _) => 0
  }

  lemma StepsShrink(x: Setting, i: nat, s: System)
    requires i < |x.xs| == |s.stages| && !s.stages[i].Ended?
    ensures StepsLeft(Advance(x, i, s).stages[i]) < StepsLeft(s.stages[i])
  {
  }

  /** A request that nothing interrupts. */
  function Finish(x: Setting, i: nat, s: System): (s': System)
    requires i < |x.xs| == |s.stages|
    ensures |s'.stages| == |s.stages|
    decreases StepsLeft(s.stages[i])
  {
    if s.stages[i].Ended? then s else
      StepsShrink(x, i, s);
      Finish(x, i, Advance(x, i, s))
  }

  /** Alone, the update steps of a request are the update flow. */
  lemma {:induction false} FinishUpdate(x: Setting, i: nat, s: System)
    requires i < |x.xs| == |s.stages| && s.stages[i].Updating?
    ensures var st := s.stages[i];
            var (w, outcome) := U.Finish(x.cfg.update, JobOf(x, i, st.q), s.shared.world, st.point, x.isIP);
            var (response, e) := Reply(outcome, st.entry);
            Finish(x, i, s) ==
              Finish(x, i, s.(shared := s.shared.(world := w), stages := s.stages[i := Auditing(response, e)]))
    decreases StepsLeft(s.stages[i])
  {
    var st := s.stages[i];
    if st.point.Finished? {
      assert s.shared.(world := s.shared.world) == s.shared;
    } else {
      StepsShrink(x, i, s);
      var s' := Advance(x, i, s);
      FinishUpdate(x, i, s');
      var (w, outcome) := U.Finish(x.cfg.update, JobOf(x, i, st.q), s.shared.world, st.point, x.isIP);
      var (response, e) := Reply(outcome, st.entry);
      assert s'.stages[i := Auditing(response, e)] == s.stages[i := Auditing(response, e)];
    }
  }

  /** Alone, the last two steps are `emit`. */
  lemma {:induction false} FinishEmit(x: Setting, i: nat, s: System)
    requires i < |x.xs| == |s.stages| && s.stages[i].Auditing?
    ensures var st := s.stages[i];
            Finish(x, i, s) == System(Emit(s.shared, st.entry, x.xs[i].hooks.emittedAt),
                                      s.stages[i := Ended(st.response, st.entry)], s.checks, s.logged + [i])
  {
    var s1 := Advance(x, i, s);
    var s2 := Advance(x, i, s1);
    assert Finish(x, i, s) == Finish(x, i, s1) == Finish(x, i, s2) == s2;
    assert s2.stages == s.stages[i := Ended(s.stages[i].response, s.stages[i].entry)];
  }

  /** The same from the WAN lookup on. */
  lemma {:induction false} FinishAdmitted(x: Setting, i: nat, s: System)
    requires i < |x.xs| == |s.stages| && s.stages[i].ReadingWan? && Named(x.cfg, x.xs[i].req)
    ensures var r := Authorised(x.cfg, x.isIP, x.xs[i].req, x.xs[i].hooks, s.shared, s.stages[i].entry);
            Finish(x, i, s) == System(r.state, s.stages[i := Ended(r.response, r.entry)], s.checks, s.logged + [i])
  {
    var h, s1 := x.xs[i].hooks, Advance(x, i, s);
    assert Finish(x, i, s) == Finish(x, i, s1);
    if h.wan.WanFound? {
      var st := s1.stages[i];
      U.SoloRunIsUpdate(x.cfg.update, JobOf(x, i, st.q), s1.shared.world, x.isIP);
      FinishUpdate(x, i, s1);
      var (w, outcome) := U.Finish(x.cfg.update, JobOf(x, i, st.q), s1.shared.world, st.point, x.isIP);
      var (response, e) := Reply(outcome, st.entry);
      var s2 := s1.(shared := s1.shared.(world := w), stages := s1.stages[i := Auditing(response, e)]);
      FinishEmit(x, i, s2);
      assert s2.stages[i := Ended(response, e)] == s.stages[i := Ended(response, e)];
    } else {
      FinishEmit(x, i, s1);
      assert s1.stages[i := Ended(s1.stages[i].response, s1.stages[i].entry)]
          == s.stages[i := Ended(s1.stages[i].response, s1.stages[i].entry)];
    }
  }

  /** The steps, taken without interruption, are the handler: same reply, entry and state. */
  lemma {:induction false} SoloRequestIsServe(x: Setting, i: nat, s: System)
    requires i < |x.xs| == |s.stages| && s.stages[i] == Arrived
    ensures var r := ServeStep(x.cfg, x.isIP, x.xs[i].req, x.xs[i].hooks, s.shared);
            Finish(x, i, s) == System(r.state, s.stages[i := Ended(r.response, r.entry)],
                                      s.checks + (if Checked(x.cfg, x.xs[i].req) then [i] else []), s.logged + [i])
  {
    var s1 := Advance(x, i, s);
    assert Finish(x, i, s) == Finish(x, i, s1);
    if Checked(x.cfg, x.xs[i].req) {
      var s2 := Advance(x, i, s1);
      assert Finish(x, i, s1) == Finish(x, i, s2);
      FinishChecked(x, i, s, s2);
    } else {
      FinishEmit(x, i, s1);
      assert s1.stages[i := Ended(s1.stages[i].response, s1.stages[i].entry)]
          == s.stages[i := Ended(s1.stages[i].response, s1.stages[i].entry)];
      assert s.checks + [] == s.checks;
    }
  }

  lemma {:induction false} FinishChecked(x: Setting, i: nat, s: System, s2: System)
    requires i < |x.xs| == |s.stages| && Checked(x.cfg, x.xs[i].req)
    requires var (auth', r) := CheckStep(s.shared.auth, x.xs[i].hooks.checkedAt, Matches(x, i));
             s2 == System(s.shared.(auth := auth'), s.stages[i := AfterCheck(x.cfg, x.xs[i].req, r)],
                          s.checks + [i], s.logged)
    ensures var r := ServeStep(x.cfg, x.isIP, x.xs[i].req, x.xs[i].hooks, s.shared);
            Finish(x, i, s2) == System(r.state, s.stages[i := Ended(r.response, r.entry)], s.checks + [i], s.logged + [i])
  {
    if s2.stages[i].ReadingWan? {
      FinishAdmitted(x, i, s2);
    } else {
      FinishEmit(x, i, s2);
    }
    var r := ServeStep(x.cfg, x.isIP, x.xs[i].req, x.xs[i].hooks, s.shared);
    assert s2.stages[i := Ended(r.response, r.entry)] == s.stages[i := Ended(r.response, r.entry)];
  }

  // ---------------------------------------------------------------- schedules

  /** A request takes its next step, or someone else changes the record, the cache, or both. */
  datatype Move = Step(i: nat) | Outside(world: World)

  function Start(x: Setting, w: World): System {
    System(ServerState(FRESH, w, [], []), seq(|x.xs|, _ => Arrived), [], [])
  }

  function Apply(x: Setting, s: System, m: Move): (s': System)
    requires |s.stages| == |x.xs|
    ensures |s'.stages| == |x.xs|
  {
    match m
    case Outside(w) => s.(shared := s.shared.(world := w))
    case Step(i) => if i < |x.xs| then Advance(x, i, s) else s
  }

  /** A fresh listener after a schedule; requests that a schedule never moves have not arrived. */
  function After(x: Setting, w: World, sched: seq<Move>): (s: System)
    ensures |s.stages| == |x.xs|
  {
    if sched == [] then Start(x, w) else Apply(x, After(x, w, sched[..|sched| - 1]), sched[|sched| - 1])
  }

  function CallAt(x: Setting, i: nat): Call {
    if i < |x.xs| then Call(x.xs[i].hooks.checkedAt, Matches(x, i)) else Call(0, false)
  }

  /** The password checks as calls of the authenticator, in the order of its mutex. */
  function Calls(x: Setting, checks: seq<nat>): (h: seq<Call>)
    ensures |h| == |checks|
  {
    seq(|checks|, k requires 0 <= k < |checks| => CallAt(x, checks[k]))
  }

  function Answers(x: Setting, checks: seq<nat>): (rs: seq<AuthResult>)
    ensures |rs| == |checks|
  {
    Results(FRESH, Calls(x, checks))
  }

  lemma OneMoreResult(a: AuthState, before: seq<Call>, c: Call)
    ensures var (s', r) := CheckStep(Final(a, before), c.now, c.matches);
            Final(a, before + [c]) == s' && Results(a, before + [c]) == Results(a, before) + [r]
  {
    var (s', r) := CheckStep(Final(a, before), c.now, c.matches);
    RunSplit(a, before, [c]);
    assert Results(Final(a, before), [c]) == [r];
    assert Final(Final(a, before), [c]) == s';
  }

  lemma OneMoreCheck(x: Setting, checks: seq<nat>, i: nat)
    ensures var (s', r) := CheckStep(Final(FRESH, Calls(x, checks)), CallAt(x, i).now, CallAt(x, i).matches);
            Final(FRESH, Calls(x, checks + [i])) == s' && Answers(x, checks + [i]) == Answers(x, checks) + [r]
  {
    assert Calls(x, checks + [i]) == Calls(x, checks) + [CallAt(x, i)];
    OneMoreResult(FRESH, Calls(x, checks), CallAt(x, i));
  }

  /** Request `i` made check `k` and got the answer `r`. */
  predicate AnswerWas(x: Setting, checks: seq<nat>, i: nat, k: nat, r: AuthResult) {
    k < |checks| && checks[k] == i && Answers(x, checks)[k] == r
  }

  ghost predicate Answered(x: Setting, checks: seq<nat>, i: nat, r: AuthResult) {
    exists k: nat :: AnswerWas(x, checks, i, k, r)
  }

  lemma AnsweredLater(x: Setting, checks: seq<nat>, i: nat, r: AuthResult, j: nat)
    requires Answered(x, checks, i, r)
    ensures Answered(x, checks + [j], i, r)
  {
    var k: nat :| AnswerWas(x, checks, i, k, r);
    OneMoreCheck(x, checks, j);
    assert AnswerWas(x, checks + [j], i, k, r);
  }

  // ---------------------------------------------------------------- what every step keeps

  lemma OutcomesDiffer(r: AuthResult, r': AuthResult)
    ensures OutcomeText(r) == OutcomeText(r') ==> r == r'
    ensures OutcomeText(r) != "" && OutcomeText(r) != "missing"
  {
    assert |"ok"| == 2 && |"bad"| == 3 && |"locked"| == 6 && |"missing"| == 7 && |""| == 0;
  }

  /** The entry gives the answer of its request's own check. */
  ghost predicate OutcomeTrue(x: Setting, checks: seq<nat>, i: nat, e: AuditEntry) {
    forall r: AuthResult :: e.authOutcome == OutcomeText(r) ==> Answered(x, checks, i, r)
  }

  lemma OutcomeStaysTrue(x: Setting, checks: seq<nat>, i: nat, e: AuditEntry, j: nat)
    requires OutcomeTrue(x, checks, i, e)
    ensures OutcomeTrue(x, checks + [j], i, e)
  {
    forall r: AuthResult | e.authOutcome == OutcomeText(r)
      ensures Answered(x, checks + [j], i, r)
    {
      AnsweredLater(x, checks, i, r, j);
    }
  }

  /** Past the password check, with the right password and host name. */
  ghost predicate Admitted(x: Setting, checks: seq<nat>, i: nat)
    requires i < |x.xs|
  {
    Checked(x.cfg, x.xs[i].req) && Answered(x, checks, i, AuthOK) && Named(x.cfg, x.xs[i].req)
  }

  ghost predicate StageOk(x: Setting, checks: seq<nat>, logged: seq<nat>, i: nat, st: Stage)
    requires i < |x.xs|
  {
    match st
    case Arrived => i !in checks && i !in logged
    case Checking => i !in checks && i !in logged && Checked(x.cfg, x.xs[i].req)
    case ReadingWan(e) => i !in logged && OutcomeTrue(x, checks, i, e) && Admitted(x, checks, i)
    case Updating(e, q, p) =>
      && i !in logged && OutcomeTrue(x, checks, i, e) && Admitted(x, checks, i)
      && x.xs[i].hooks.wan == WanFound(q) && U.Holds(p, Dotted(q))
    case Auditing(_, e) => i !in logged && OutcomeTrue(x, checks, i, e)
    case Reporting(_, e) => OutcomeTrue(x, checks, i, e)
    case Ended(_, e) => OutcomeTrue(x, checks, i, e)
  }

  ghost predicate Distinct(s: seq<nat>) {
    forall a, b :: 0 <= a < b < |s| ==> s[a] != s[b]
  }

  ghost predicate ChecksOk(x: Setting, s: System) {
    && s.shared.auth == Final(FRESH, Calls(x, s.checks))
    && Distinct(s.checks)
    && forall k :: 0 <= k < |s.checks| ==> s.checks[k] < |x.xs| && Checked(x.cfg, x.xs[s.checks[k]].req)
  }

  predicate LoggedStage(st: Stage, e: AuditEntry) {
    (st.Reporting? && st.entry == e) || (st.Ended? && st.entry == e)
  }

  ghost predicate LogOk(x: Setting, s: System) {
    && |s.stages| == |x.xs| && |s.logged| == |s.shared.audited| && Distinct(s.logged)
    && forall n :: 0 <= n < |s.logged| ==>
         s.logged[n] < |x.xs| && LoggedStage(s.stages[s.logged[n]], s.shared.audited[n])
  }

  ghost predicate Inv(x: Setting, s: System) {
    && ChecksOk(x, s) && LogOk(x, s)
    && forall i :: 0 <= i < |x.xs| ==> StageOk(x, s.checks, s.logged, i, s.stages[i])
  }

  /** What a step does to the history, and that it leaves the other requests where they are. */
  lemma History(x: Setting, s: System, i: nat)
    requires i < |x.xs| == |s.stages|
    ensures var s' := Advance(x, i, s);
            && s'.checks == (if s.stages[i].Checking? then s.checks + [i] else s.checks)
            && s'.logged == (if s.stages[i].Auditing? then s.logged + [i] else s.logged)
            && forall k :: 0 <= k < |s.stages| && k != i ==> s'.stages[k] == s.stages[k]
  {
  }

  lemma StaysOkAfterCheck(x: Setting, checks: seq<nat>, logged: seq<nat>, i: nat, k: nat, st: Stage)
    requires k < |x.xs| && k != i && StageOk(x, checks, logged, k, st)
    ensures StageOk(x, checks + [i], logged, k, st)
  {
    if st.ReadingWan? || st.Updating? {
      AnsweredLater(x, checks, k, AuthOK, i);
    }
    if !st.Arrived? && !st.Checking? {
      OutcomeStaysTrue(x, checks, k, st.entry, i);
    }
  }

  lemma StaysOkAfterEntry(x: Setting, checks: seq<nat>, logged: seq<nat>, i: nat, k: nat, st: Stage)
    requires k < |x.xs| && k != i && StageOk(x, checks, logged, k, st)
    ensures StageOk(x, checks, logged + [i], k, st)
  {
  }

  lemma OtherKeeps(x: Setting, s: System, i: nat, k: nat)
    requires Inv(x, s) && i < |x.xs| && k < |x.xs| && k != i
    ensures var s' := Advance(x, i, s);
            StageOk(x, s'.checks, s'.logged, k, s'.stages[k])
  {
    assert StageOk(x, s.checks, s.logged, k, s.stages[k]);
    History(x, s, i);
    StaysOkAfterCheck(x, s.checks, s.logged, i, k, s.stages[k]);
    StaysOkAfterEntry(x, s.checks, s.logged, i, k, s.stages[k]);
  }

  lemma AdmitOk(x: Setting, checks: seq<nat>, logged: seq<nat>, i: nat)
    requires i < |x.xs| && i !in checks && i !in logged
    ensures StageOk(x, checks, logged, i, Admit(x.cfg, x.xs[i].req))
  {
    forall r: AuthResult
      ensures OutcomeText(r) != "" && OutcomeText(r) != "missing"
    {
      OutcomesDiffer(r, r);
    }
  }

  lemma AfterCheckOk(x: Setting, checks: seq<nat>, logged: seq<nat>, i: nat, r: AuthResult)
    requires i < |x.xs| && i !in logged && Checked(x.cfg, x.xs[i].req) && Answered(x, checks, i, r)
    ensures StageOk(x, checks, logged, i, AfterCheck(x.cfg, x.xs[i].req, r))
  {
    var st := AfterCheck(x.cfg, x.xs[i].req, r);
    assert st.entry.authOutcome == OutcomeText(r);
    forall r': AuthResult | st.entry.authOutcome == OutcomeText(r')
      ensures Answered(x, checks, i, r')
    {
      OutcomesDiffer(r, r');
    }
  }

  lemma OwnCheckKeeps(x: Setting, s: System, i: nat)
    requires Inv(x, s) && i < |x.xs| && s.stages[i].Checking?
    ensures var s' := Advance(x, i, s);
            StageOk(x, s'.checks, s'.logged, i, s'.stages[i])
  {
    assert StageOk(x, s.checks, s.logged, i, s.stages[i]);
    var r := CheckStep(s.shared.auth, x.xs[i].hooks.checkedAt, Matches(x, i)).1;
    OneMoreCheck(x, s.checks, i);
    assert AnswerWas(x, s.checks + [i], i, |s.checks|, r);
    AfterCheckOk(x, s.checks + [i], s.logged, i, r);
  }

  lemma OwnUpdateKeeps(x: Setting, s: System, i: nat)
    requires Inv(x, s) && i < |x.xs| && s.stages[i].Updating?
    ensures var s' := Advance(x, i, s);
            StageOk(x, s'.checks, s'.logged, i, s'.stages[i])
  {
    var st := s.stages[i];
    assert StageOk(x, s.checks, s.logged, i, st);
    if !st.point.Finished? {
      DottedIsAddress(st.q);
      PointStays(x, i, st.q, s.shared.world, st.point);
    }
  }

  lemma PointStays(x: Setting, i: nat, q: IPv4, w: World, p: U.Point)
    requires i < |x.xs| && U.Holds(p, Dotted(q)) && Dotted(q) != ""
    ensures U.Holds(U.Advance(x.cfg.update, JobOf(x, i, q), w, p, x.isIP).1, Dotted(q))
  {
  }

  lemma OwnKeeps(x: Setting, s: System, i: nat)
    requires Inv(x, s) && i < |x.xs|
    ensures var s' := Advance(x, i, s);
            StageOk(x, s'.checks, s'.logged, i, s'.stages[i])
  {
    var st := s.stages[i];
    assert StageOk(x, s.checks, s.logged, i, st);
    match st {
      case Arrived => AdmitOk(x, s.checks, s.logged, i);
      case Checking => OwnCheckKeeps(x, s, i);
      case Updating(_, _, _) => OwnUpdateKeeps(x, s, i);
      case _ =>
    }
  }

  lemma LogKeeps(x: Setting, s: System, i: nat)
    requires Inv(x, s) && i < |x.xs|
    ensures LogOk(x, Advance(x, i, s))
  {
    var s' := Advance(x, i, s);
    assert StageOk(x, s.checks, s.logged, i, s.stages[i]);
    forall n | 0 <= n < |s'.logged|
      ensures s'.logged[n] < |x.xs| && LoggedStage(s'.stages[s'.logged[n]], s'.shared.audited[n])
    {
      if n < |s.logged| {
        assert LoggedStage(s.stages[s.logged[n]], s.shared.audited[n]);
      }
    }
  }

  lemma DistinctSnoc(s: seq<nat>, i: nat)
    requires Distinct(s) && i !in s
    ensures Distinct(s + [i])
  {
  }

  /** Only a check touches the lockout state. */
  lemma AuthHistory(x: Setting, s: System, i: nat)
    requires i < |x.xs| == |s.stages|
    ensures Advance(x, i, s).shared.auth ==
              if s.stages[i].Checking? then CheckStep(s.shared.auth, CallAt(x, i).now, CallAt(x, i).matches).0
              else s.shared.auth
  {
  }

  lemma ChecksKeep(x: Setting, s: System, i: nat)
    requires ChecksOk(x, s) && i < |x.xs| == |s.stages| && StageOk(x, s.checks, s.logged, i, s.stages[i])
    ensures ChecksOk(x, Advance(x, i, s))
  {
    History(x, s, i);
    AuthHistory(x, s, i);
    if s.stages[i].Checking? {
      OneMoreCheck(x, s.checks, i);
      DistinctSnoc(s.checks, i);
    }
  }

  lemma {:induction false} ScheduleKeepsInv(x: Setting, w: World, sched: seq<Move>)
    ensures Inv(x, After(x, w, sched))
  {
    if sched != [] {
      var s, m := After(x, w, sched[..|sched| - 1]), sched[|sched| - 1];
      ScheduleKeepsInv(x, w, sched[..|sched| - 1]);
      if m.Step? && m.i < |x.xs| {
        assert StageOk(x, s.checks, s.logged, m.i, s.stages[m.i]);
        ChecksKeep(x, s, m.i);
        LogKeeps(x, s, m.i);
        OwnKeeps(x, s, m.i);
        forall k | 0 <= k < |x.xs| && k != m.i
          ensures StageOk(x, Advance(x, m.i, s).checks, Advance(x, m.i, s).logged, k, Advance(x, m.i, s).stages[k])
        {
          OtherKeeps(x, s, m.i, k);
        }
      }
    }
  }

  // ---------------------------------------------------------------- the gate

  /** The lockout state is the authenticator's, run on the checks in mutex order; only requests from
      an allowed peer, with method GET and a password, make one, and none makes two. */
  lemma AuthFollowsChecks(x: Setting, w: World, sched: seq<Move>)
    ensures var s := After(x, w, sched);
            && s.shared.auth == Final(FRESH, Calls(x, s.checks)) && Distinct(s.checks)
            && forall k :: 0 <= k < |s.checks| ==> s.checks[k] < |x.xs| && Checked(x.cfg, x.xs[s.checks[k]].req)
  {
    ScheduleKeepsInv(x, w, sched);
  }

  /** Check `k` of the run was this request's, with the right password and outside every lockout of
      the policy. */
  ghost predicate RightfulCheck(x: Setting, checks: seq<nat>, i: nat, k: nat)
    requires i < |x.xs|
  {
    && k < |checks| && checks[k] == i && Calls(x, checks)[k] == Call(x.xs[i].hooks.checkedAt, true)
    && !LockedAt(Calls(x, checks), k)
  }

  /** What entitles a request to write the record: an allowed peer, GET, the right password outside
      every lockout of the policy, and the configured host name up to ASCII case; and what it writes
      reads back as the WAN address it read. */
  ghost predicate Entitled(x: Setting, checks: seq<nat>, i: nat, written: string)
    requires i < |x.xs|
  {
    && Checked(x.cfg, x.xs[i].req) && x.xs[i].req.password.value == x.cfg.secret
    && (exists k: nat :: RightfulCheck(x, checks, i, k))
    && Named(x.cfg, x.xs[i].req)
    && x.xs[i].hooks.wan.WanFound? && ReadDotted(written) == Some(x.xs[i].hooks.wan.q)
  }

  lemma AdmittedIsRightful(x: Setting, checks: seq<nat>, i: nat)
    requires i < |x.xs| && Monotone(Calls(x, checks)) && Answered(x, checks, i, AuthOK)
    ensures Matches(x, i) && exists k: nat :: RightfulCheck(x, checks, i, k)
  {
    var k: nat :| AnswerWas(x, checks, i, k, AuthOK);
    RunFollowsPolicy(Calls(x, checks), k);
    assert Calls(x, checks)[k] == CallAt(x, i);
    assert RightfulCheck(x, checks, i, k);
  }

  predicate Upserts(s: System, i: nat)
    requires i < |s.stages|
  {
    s.stages[i].Updating? && s.stages[i].point.Upserting?
  }

  /** Whatever the interleaving: a request about to call UpdateIP is entitled to, given the checks
      made so far in mutex order, and its call writes exactly the address it is entitled to. */
  lemma RunGate(x: Setting, w: World, sched: seq<Move>, i: nat)
    requires i < |x.xs| && Upserts(After(x, w, sched), i) && Monotone(Calls(x, After(x, w, sched).checks))
    ensures var s := After(x, w, sched);
            && Entitled(x, s.checks, i, s.stages[i].point.ip)
            && Apply(x, s, Step(i)).shared.world ==
                 AfterUpsert(s.shared.world, s.stages[i].point.ip, x.xs[i].hooks.update.upsert)
  {
    var s := After(x, w, sched);
    ScheduleKeepsInv(x, w, sched);
    assert StageOk(x, s.checks, s.logged, i, s.stages[i]);
    AdmittedIsRightful(x, s.checks, i);
    DottedReads(x.xs[i].hooks.wan.q);
  }

  /** And nothing else in the listener moves the record. */
  lemma OnlyUpsertsMove(x: Setting, s: System, i: nat)
    requires i < |x.xs| == |s.stages| && !Upserts(s, i)
    ensures Advance(x, i, s).shared.world.record == s.shared.world.record
  {
  }

  // ---------------------------------------------------------------- the guessing bound, in the log

  /** How many entries say "bad". */
  function BadEntries(es: seq<AuditEntry>): nat {
    if es == [] then 0 else BadEntries(es[..|es| - 1]) + if es[|es| - 1].authOutcome == "bad" then 1 else 0
  }

  predicate CheckWithin(checks: seq<nat>, i: nat, p: nat, q: nat) {
    exists k :: p <= k <= q && k < |checks| && checks[k] == i
  }

  /** The numbers of the checks from `p` to `q` that compared a wrong password. */
  ghost function GuessesIn(rs: seq<AuthResult>, p: nat, q: nat): (ks: set<nat>)
    requires p <= q <= |rs|
    ensures forall k :: k in ks <==> p <= k < q && rs[k] == AuthBadCredentials
  {
    set k | p <= k < q && rs[k] == AuthBadCredentials
  }

  lemma {:induction false} GuessesAreCounted(rs: seq<AuthResult>, p: nat, q: nat)
    requires p <= q <= |rs|
    ensures |GuessesIn(rs, p, q)| == Guesses(rs[p..q])
  {
    if p < q {
      GuessesAreCounted(rs, p, q - 1);
      OneMoreCounted(rs, p, q - 1);
      assert rs[p..q] == rs[p..q - 1] + [rs[q - 1]];
      CountAppend(rs[p..q - 1], [rs[q - 1]], AuthBadCredentials);
    } else {
      assert rs[p..q] == [] && GuessesIn(rs, p, q) == {};
    }
  }

  lemma OneMoreCounted(rs: seq<AuthResult>, p: nat, q: nat)
    requires p <= q < |rs|
    ensures |GuessesIn(rs, p, q + 1)| == |GuessesIn(rs, p, q)| + Count([rs[q]], AuthBadCredentials)
  {
    var more := if rs[q] == AuthBadCredentials then {q} else {};
    assert GuessesIn(rs, p, q + 1) == GuessesIn(rs, p, q) + more && GuessesIn(rs, p, q) !! more;
  }

  /** If the entry of request `i` says "bad", it stands for a check from `p` to `q` with that answer. */
  ghost predicate BackedEntry(x: Setting, checks: seq<nat>, i: nat, e: AuditEntry, p: nat, q: nat) {
    e.authOutcome == "bad" ==> exists k: nat :: p <= k <= q && AnswerWas(x, checks, i, k, AuthBadCredentials)
  }

  ghost predicate Backed(x: Setting, checks: seq<nat>, logged: seq<nat>, es: seq<AuditEntry>, p: nat, q: nat) {
    |logged| == |es| && forall n :: 0 <= n < |es| ==> BackedEntry(x, checks, logged[n], es[n], p, q)
  }

  /** Wrong passwords compared from `p` to `q`, each by a request of the stretch. */
  ghost predicate SoundChecks(x: Setting, checks: seq<nat>, logged: seq<nat>, ks: set<nat>, p: nat, q: nat) {
    forall k :: k in ks ==> p <= k <= q && k < |checks| && Answers(x, checks)[k] == AuthBadCredentials && checks[k] in logged
  }

  lemma OneMoreBad(x: Setting, checks: seq<nat>, logged: seq<nat>, i: nat, ks: set<nat>, k: nat, p: nat, q: nat)
    requires Distinct(logged + [i]) && SoundChecks(x, checks, logged, ks, p, q)
    requires p <= k <= q && AnswerWas(x, checks, i, k, AuthBadCredentials)
    ensures k !in ks && |ks + {k}| == |ks| + 1 && SoundChecks(x, checks, logged + [i], ks + {k}, p, q)
  {
    var all := logged + [i];
    forall n | 0 <= n < |logged|
      ensures logged[n] != i
    {
      assert all[n] == logged[n] && all[|logged|] == i;
    }
  }

  lemma OneMoreEntry(x: Setting, checks: seq<nat>, logged: seq<nat>, i: nat, ks: set<nat>, p: nat, q: nat)
    requires SoundChecks(x, checks, logged, ks, p, q)
    ensures SoundChecks(x, checks, logged + [i], ks, p, q)
  {
  }

  /** Different entries stand for different checks. */
  lemma {:induction false} BadEntriesAreChecks(x: Setting, checks: seq<nat>, logged: seq<nat>, es: seq<AuditEntry>,
                                               p: nat, q: nat)
    returns (ks: set<nat>)
    requires Distinct(logged) && Backed(x, checks, logged, es, p, q)
    ensures |ks| == BadEntries(es) && SoundChecks(x, checks, logged, ks, p, q)
  {
    ks := {};
    if es != [] {
      var n := |es| - 1;
      ks := BadEntriesAreChecks(x, checks, logged[..n], es[..n], p, q);
      assert logged[..n] + [logged[n]] == logged;
      assert BackedEntry(x, checks, logged[n], es[n], p, q);
      if es[n].authOutcome == "bad" {
        var k: nat :| p <= k <= q && AnswerWas(x, checks, logged[n], k, AuthBadCredentials);
        OneMoreBad(x, checks, logged[..n], logged[n], ks, k, p, q);
        ks := ks + {k};
      } else {
        OneMoreEntry(x, checks, logged[..n], logged[n], ks, p, q);
      }
    }
  }

  lemma StretchIsBacked(x: Setting, s: System, a: nat, b: nat, p: nat, q: nat)
    requires Inv(x, s) && a <= b <= |s.shared.audited|
    requires forall n :: a <= n < b && s.shared.audited[n].authOutcome == "bad" ==> CheckWithin(s.checks, s.logged[n], p, q)
    ensures Backed(x, s.checks, s.logged[a..b], s.shared.audited[a..b], p, q)
  {
    var logged, es := s.logged[a..b], s.shared.audited[a..b];
    forall n | 0 <= n < |es|
      ensures BackedEntry(x, s.checks, logged[n], es[n], p, q)
    {
      assert logged[n] == s.logged[a + n] && es[n] == s.shared.audited[a + n];
      if es[n].authOutcome == "bad" {
        EntryIsBacked(x, s, a + n, p, q);
      }
    }
  }

  lemma EntryIsBacked(x: Setting, s: System, n: nat, p: nat, q: nat)
    requires Inv(x, s) && n < |s.shared.audited| && s.shared.audited[n].authOutcome == "bad"
    requires CheckWithin(s.checks, s.logged[n], p, q)
    ensures BackedEntry(x, s.checks, s.logged[n], s.shared.audited[n], p, q)
  {
    var i := s.logged[n];
    assert LoggedStage(s.stages[i], s.shared.audited[n]);
    assert StageOk(x, s.checks, s.logged, i, s.stages[i]);
    assert s.shared.audited[n].authOutcome == OutcomeText(AuthBadCredentials);
    var j: nat :| AnswerWas(x, s.checks, i, j, AuthBadCredentials);
    var k :| p <= k <= q && k < |s.checks| && s.checks[k] == i;
    assert j == k;
  }

  /** A stretch of the log, from entry `a` to `b`, none of whose "bad" entries has its check before check
      `p` or after check `q`. */
  ghost predicate Covers(s: System, a: nat, b: nat, p: nat, q: nat) {
    && a <= b <= |s.shared.audited| == |s.logged| && p <= q < |s.checks|
    && forall n :: a <= n < b && s.shared.audited[n].authOutcome == "bad" ==> CheckWithin(s.checks, s.logged[n], p, q)
  }

  /** At most 4 * floor(T / 60s) + 5 entries "bad", T being the time between the two checks, and four
      more for every successful check between them; none more if there is none. (WholeMinutes is that
      floor, by MinutesCounted.) */
  predicate KeepsBound(x: Setting, checks: seq<nat>, es: seq<AuditEntry>, p: nat, q: nat)
    requires p <= q < |checks|
  {
    var minutes := WholeMinutes(Calls(x, checks)[q].now - Calls(x, checks)[p].now);
    var between := Answers(x, checks)[p..q + 1];
    && BadEntries(es) <= 4 * minutes + 5 + 4 * Successes(between)
    && (AuthOK !in between ==> BadEntries(es) <= 4 * minutes + 5)
  }

  /** Whatever the interleaving, every stretch of the audit log keeps to the bound; the successful
      checks count whether or not they have been logged. */
  lemma LoggedGuessBound(x: Setting, w: World, sched: seq<Move>, a: nat, b: nat, p: nat, q: nat)
    requires Covers(After(x, w, sched), a, b, p, q) && Monotone(Calls(x, After(x, w, sched).checks))
    ensures KeepsBound(x, After(x, w, sched).checks, After(x, w, sched).shared.audited[a..b], p, q)
  {
    ScheduleKeepsInv(x, w, sched);
    StretchCounted(x, After(x, w, sched), a, b, p, q);
    CountBounded(x, After(x, w, sched).checks, After(x, w, sched).shared.audited[a..b], p, q);
  }

  /** No more "bad" entries in the stretch than wrong passwords among its checks. */
  lemma StretchCounted(x: Setting, s: System, a: nat, b: nat, p: nat, q: nat)
    requires Inv(x, s) && Covers(s, a, b, p, q)
    ensures BadEntries(s.shared.audited[a..b]) <= Guesses(Answers(x, s.checks)[p..q + 1])
  {
    StretchIsBacked(x, s, a, b, p, q);
    SliceDistinct(s.logged, a, b);
    BadEntriesBounded(x, s.checks, s.logged[a..b], s.shared.audited[a..b], p, q);
  }

  lemma CountBounded(x: Setting, checks: seq<nat>, es: seq<AuditEntry>, p: nat, q: nat)
    requires p <= q < |checks| && Monotone(Calls(x, checks))
    requires BadEntries(es) <= Guesses(Answers(x, checks)[p..q + 1])
    ensures KeepsBound(x, checks, es, p, q)
  {
    GuessBoundCounted(Calls(x, checks), p, q);
  }

  lemma SliceDistinct(s: seq<nat>, a: nat, b: nat)
    requires Distinct(s) && a <= b <= |s|
    ensures Distinct(s[a..b])
  {
  }

  lemma BadEntriesBounded(x: Setting, checks: seq<nat>, logged: seq<nat>, es: seq<AuditEntry>, p: nat, q: nat)
    requires Distinct(logged) && p <= q < |checks| && Backed(x, checks, logged, es, p, q)
    ensures BadEntries(es) <= Guesses(Answers(x, checks)[p..q + 1])
  {
    var ks := BadEntriesAreChecks(x, checks, logged, es, p, q);
    GuessesAreCounted(Answers(x, checks), p, q + 1);
    Smaller(ks, GuessesIn(Answers(x, checks), p, q + 1));
  }

  lemma Smaller(a: set<nat>, b: set<nat>)
    requires a <= b
    ensures |a| <= |b|
  {
    assert b == a + (b - a);
  }

  // ---------------------------------------------------------------- logs that reach the bound

  /** And then one round of a request: it arrives, its password is checked, and it is logged if that
      failed. */
  function ThenRound(sched: seq<Move>, i: nat, r: AuthResult): seq<Move> {
    var checked := sched + [Step(i)] + [Step(i)];
    if r == AuthOK then checked else checked + [Step(i)]
  }

  function Upto(n: nat): (s: seq<nat>)
    ensures |s| == n && forall k :: 0 <= k < n ==> s[k] == k
  {
    seq(n, k => k)
  }

  /** The requests make their checks one after another; those with the right password go on to the
      WAN lookup and stay there. */
  function Rounds(x: Setting, n: nat): seq<Move> {
    if n == 0 then [] else ThenRound(Rounds(x, n - 1), n - 1, Answers(x, Upto(n))[n - 1])
  }

  lemma {:induction false} AfterAppend(x: Setting, w: World, sched: seq<Move>, m: Move)
    ensures After(x, w, sched + [m]) == Apply(x, After(x, w, sched), m)
  {
    assert (sched + [m])[..|sched|] == sched;
  }

  ghost predicate AllChecked(x: Setting) {
    forall i :: 0 <= i < |x.xs| ==> Checked(x.cfg, x.xs[i].req)
  }

  /** After `n` rounds. */
  ghost predicate RoundsDone(x: Setting, s: System, n: nat) {
    && |s.stages| == |x.xs| && s.checks == Upto(n) && s.shared.auth == Final(FRESH, Calls(x, Upto(n)))
    && (forall i :: n <= i < |x.xs| ==> s.stages[i] == Arrived)
    && |s.logged| == |s.shared.audited|
    && BadEntries(s.shared.audited) == Guesses(Answers(x, Upto(n))) && NoneOk(s.shared.audited)
    && forall k :: 0 <= k < |s.logged| ==> s.logged[k] < n
  }

  ghost predicate NoneOk(es: seq<AuditEntry>) {
    forall n :: 0 <= n < |es| ==> es[n].authOutcome != "ok"
  }

  lemma OneMoreLogged(es: seq<AuditEntry>, e: AuditEntry, rs: seq<AuthResult>, r: AuthResult)
    requires BadEntries(es) == Guesses(rs) && NoneOk(es) && r != AuthOK && e.authOutcome == OutcomeText(r)
    ensures BadEntries(es + [e]) == Guesses(rs + [r]) && NoneOk(es + [e])
  {
    assert (es + [e])[..|es|] == es;
    CountAppend(rs, [r], AuthBadCredentials);
    assert Count([r], AuthBadCredentials) == if r == AuthBadCredentials then 1 else 0;
    OutcomesDiffer(r, AuthOK);
    OutcomesDiffer(r, AuthBadCredentials);
  }

  /** The request arrives and makes its check. */
  lemma RoundChecks(x: Setting, s: System, n: nat)
    requires AllChecked(x) && n < |x.xs| && RoundsDone(x, s, n)
    ensures var s2 := Advance(x, n, Advance(x, n, s));
            var r := CheckStep(s.shared.auth, CallAt(x, n).now, CallAt(x, n).matches).1;
            && |s2.stages| == |x.xs| && s2.checks == Upto(n + 1) && s2.shared.auth == Final(FRESH, Calls(x, Upto(n + 1)))
            && s2.shared.audited == s.shared.audited && s2.logged == s.logged
            && s2.stages[n] == AfterCheck(x.cfg, x.xs[n].req, r)
            && (forall i :: n < i < |x.xs| ==> s2.stages[i] == Arrived)
            && Answers(x, Upto(n + 1)) == Answers(x, Upto(n)) + [r]
  {
    assert Advance(x, n, s).stages[n] == Checking;
    OneMoreCheck(x, Upto(n), n);
    assert Upto(n + 1) == Upto(n) + [n];
  }

  /** The request writes its entry. */
  lemma LogStep(x: Setting, s: System, i: nat)
    requires i < |x.xs| == |s.stages| && s.stages[i].Auditing?
    ensures var s' := Advance(x, i, s);
            && s'.checks == s.checks && s'.shared.auth == s.shared.auth && s'.logged == s.logged + [i]
            && s'.shared.audited == s.shared.audited + [s.stages[i].entry]
            && s'.stages == s.stages[i := Reporting(s.stages[i].response, s.stages[i].entry)]
  {
  }

  lemma RoundAdvances(x: Setting, s: System, n: nat)
    requires AllChecked(x) && n < |x.xs| && RoundsDone(x, s, n)
    ensures RoundsDone(x, RunRound(x, s, n, Answers(x, Upto(n + 1))[n]), n + 1)
  {
    RoundChecks(x, s, n);
    var s2 := Advance(x, n, Advance(x, n, s));
    var r := CheckStep(s.shared.auth, CallAt(x, n).now, CallAt(x, n).matches).1;
    if r == AuthOK {
      CountAppend(Answers(x, Upto(n)), [r], AuthBadCredentials);
      assert Count([r], AuthBadCredentials) == 0;
    } else {
      RefusedRound(x, s, s2, n, r);
    }
  }

  lemma RefusedRound(x: Setting, s: System, s2: System, n: nat, r: AuthResult)
    requires n < |x.xs| == |s2.stages| && RoundsDone(x, s, n) && r != AuthOK
    requires s2.checks == Upto(n + 1) && s2.shared.auth == Final(FRESH, Calls(x, Upto(n + 1)))
    requires s2.shared.audited == s.shared.audited && s2.logged == s.logged
    requires s2.stages[n] == AfterCheck(x.cfg, x.xs[n].req, r)
    requires forall i :: n < i < |x.xs| ==> s2.stages[i] == Arrived
    requires Answers(x, Upto(n + 1)) == Answers(x, Upto(n)) + [r]
    ensures RoundsDone(x, Advance(x, n, s2), n + 1)
  {
    LogStep(x, s2, n);
    OneMoreLogged(s.shared.audited, s2.stages[n].entry, Answers(x, Upto(n)), r);
  }

  function RunRound(x: Setting, s: System, n: nat, r: AuthResult): System
    requires n < |x.xs| == |s.stages|
  {
    var s2 := Advance(x, n, Advance(x, n, s));
    if r == AuthOK then s2 else Advance(x, n, s2)
  }

  lemma AfterRound(x: Setting, w: World, sched: seq<Move>, n: nat, r: AuthResult)
    requires n < |x.xs|
    ensures After(x, w, ThenRound(sched, n, r)) == RunRound(x, After(x, w, sched), n, r)
  {
    var arrived := sched + [Step(n)];
    AfterStep(x, w, sched, n);
    AfterStep(x, w, arrived, n);
    AfterStep(x, w, arrived + [Step(n)], n);
  }

  lemma {:induction false} AfterStep(x: Setting, w: World, sched: seq<Move>, i: nat)
    requires i < |x.xs|
    ensures After(x, w, sched + [Step(i)]) == Advance(x, i, After(x, w, sched))
  {
    AfterAppend(x, w, sched, Step(i));
  }

  lemma RoundsGoOn(x: Setting, w: World, sched: seq<Move>, n: nat)
    requires AllChecked(x) && n < |x.xs| && RoundsDone(x, After(x, w, sched), n)
    ensures RoundsDone(x, After(x, w, ThenRound(sched, n, Answers(x, Upto(n + 1))[n])), n + 1)
  {
    RoundAdvances(x, After(x, w, sched), n);
    AfterRound(x, w, sched, n, Answers(x, Upto(n + 1))[n]);
  }

  lemma {:induction false} NoRounds(x: Setting, w: World)
    ensures RoundsDone(x, Start(x, w), 0)
  {
    assert Calls(x, Upto(0)) == [];
  }

  lemma {:induction false} RoundsState(x: Setting, w: World, n: nat)
    requires AllChecked(x) && n <= |x.xs|
    ensures RoundsDone(x, After(x, w, Rounds(x, n)), n)
  {
    if n > 0 {
      RoundsState(x, w, n - 1);
      RoundsGoOn(x, w, Rounds(x, n - 1), n - 1);
    } else {
      NoRounds(x, w);
    }
  }

  /** Requests whose checks are the calls `h`; "x" makes any password wrong. */
  function RequestsFor(cfg: ServeConfig, addr: string, env: Env, h: seq<Call>): (xs: seq<Exchange>)
    ensures |xs| == |h|
  {
    seq(|h|, k requires 0 <= k < |h| =>
      Exchange(Request(addr, "GET", Some(if h[k].matches then cfg.secret else cfg.secret + "x"), cfg.update.hostname, ""),
               Hooks(h[k].now, WanFails(""), env, 0)))
  }

  lemma RequestsMake(cfg: ServeConfig, isIP: string -> bool, addr: string, env: Env, h: seq<Call>)
    requires cfg.server.Some? && cfg.server.value.allowed(addr)
    ensures var x := Setting(cfg, isIP, RequestsFor(cfg, addr, env, h));
            AllChecked(x) && Calls(x, Upto(|h|)) == h
  {
    var x := Setting(cfg, isIP, RequestsFor(cfg, addr, env, h));
    assert |cfg.secret + "x"| != |cfg.secret|;
    assert forall k :: 0 <= k < |h| ==> CallAt(x, k) == h[k];
  }

  /** The bound of LoggedGuessBound is exact: for every number `n` of successes and every length of time
      there is a run whose log has no "ok" at all, and reaches it. With n = 1 and no time at all the
      log holds nine "bad" entries: four, a right password whose update is still under way, five. */
  lemma LogBoundIsExact(cfg: ServeConfig, isIP: string -> bool, addr: string, env: Env, w: World, n: nat, end: Instant)
    returns (x: Setting, sched: seq<Move>)
    requires cfg.server.Some? && cfg.server.value.allowed(addr)
    ensures x.cfg == cfg
    ensures var s := After(x, w, sched);
            && Spans(Calls(x, s.checks), 0, end) && Successes(Answers(x, s.checks)) == n
            && NoneOk(s.shared.audited) && LoggedBy(s, s.checks)
            && BadEntries(s.shared.audited) == 4 * WholeMinutes(end) + 5 + 4 * n
  {
    var h := GuessBoundIsExact(n, end);
    x := Setting(cfg, isIP, RequestsFor(cfg, addr, env, h));
    RequestsMake(cfg, isIP, addr, env, h);
    sched := Rounds(x, |h|);
    RoundsState(x, w, |h|);
    var s := After(x, w, sched);
    forall k | 0 <= k < |s.logged|
      ensures s.logged[k] in s.checks
    {
      assert s.checks[s.logged[k]] == s.logged[k];
    }
  }

  /** Every entry of the log belongs to a request that made a check. */
  predicate LoggedBy(s: System, checks: seq<nat>) {
    |s.logged| == |s.shared.audited| && forall k :: 0 <= k < |s.logged| ==> s.logged[k] in checks
  }

  /** The whole log keeps to the bound without successes, for the time its checks span. */
  ghost predicate PlainLog(x: Setting, s: System)
    requires s.checks != []
  {
    var last := |s.checks| - 1;
    BadEntries(s.shared.audited) <= 4 * WholeMinutes(Calls(x, s.checks)[last].now - Calls(x, s.checks)[0].now) + 5
  }

  /** A run with `n` successful checks, a log without "ok", and checks in time order. */
  ghost predicate QuietRun(x: Setting, s: System, n: nat) {
    && s.checks != [] && Monotone(Calls(x, s.checks)) && Successes(Answers(x, s.checks)) == n
    && NoneOk(s.shared.audited) && LoggedBy(s, s.checks)
  }

  /** The exact condition: a log without "ok" is sure to keep to 4 * floor(T / 60s) + 5 if and only if
      no successful check falls among its checks. */
  lemma PlainLogIff(cfg: ServeConfig, isIP: string -> bool, addr: string, env: Env, n: nat)
    requires cfg.server.Some? && cfg.server.value.allowed(addr)
    ensures (forall x: Setting, w, sched ::
               x.cfg == cfg && QuietRun(x, After(x, w, sched), n) ==> PlainLog(x, After(x, w, sched)))
            <==> n == 0
  {
    if n == 0 {
      forall x: Setting, w, sched | x.cfg == cfg && QuietRun(x, After(x, w, sched), 0)
        ensures PlainLog(x, After(x, w, sched))
      {
        var s := After(x, w, sched);
        QuietIsCovered(x, s, 0);
        LoggedGuessBound(x, w, sched, 0, |s.shared.audited|, 0, |s.checks| - 1);
        QuietLogIsPlain(x, s);
      }
    } else {
      var w := World(None, None);
      var x, sched := LogBoundIsExact(cfg, isIP, addr, env, w, n, 0);
      var s := After(x, w, sched);
      assert QuietRun(x, s, n) && !PlainLog(x, s);
    }
  }

  lemma QuietIsCovered(x: Setting, s: System, n: nat)
    requires QuietRun(x, s, n)
    ensures Covers(s, 0, |s.shared.audited|, 0, |s.checks| - 1)
  {
    LoggedWithin(s);
  }

  lemma QuietLogIsPlain(x: Setting, s: System)
    requires QuietRun(x, s, 0) && Covers(s, 0, |s.shared.audited|, 0, |s.checks| - 1)
    requires KeepsBound(x, s.checks, s.shared.audited[0..|s.shared.audited|], 0, |s.checks| - 1)
    ensures PlainLog(x, s)
  {
    AllAnswers(x, s.checks);
    assert s.shared.audited[0..|s.shared.audited|] == s.shared.audited;
  }

  lemma AllAnswers(x: Setting, checks: seq<nat>)
    requires checks != []
    ensures Answers(x, checks)[0..|checks| - 1 + 1] == Answers(x, checks)
    ensures Successes(Answers(x, checks)) == 0 ==> AuthOK !in Answers(x, checks)
  {
    CountNone(Answers(x, checks), AuthOK);
  }

  lemma LoggedWithin(s: System)
    requires s.checks != [] && LoggedBy(s, s.checks)
    ensures forall n :: 0 <= n < |s.logged| ==> CheckWithin(s.checks, s.logged[n], 0, |s.checks| - 1)
  {
    forall n | 0 <= n < |s.logged|
      ensures CheckWithin(s.checks, s.logged[n], 0, |s.checks| - 1)
    {
      var k :| 0 <= k < |s.checks| && s.checks[k] == s.logged[n];
    }
  }

  // ---------------------------------------------------------------- the claimed address does not matter

  /** The same requests, up to what `myip` claims. */
  ghost predicate SameButMyIP(x: Setting, y: Setting) {
    && y.cfg == x.cfg && y.isIP == x.isIP && |x.xs| == |y.xs|
    && forall i :: 0 <= i < |x.xs| ==> y.xs[i] == x.xs[i].(req := x.xs[i].req.(myip := y.xs[i].req.myip))
  }

  function Unclaimed(e: AuditEntry): AuditEntry {
    e.(myIPClaimed := "")
  }

  function UnclaimedAll(es: seq<AuditEntry>): seq<AuditEntry> {
    seq(|es|, i requires 0 <= i < |es| => Unclaimed(es[i]))
  }

  function UnclaimedStage(st: Stage): Stage {
    match st
    case Arrived => st
    case Checking => st
    case ReadingWan(e) => ReadingWan(Unclaimed(e))
    case Updating(e, q, p) => Updating(Unclaimed(e), q, p)
    case Auditing(r, e) => Auditing(r, Unclaimed(e))
    case Reporting(r, e) => Reporting(r, Unclaimed(e))
    case Ended(r, e) => Ended(r, Unclaimed(e))
  }

  ghost predicate AlikeShared(a: ServerState, b: ServerState) {
    && a.auth == b.auth && a.world == b.world && a.snapshots == b.snapshots
    && UnclaimedAll(a.audited) == UnclaimedAll(b.audited)
  }

  /** The same lockout state, record, cache, snapshots, replies and order of events, and the same
      entries but for the claim. */
  ghost predicate Alike(a: System, b: System) {
    && AlikeShared(a.shared, b.shared) && a.checks == b.checks && a.logged == b.logged
    && StagesAlike(a.stages, b.stages)
  }

  lemma EntriesStayAlike(a: seq<AuditEntry>, b: seq<AuditEntry>, e: AuditEntry, f: AuditEntry)
    requires UnclaimedAll(a) == UnclaimedAll(b) && Unclaimed(e) == Unclaimed(f)
    ensures UnclaimedAll(a + [e]) == UnclaimedAll(b + [f])
  {
    assert UnclaimedAll(a + [e]) == UnclaimedAll(a) + [Unclaimed(e)];
    assert UnclaimedAll(b + [f]) == UnclaimedAll(b) + [Unclaimed(f)];
  }

  lemma ReplyAlike(o: Outcome, e: AuditEntry, f: AuditEntry)
    requires Unclaimed(e) == Unclaimed(f)
    ensures Reply(o, e).0 == Reply(o, f).0 && Unclaimed(Reply(o, e).1) == Unclaimed(Reply(o, f).1)
  {
  }

  ghost predicate StagesAlike(a: seq<Stage>, b: seq<Stage>) {
    |a| == |b| && forall i :: 0 <= i < |a| ==> UnclaimedStage(a[i]) == UnclaimedStage(b[i])
  }

  lemma UpdatedAlike(a: seq<Stage>, b: seq<Stage>, i: nat, u: Stage, v: Stage)
    requires StagesAlike(a, b) && i < |a| && UnclaimedStage(u) == UnclaimedStage(v)
    ensures StagesAlike(a[i := u], b[i := v])
  {
  }

  lemma AfterCheckAlike(cfg: ServeConfig, req: Request, myip: string, r: AuthResult)
    ensures UnclaimedStage(AfterCheck(cfg, req, r)) == UnclaimedStage(AfterCheck(cfg, req.(myip := myip), r))
  {
  }

  /** The next stage, and what the step does to the shared state. */
  lemma NextAlike(x: Setting, y: Setting, i: nat, a: System, b: System)
    requires SameButMyIP(x, y) && i < |x.xs| == |a.stages| && Alike(a, b)
    ensures UnclaimedStage(Advance(x, i, a).stages[i]) == UnclaimedStage(Advance(y, i, b).stages[i])
    ensures Advance(x, i, a).stages == a.stages[i := Advance(x, i, a).stages[i]]
    ensures Advance(y, i, b).stages == b.stages[i := Advance(y, i, b).stages[i]]
  {
    var st, st' := a.stages[i], b.stages[i];
    assert UnclaimedStage(st) == UnclaimedStage(st');
    if st.Updating? && st.point.Finished? {
      ReplyAlike(st.point.outcome, st.entry, st'.entry);
    } else if st.Checking? {
      AfterCheckAlike(x.cfg, x.xs[i].req, y.xs[i].req.myip,
                      CheckStep(a.shared.auth, x.xs[i].hooks.checkedAt, Matches(x, i)).1);
    }
  }

  lemma SharedAlike(x: Setting, y: Setting, i: nat, a: System, b: System)
    requires SameButMyIP(x, y) && i < |x.xs| == |a.stages| && Alike(a, b)
    ensures AlikeShared(Advance(x, i, a).shared, Advance(y, i, b).shared)
    ensures Advance(x, i, a).checks == Advance(y, i, b).checks && Advance(x, i, a).logged == Advance(y, i, b).logged
  {
    var st, st' := a.stages[i], b.stages[i];
    assert UnclaimedStage(st) == UnclaimedStage(st');
    if st.Auditing? {
      EntriesStayAlike(a.shared.audited, b.shared.audited, st.entry, st'.entry);
    }
  }

  lemma StepAlike(x: Setting, y: Setting, i: nat, a: System, b: System)
    requires SameButMyIP(x, y) && i < |x.xs| == |a.stages| && Alike(a, b)
    ensures Alike(Advance(x, i, a), Advance(y, i, b))
  {
    NextAlike(x, y, i, a, b);
    SharedAlike(x, y, i, a, b);
    UpdatedAlike(a.stages, b.stages, i, Advance(x, i, a).stages[i], Advance(y, i, b).stages[i]);
  }

  /** Two runs of the same schedule that differ only in the `myip` values: the same replies, record,
      cache, lockout state and status snapshots, and audit entries that differ at most in
      `MyIPClaimed`. */
  lemma {:induction false} MyIPIsIgnored(x: Setting, y: Setting, w: World, sched: seq<Move>)
    requires SameButMyIP(x, y)
    ensures Alike(After(x, w, sched), After(y, w, sched))
  {
    if sched != [] {
      var front, m := sched[..|sched| - 1], sched[|sched| - 1];
      MyIPIsIgnored(x, y, w, front);
      if m.Step? && m.i < |x.xs| {
        StepAlike(x, y, m.i, After(x, w, front), After(y, w, front));
      }
    }
  }

  // ---------------------------------------------------------------- what a reply tells about the secret

  /** The same listener and the same requests, up to the secret and the passwords. */
  ghost predicate SameButPasswords(x: Setting, y: Setting) {
    && y.cfg == x.cfg.(secret := y.cfg.secret) && y.isIP == x.isIP && |x.xs| == |y.xs|
    && forall i :: 0 <= i < |x.xs| ==>
         && y.xs[i] == x.xs[i].(req := x.xs[i].req.(password := y.xs[i].req.password))
         && (x.xs[i].req.password.Some? <==> y.xs[i].req.password.Some?)
  }

  /** If this move is a password check, it compares alike on both sides, or it finds a lockout. */
  predicate ComparesAlike(x: Setting, y: Setting, s: System, m: Move)
    requires |x.xs| == |y.xs| == |s.stages|
  {
    m.Step? && m.i < |x.xs| && s.stages[m.i].Checking? ==>
      Matches(x, m.i) == Matches(y, m.i) || x.xs[m.i].hooks.checkedAt < s.shared.auth.lockedUntil
  }

  /** All that anyone can observe of the secret and the passwords is whether a comparison made outside
      a lockout succeeds: if those agree, the whole run agrees, replies included. */
  lemma {:induction false} OnlyComparisonsShow(x: Setting, y: Setting, w: World, sched: seq<Move>)
    requires SameButPasswords(x, y)
    requires forall n :: 0 <= n < |sched| ==> ComparesAlike(x, y, After(x, w, sched[..n]), sched[n])
    ensures After(x, w, sched) == After(y, w, sched)
  {
    if sched != [] {
      var n := |sched| - 1;
      forall k | 0 <= k < n
        ensures ComparesAlike(x, y, After(x, w, sched[..n][..k]), sched[..n][k])
      {
        assert sched[..n][..k] == sched[..k];
        assert ComparesAlike(x, y, After(x, w, sched[..k]), sched[k]);
      }
      OnlyComparisonsShow(x, y, w, sched[..n]);
      assert ComparesAlike(x, y, After(x, w, sched[..n]), sched[n]);
      if sched[n].Step? && sched[n].i < |x.xs| {
        SameStep(x, y, sched[n].i, After(x, w, sched[..n]));
      }
    }
  }

  lemma SameStep(x: Setting, y: Setting, i: nat, s: System)
    requires SameButPasswords(x, y) && i < |x.xs| == |s.stages| && ComparesAlike(x, y, s, Step(i))
    ensures Advance(x, i, s) == Advance(y, i, s)
  {
  }

  /** Two listeners with different secrets cannot be told apart by requests that present neither. */
  lemma SecretDoesNotShow(x: Setting, y: Setting, w: World, sched: seq<Move>)
    requires y == x.(cfg := x.cfg.(secret := y.cfg.secret))
    requires forall i :: 0 <= i < |x.xs| ==>
               x.xs[i].req.password != Some(x.cfg.secret) && x.xs[i].req.password != Some(y.cfg.secret)
    ensures After(x, w, sched) == After(y, w, sched)
  {
    OnlyComparisonsShow(x, y, w, sched);
  }

  // ---------------------------------------------------------------- replies were true

  /** The record held `ip` after `n` moves of the schedule, or earlier. */
  ghost predicate Held(x: Setting, w: World, sched: seq<Move>, n: nat, ip: string)
    requires n <= |sched|
  {
    exists j :: 0 <= j <= n && After(x, w, sched[..j]).shared.world.record == Some(ip)
  }

  lemma Unroll(x: Setting, w: World, sched: seq<Move>, n: nat)
    requires n < |sched|
    ensures After(x, w, sched[..n + 1]) == Apply(x, After(x, w, sched[..n]), sched[n])
  {
    assert sched[..n + 1] == sched[..n] + [sched[n]];
    AfterAppend(x, w, sched[..n], sched[n]);
  }

  lemma HeldLater(x: Setting, w: World, sched: seq<Move>, n: nat, ip: string)
    requires n < |sched|
    ensures Held(x, w, sched, n, ip) ==> Held(x, w, sched, n + 1, ip)
    ensures After(x, w, sched[..n]).shared.world.record == Some(ip) ==> Held(x, w, sched, n, ip)
    ensures After(x, w, sched[..n + 1]).shared.world.record == Some(ip) ==> Held(x, w, sched, n + 1, ip)
  {
  }

  /** Move `j` is request `i`'s own call of UpdateIP for `ip`, and the record is `ip` after it. */
  ghost predicate UpsertsAt(x: Setting, w: World, sched: seq<Move>, j: nat, i: nat, ip: string)
    requires j < |sched| && i < |x.xs|
  {
    && sched[j] == Step(i) && Upserts(After(x, w, sched[..j]), i) && After(x, w, sched[..j]).stages[i].point.ip == ip
    && x.xs[i].hooks.update.upsert.UpsertSucceeds? && After(x, w, sched[..j + 1]).shared.world.record == Some(ip)
  }

  /** Among the first `n` moves is the request's own successful UPSERT of `ip`. */
  ghost predicate OwnUpsert(x: Setting, w: World, sched: seq<Move>, n: nat, i: nat, ip: string)
    requires n <= |sched| && i < |x.xs|
  {
    exists j: nat :: j < n && UpsertsAt(x, w, sched, j, i, ip)
  }

  ghost predicate TrueResult(x: Setting, w: World, sched: seq<Move>, n: nat, i: nat, q: IPv4, r: UpdateResult)
    requires n <= |sched| && i < |x.xs|
  {
    && r.newIP == Dotted(q) && Held(x, w, sched, n, r.newIP)
    && (r.action == "updated" ==> OwnUpsert(x, w, sched, n, i, r.newIP))
  }

  ghost predicate TruePoint(x: Setting, w: World, sched: seq<Move>, n: nat, i: nat, q: IPv4, p: U.Point)
    requires n <= |sched| && i < |x.xs|
  {
    match p
    case Caching(a, r) => TrueResult(x, w, sched, n, i, q, r) && a == r.newIP
    case Finished(o) => o.Done? ==> TrueResult(x, w, sched, n, i, q, o.result)
    case _ => true
  }

  /** "good" and "nochg" carry the WAN address that the request read, and the record has held it;
      before a "good", the request made its own successful UPSERT of it. */
  ghost predicate TrueReply(x: Setting, w: World, sched: seq<Move>, n: nat, i: nat, r: Response)
    requires n <= |sched| && i < |x.xs|
  {
    r.Dyndns? && (r.code == "good" || r.code == "nochg") ==>
      && x.xs[i].hooks.wan.WanFound? && r.ip == Dotted(x.xs[i].hooks.wan.q)
      && Held(x, w, sched, n, r.ip)
      && (r.code == "good" ==> OwnUpsert(x, w, sched, n, i, r.ip))
  }

  ghost predicate TrueStage(x: Setting, w: World, sched: seq<Move>, n: nat, i: nat, st: Stage)
    requires n <= |sched| && i < |x.xs|
  {
    match st
    case Updating(_, q, p) => TruePoint(x, w, sched, n, i, q, p)
    case Auditing(r, _) => TrueReply(x, w, sched, n, i, r)
    case Reporting(r, _) => TrueReply(x, w, sched, n, i, r)
    case Ended(r, _) => TrueReply(x, w, sched, n, i, r)
    case _ => true
  }

  function CachedAt(x: Setting, w: World, sched: seq<Move>, n: nat): string
    requires n <= |sched|
  {
    UpdateRuns.Cached(After(x, w, sched[..n]).shared.world, x.isIP)
  }

  ghost predicate TrueAt(x: Setting, w: World, sched: seq<Move>, n: nat)
    requires n <= |sched|
  {
    && (CachedAt(x, w, sched, n) != "" ==> Held(x, w, sched, n, CachedAt(x, w, sched, n)))
    && forall i :: 0 <= i < |x.xs| ==> TrueStage(x, w, sched, n, i, After(x, w, sched[..n]).stages[i])
  }

  /** Cache writes happen whole or not at all, and nobody else writes the cache. */
  ghost predicate OwnCache(x: Setting, w: World, sched: seq<Move>) {
    && (forall i :: 0 <= i < |x.xs| ==> !x.xs[i].hooks.update.cacheWrite.CacheTorn?)
    && forall n :: 0 <= n < |sched| ==>
         sched[n].Outside? ==> sched[n].world.cache == After(x, w, sched[..n]).shared.world.cache
  }

  lemma OwnUpsertLater(x: Setting, w: World, sched: seq<Move>, n: nat, i: nat, ip: string)
    requires n < |sched| && i < |x.xs|
    ensures OwnUpsert(x, w, sched, n, i, ip) ==> OwnUpsert(x, w, sched, n + 1, i, ip)
    ensures UpsertsAt(x, w, sched, n, i, ip) ==> OwnUpsert(x, w, sched, n + 1, i, ip)
  {
  }

  lemma StageStaysTrue(x: Setting, w: World, sched: seq<Move>, n: nat, i: nat, st: Stage)
    requires n < |sched| && i < |x.xs| && TrueStage(x, w, sched, n, i, st)
    ensures TrueStage(x, w, sched, n + 1, i, st)
  {
    match st {
      case Updating(_, q, Caching(a, r)) =>
        HeldLater(x, w, sched, n, r.newIP);
        OwnUpsertLater(x, w, sched, n, i, r.newIP);
      case Updating(_, q, Finished(Done(r))) =>
        HeldLater(x, w, sched, n, r.newIP);
        OwnUpsertLater(x, w, sched, n, i, r.newIP);
      case Auditing(Dyndns(_, ip), _) =>
        HeldLater(x, w, sched, n, ip);
        OwnUpsertLater(x, w, sched, n, i, ip);
      case Reporting(Dyndns(_, ip), _) =>
        HeldLater(x, w, sched, n, ip);
        OwnUpsertLater(x, w, sched, n, i, ip);
      case Ended(Dyndns(_, ip), _) =>
        HeldLater(x, w, sched, n, ip);
        OwnUpsertLater(x, w, sched, n, i, ip);
      case _ =>
    }
  }

  /** Which result a step of the update flow can bring, and why its address was in the record. */
  lemma FlowStep(x: Setting, i: nat, q: IPv4, w: World, p: U.Point)
    requires i < |x.xs| && U.Holds(p, Dotted(q)) && !p.Finished?
    ensures var (w', p') := U.Advance(x.cfg.update, JobOf(x, i, q), w, p, x.isIP);
            && (p'.Caching? ==>
                  && p'.ip == p'.result.newIP == Dotted(q) && w'.record == Some(Dotted(q))
                  && (p'.result.action == "updated" ==>
                        p.Upserting? && p.ip == Dotted(q) && x.xs[i].hooks.update.upsert.UpsertSucceeds?))
            && (p'.Finished? && p'.outcome.Done? ==>
                  || (p.Caching? && p'.outcome.result == p.result)
                  || (p'.outcome.result.newIP == Dotted(q) == UpdateRuns.Cached(w, x.isIP)
                      && p'.outcome.result.action == "nochg-cache"))
            && (w'.cache == w.cache || (p.Caching? && w' == AfterCacheWrite(w, p.ip, x.xs[i].hooks.update.cacheWrite)))
  {
    DottedIsAddress(q);
    assert "nochg-dns" != "updated" by {
      assert |"nochg-dns"| == 9 && |"updated"| == 7;
    }
  }

  lemma UpdatingStaysTrue(x: Setting, w: World, sched: seq<Move>, n: nat, i: nat)
    requires n < |sched| && i < |x.xs| && sched[n] == Step(i) && TrueAt(x, w, sched, n)
    requires var st := After(x, w, sched[..n]).stages[i];
             st.Updating? && !st.point.Finished? && U.Holds(st.point, Dotted(st.q))
    ensures TrueStage(x, w, sched, n + 1, i, After(x, w, sched[..n + 1]).stages[i])
  {
    var s := After(x, w, sched[..n]);
    var st := s.stages[i];
    assert TrueStage(x, w, sched, n, i, st);
    Unroll(x, w, sched, n);
    FlowStep(x, i, st.q, s.shared.world, st.point);
    HeldLater(x, w, sched, n, Dotted(st.q));
    assert |"nochg-cache"| != |"updated"|;
    DottedIsAddress(st.q);
    if st.point.Upserting? && st.point.ip == Dotted(st.q) && x.xs[i].hooks.update.upsert.UpsertSucceeds? {
      assert After(x, w, sched[..n + 1]).shared.world.record == Some(Dotted(st.q)) ==>
          UpsertsAt(x, w, sched, n, i, Dotted(st.q));
    }
    OwnUpsertLater(x, w, sched, n, i, Dotted(st.q));
  }

  lemma CacheStaysTrue(x: Setting, w: World, sched: seq<Move>, n: nat)
    requires n < |sched| && OwnCache(x, w, sched) && TrueAt(x, w, sched, n)
    ensures CachedAt(x, w, sched, n + 1) != "" ==> Held(x, w, sched, n + 1, CachedAt(x, w, sched, n + 1))
  {
    var s, m := After(x, w, sched[..n]), sched[n];
    Unroll(x, w, sched, n);
    HeldLater(x, w, sched, n, CachedAt(x, w, sched, n));
    if m.Step? && m.i < |x.xs| && s.stages[m.i].Updating? && s.stages[m.i].point.Caching? {
      var st := s.stages[m.i];
      assert TrueStage(x, w, sched, n, m.i, st);
      HeldLater(x, w, sched, n, st.point.ip);
      var c := x.xs[m.i].hooks.update.cacheWrite;
      if c.CacheWritten? {
        DottedIsAddress(st.q);
        AddressCacheable(Dotted(st.q));
        UpdateRuns.CacheWriteReads(s.shared.world, st.point.ip, c.stamp, x.isIP);
      }
    } else if m.Step? {
      CacheOnlyByCaching(x, s, m);
    }
  }

  lemma CacheOnlyByCaching(x: Setting, s: System, m: Move)
    requires |s.stages| == |x.xs| && m.Step?
    requires m.i < |x.xs| ==> !(s.stages[m.i].Updating? && s.stages[m.i].point.Caching?)
    ensures Apply(x, s, m).shared.world.cache == s.shared.world.cache
  {
  }

  lemma FinishedStaysTrue(x: Setting, w: World, sched: seq<Move>, n: nat, i: nat, e: AuditEntry, q: IPv4, o: Outcome)
    requires n < |sched| && i < |x.xs| && x.xs[i].hooks.wan == WanFound(q)
    requires TruePoint(x, w, sched, n, i, q, U.Finished(o))
    ensures TrueReply(x, w, sched, n, i, Reply(o, e).0)
  {
    CodesDiffer();
  }

  lemma OwnStaysTrue(x: Setting, w: World, sched: seq<Move>, n: nat, i: nat)
    requires n < |sched| && i < |x.xs| && sched[n] == Step(i) && TrueAt(x, w, sched, n)
    ensures TrueStage(x, w, sched, n + 1, i, After(x, w, sched[..n + 1]).stages[i])
  {
    var s := After(x, w, sched[..n]);
    var st := s.stages[i];
    ScheduleKeepsInv(x, w, sched[..n]);
    assert StageOk(x, s.checks, s.logged, i, st);
    assert TrueStage(x, w, sched, n, i, st);
    Unroll(x, w, sched, n);
    if st.Updating? && !st.point.Finished? {
      UpdatingStaysTrue(x, w, sched, n, i);
    } else if st.Updating? {
      FinishedStaysTrue(x, w, sched, n, i, st.entry, st.q, st.point.outcome);
      StageStaysTrue(x, w, sched, n, i, Advance(x, i, s).stages[i]);
    } else if st.Auditing? || st.Reporting? || st.Ended? {
      StageStaysTrue(x, w, sched, n, i, Advance(x, i, s).stages[i]);
    } else {
      EarlyReply(x, i, s);
    }
  }

  /** No reply before the update flow says "good" or "nochg". */
  lemma EarlyReply(x: Setting, i: nat, s: System)
    requires i < |x.xs| == |s.stages| && (s.stages[i].Arrived? || s.stages[i].Checking? || s.stages[i].ReadingWan?)
    ensures var st := Advance(x, i, s).stages[i];
            && (st.Auditing? && st.response.Dyndns? ==> st.response.code != "good" && st.response.code != "nochg")
            && !st.Reporting? && !st.Ended? && (st.Updating? ==> st.point == U.Resolving)
  {
    CodesDiffer();
  }

  lemma {:induction false} ScheduleStaysTrue(x: Setting, w: World, sched: seq<Move>, n: nat)
    requires n <= |sched| && OwnCache(x, w, sched) && UpdateRuns.Coherent(w, x.isIP)
    ensures TrueAt(x, w, sched, n)
  {
    if n == 0 {
      StartIsTrue(x, w, sched);
    } else {
      ScheduleStaysTrue(x, w, sched, n - 1);
      CacheStaysTrue(x, w, sched, n - 1);
      forall i | 0 <= i < |x.xs|
        ensures TrueStage(x, w, sched, n, i, After(x, w, sched[..n]).stages[i])
      {
        MoveStaysTrue(x, w, sched, n - 1, i);
      }
    }
  }

  lemma StartIsTrue(x: Setting, w: World, sched: seq<Move>)
    requires UpdateRuns.Coherent(w, x.isIP)
    ensures TrueAt(x, w, sched, 0)
  {
    assert sched[..0] == [];
    var ip := UpdateRuns.Cached(w, x.isIP);
    assert ip != "" ==> After(x, w, sched[..0]).shared.world.record == Some(ip);
  }

  lemma MoveStaysTrue(x: Setting, w: World, sched: seq<Move>, n: nat, i: nat)
    requires n < |sched| && i < |x.xs| && TrueAt(x, w, sched, n)
    ensures TrueStage(x, w, sched, n + 1, i, After(x, w, sched[..n + 1]).stages[i])
  {
    if sched[n] == Step(i) {
      OwnStaysTrue(x, w, sched, n, i);
    } else {
      StagesWait(x, w, sched, n, i);
      assert TrueStage(x, w, sched, n, i, After(x, w, sched[..n]).stages[i]);
      StageStaysTrue(x, w, sched, n, i, After(x, w, sched[..n]).stages[i]);
    }
  }

  /** A move of something else leaves a request where it is. */
  lemma StagesWait(x: Setting, w: World, sched: seq<Move>, n: nat, i: nat)
    requires n < |sched| && i < |x.xs| && sched[n] != Step(i)
    ensures After(x, w, sched[..n + 1]).stages[i] == After(x, w, sched[..n]).stages[i]
  {
    Unroll(x, w, sched, n);
    if sched[n].Step? && sched[n].i < |x.xs| {
      History(x, After(x, w, sched[..n]), sched[n].i);
    }
  }

  /** Whatever the interleaving, and whoever else edits the record: a reply "good x" or "nochg x" names
      the WAN address that its request read, and the record has been x by then; before a "good x" the
      request has called UpdateIP itself, for x, with success, and the record was x after that call. */
  lemma RepliesWereTrue(x: Setting, w: World, sched: seq<Move>, i: nat)
    requires i < |x.xs| && OwnCache(x, w, sched) && UpdateRuns.Coherent(w, x.isIP)
    requires After(x, w, sched).stages[i].Ended?
    ensures TrueReply(x, w, sched, |sched|, i, After(x, w, sched).stages[i].response)
  {
    ScheduleStaysTrue(x, w, sched, |sched|);
    assert sched[..|sched|] == sched;
    assert TrueStage(x, w, sched, |sched|, i, After(x, w, sched).stages[i]);
  }
}
