/** The serve-mode request handler (internal/server/handler.go) over the authenticator, the WAN
    lookup and the update flow. What `emit` hands to the audit log and the status writer is kept
    as two sequences; what those do with it on disk is in Audit and Status. */
module Serve {
  import opened Text
  import opened Lockout
  import opened Updater
  import opened WanIP
  import opened Audit
  import opened Status

  datatype ServerSettings = ServerSettings(allowed: string -> bool, wanInterface: string)

  /** `server` is absent when the configuration has no server block; `allowed` is IsAllowed on the
      configured networks. */
  datatype ServeConfig = ServeConfig(update: Updater.Config, server: Option<ServerSettings>, secret: string)

  /** `password` is absent when there is no usable Basic header. */
  datatype Request = Request(remoteAddr: string, verb: string, password: Option<string>, hostname: string, myip: string)

  type IPv4 = q: IP | |q| == 4 witness [0, 0, 0, 0]

  datatype Wan = WanFound(q: IPv4) | WanFails(error: string) | WanPanics(value: string)

  /** The clock readings, the WAN lookup and the update calls of one request. */
  datatype Hooks = Hooks(checkedAt: Instant, wan: Wan, update: Env, emittedAt: nat)

  /** The lookup hook in production: the WAN address found is the first public one among the
      addresses consulted, outside every refused interval. */
  method ReadWan(os: OS, iface: string) returns (w: Wan)
    ensures w.WanFound? ==> !Refused(Value32(w.q)) &&
                            exists ip :: To4(ip) == Some(w.q) && FirstPublicOf(Consulted(os, iface), Ok(ip))
    ensures w.WanFails? ==> FirstPublicOf(Consulted(os, iface), Err(w.error))
    ensures !w.WanPanics?
  {
    var r := FromInterface(os, iface);
    match r
    case Ok(ip) => w := WanFound(To4(ip).value);
    case Err(error) => w := WanFails(error);
  }

  datatype Response = Code(status: int) | Dyndns(code: string, ip: string)

  /** The plain-text body of a dyndns reply. */
  function Body(r: Response): string {
    match r
    case Code(_) => ""
    case Dyndns(code, ip) => (if ip != "" then code + " " + ip else code) + "\n"
  }

  /** A client's reading of such a body: the code, and what follows the first space. */
  function ReadBody(text: string): Option<Response> {
    if text == "" || text[|text| - 1] != '\n' then None else
      var line := text[..|text| - 1];
      var cut := Cut(line, ' ');
      if cut.Some? then Some(Dyndns(cut.value.0, cut.value.1)) else Some(Dyndns(line, ""))
  }

  /** The body tells the client exactly the reply, for codes of one word. */
  lemma BodyRoundTrip(r: Response)
    requires r.Dyndns? && ' ' !in r.code
    ensures ReadBody(Body(r)) == Some(r)
  {
    var line := if r.ip != "" then r.code + " " + r.ip else r.code;
    assert Body(r) == line + "\n" && Body(r)[..|line|] == line;
    if r.ip != "" {
      CutAt(r.code, r.ip, ' ');
    }
  }

  datatype ServerState = ServerState(auth: AuthState, world: World, audited: seq<AuditEntry>, snapshots: seq<StatusSnapshot>)

  /** A request answered: the state after it, the reply, the audit entry, the result of the
      password check if there was one, and what the update flow did with UpdateIP. */
  datatype Served = Served(state: ServerState, response: Response, entry: AuditEntry, checked: Option<AuthResult>,
                           called: Option<string>, accepted: bool)

  function BlankEntry(remoteAddr: string): AuditEntry {
    AuditEntry(0, remoteAddr, "", "", "", "", "", "", "")
  }

  function SnapshotOf(entry: AuditEntry, at: nat): StatusSnapshot {
    StatusSnapshot(at, entry.remoteAddr, entry.authOutcome, entry.action, entry.err)
  }

  function Emit(s: ServerState, entry: AuditEntry, at: nat): ServerState {
    s.(audited := s.audited + [entry], snapshots := s.snapshots + [SnapshotOf(entry, at)])
  }

  /** A reply without any update. */
  function Refuse(s: ServerState, h: Hooks, entry: AuditEntry, response: Response, checked: Option<AuthResult>): Served {
    Served(Emit(s, entry, h.emittedAt), response, entry, checked, None, false)
  }

  function OutcomeText(r: AuthResult): string {
    match r
    case AuthOK => "ok"
    case AuthLockedOut => "locked"
    case AuthBadCredentials => "bad"
  }

  /** The updater's answer turned into a reply and the last fields of the entry. */
  function Reply(outcome: Outcome, entry: AuditEntry): (Response, AuditEntry) {
    match outcome
    case Panicked(value) => (Dyndns("911", ""), entry.(action := "panic", err := value))
    case Failed(error) => (Dyndns("dnserr", ""), entry.(action := "dnserr", err := error))
    case Done(result) =>
      var e := entry.(action := result.action);
      if result.action == "updated" then (Dyndns("good", result.newIP), e)
      else if result.action in ["nochg-cache", "nochg-dns", "dry-run"] then (Dyndns("nochg", result.newIP), e)
      else (Dyndns("dnserr", ""), e.(err := "unknown updater action: " + result.action))
  }

  function ServeStep(cfg: ServeConfig, isIP: string -> bool, req: Request, h: Hooks, s: ServerState): Served {
    var entry := BlankEntry(req.remoteAddr);
    if cfg.server.None? then
      Refuse(s, h, entry.(action := "panic", err := "nil pointer dereference"), Dyndns("911", ""), None)
    else if !cfg.server.value.allowed(req.remoteAddr) then
      Refuse(s, h, entry.(action := "cidr-deny"), Code(403), None)
    else if req.verb != "GET" then
      Refuse(s, h, entry.(action := "method-deny"), Code(405), None)
    else if req.password.None? then
      Refuse(s, h, entry.(authOutcome := "missing"), Dyndns("badauth", ""), None)
    else
      var (auth', r) := CheckStep(s.auth, h.checkedAt, req.password.value == cfg.secret);
      var s1 := s.(auth := auth');
      var entry1 := entry.(authOutcome := OutcomeText(r));
      if r != AuthOK then Refuse(s1, h, entry1, Dyndns("badauth", ""), Some(r))
      else Authorised(cfg, isIP, req, h, s1, entry1.(hostname := req.hostname, myIPClaimed := req.myip))
  }

  function Authorised(cfg: ServeConfig, isIP: string -> bool, req: Request, h: Hooks,
                      s: ServerState, entry: AuditEntry): Served
  {
    if req.hostname == "" then
      Refuse(s, h, entry.(action := "notfqdn"), Dyndns("notfqdn", ""), Some(AuthOK))
    else if !EqualFold(req.hostname, cfg.update.hostname) then
      Refuse(s, h, entry.(action := "nohost"), Dyndns("nohost", ""), Some(AuthOK))
    else
      match h.wan
      case WanPanics(value) =>
        Refuse(s, h, entry.(action := "panic", err := value), Dyndns("911", ""), Some(AuthOK))
      case WanFails(error) =>
        Refuse(s, h, entry.(action := "wanip-error", err := error), Dyndns("dnserr", ""), Some(AuthOK))
      case WanFound(q) =>
        var run := RunUpdate(cfg.update, Options(false, false, Dotted(q)), h.update, s.world, isIP);
        var (response, entry') := Reply(run.outcome, entry.(myIPVerified := Dotted(q)));
        Served(Emit(s.(world := run.world), entry', h.emittedAt), response, entry', Some(AuthOK), run.called, run.accepted)
  }

  class Handler {
    const cfg: ServeConfig
    const auth: Authenticator
    const host: Host
    var audited: seq<AuditEntry>
    var snapshots: seq<StatusSnapshot>

    ghost predicate Valid()
      reads this, auth
    {
      auth.Valid() && auth.secret == cfg.secret
    }

    ghost function State(): ServerState
      requires Valid()
      reads this, auth, auth.failures, host
    {
      ServerState(auth.State(), host.State(), audited, snapshots)
    }

    constructor (cfg: ServeConfig, auth: Authenticator, host: Host)
      requires auth.Valid() && auth.secret == cfg.secret
      ensures Valid() && this.cfg == cfg && this.auth == auth && this.host == host
      ensures State() == ServerState(auth.State(), host.State(), [], [])
    {
      this.cfg, this.auth, this.host, audited, snapshots := cfg, auth, host, [], [];
    }

    method EmitEntry(entry: AuditEntry, h: Hooks)
      requires Valid()
      modifies this
      ensures Valid() && State() == Emit(old(State()), entry, h.emittedAt)
    {
      audited := audited + [entry];
      snapshots := snapshots + [StatusSnapshot(h.emittedAt, entry.remoteAddr, entry.authOutcome, entry.action, entry.err)];
    }

    method ServeHTTP(req: Request, h: Hooks)
      returns (response: Response, ghost entry: AuditEntry, ghost checked: Option<AuthResult>,
               ghost called: Option<string>, ghost accepted: bool)
      requires Valid()
      modifies this, auth, auth.failures, host
      ensures Valid() && (auth.failures == old(auth.failures) || fresh(auth.failures))
      ensures Served(State(), response, entry, checked, called, accepted)
                == ServeStep(cfg, host.isIP, req, h, old(State()))
    {
      called, accepted, checked := None, false, None;
      var e := BlankEntry(req.remoteAddr);
      if cfg.server.None? {
        e := e.(action := "panic", err := "nil pointer dereference");
        response := Dyndns("911", "");
      } else if !cfg.server.value.allowed(req.remoteAddr) {
        e := e.(action := "cidr-deny");
        response := Code(403);
      } else if req.verb != "GET" {
        e := e.(action := "method-deny");
        response := Code(405);
      } else if req.password.None? {
        e := e.(authOutcome := "missing");
        response := Dyndns("badauth", "");
      } else {
        var r := auth.Check(req.password.value, h.checkedAt);
        checked := Some(r);
        match r {
          case AuthOK =>
            e := e.(authOutcome := "ok");
            response, e, called, accepted := ServeAuthorised(req, h, e);
          case AuthLockedOut =>
            e := e.(authOutcome := "locked");
            response := Dyndns("badauth", "");
          case AuthBadCredentials =>
            e := e.(authOutcome := "bad");
            response := Dyndns("badauth", "");
        }
      }
      EmitEntry(e, h);
      entry := e;
    }

    /** From the query parameters to the reply; everything but `emit`. */
    method ServeAuthorised(req: Request, h: Hooks, entry: AuditEntry)
      returns (response: Response, e: AuditEntry, ghost called: Option<string>, ghost accepted: bool)
      requires Valid()
      modifies host
      ensures Valid()
      ensures var claimed := entry.(hostname := req.hostname, myIPClaimed := req.myip);
              Served(Emit(State(), e, h.emittedAt), response, e, Some(AuthOK), called, accepted)
                == Authorised(cfg, host.isIP, req, h, old(State()), claimed)
    {
      called, accepted := None, false;
      e := entry.(hostname := req.hostname, myIPClaimed := req.myip);
      if req.hostname == "" {
        e := e.(action := "notfqdn");
        return Dyndns("notfqdn", ""), e, called, accepted;
      }
      if !EqualFold(req.hostname, cfg.update.hostname) {
        e := e.(action := "nohost");
        return Dyndns("nohost", ""), e, called, accepted;
      }
      match h.wan
      case WanPanics(value) =>
        e := e.(action := "panic", err := value);
        response := Dyndns("911", "");
      case WanFails(error) =>
        e := e.(action := "wanip-error", err := error);
        response := Dyndns("dnserr", "");
      case WanFound(q) =>
        e := e.(myIPVerified := Dotted(q));
        var outcome, c, a, w := host.Update(cfg.update, Options(false, false, Dotted(q)), h.update);
        called, accepted := c, a;
        match outcome
        case Panicked(value) =>
          e := e.(action := "panic", err := value);
          response := Dyndns("911", "");
        case Failed(error) =>
          e := e.(action := "dnserr", err := error);
          response := Dyndns("dnserr", "");
        case Done(result) =>
          e := e.(action := result.action);
          if result.action == "updated" {
            response := Dyndns("good", result.newIP);
          } else if result.action == "nochg-cache" || result.action == "nochg-dns" || result.action == "dry-run" {
            response := Dyndns("nochg", result.newIP);
          } else {
            e := e.(err := "unknown updater action: " + result.action);
            response := Dyndns("dnserr", "");
          }
    }
  }
}
