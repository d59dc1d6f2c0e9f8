/** One run of the update flow (internal/updater/updater.go): resolve the address, compare with
    the cache file, compare with the Route53 record, UPSERT, refresh the cache. Every call that
    leaves the process has its outcome given in advance by `Env`. */
module Updater {
  import opened Text

  /** `record` is the A record at Route53, `cache` the text of the cache file, if it exists. */
  datatype World = World(record: Option<string>, cache: Option<string>)

  datatype Config = Config(hostname: string, ipSource: string)

  datatype Options = Options(force: bool, dryRun: bool, overrideIP: string)

  datatype Lookup = LookupAnswers | LookupFails(canceled: bool) | LookupPanics
  datatype Upsert = UpsertSucceeds | UpsertFails(applied: bool) | UpsertPanics(applied: bool)
  datatype CacheWrite = CacheWritten(stamp: string) | CacheUnwritten | CacheTorn(left: Option<string>)

  /** How the calls of one run turn out; `readable` says whether reading the cache file works, should
      it exist. */
  datatype Env = Env(
    onUDM: bool, local: Result<string>, remote: Result<string>,
    readable: bool, clientOk: bool, lookup: Lookup, upsert: Upsert, cacheWrite: CacheWrite)

  datatype UpdateResult = UpdateResult(action: string, oldIP: string, newIP: string, hostname: string)

  datatype Outcome = Done(result: UpdateResult) | Failed(error: string) | Panicked(value: string)

  /** A finished run: the world it leaves, what it returns, the address it passed to UpdateIP if it
      called it, whether that call returned without error, and whether a cache write failed. */
  datatype Run = Run(world: World, outcome: Outcome, called: Option<string>, accepted: bool, cacheFailed: bool)

  // ---------------------------------------------------------------- the cache file

  const FIELD := "last_known_ip:"

  function CacheText(ip: string, stamp: string): string {
    FIELD + " " + ip + "\n" + "last_updated: " + stamp + "\n"
  }

  predicate HasField(line: string) {
    FIELD <= line
  }

  function FirstField(lines: seq<string>): Option<string> {
    if lines == [] then None
    else if HasField(lines[0]) then Some(TrimSpace(lines[0][|FIELD|..]))
    else FirstField(lines[1..])
  }

  /** What a cache file holds: readCachedIP of it, when reading works; `isIP` stands for net.ParseIP
      accepting the text. */
  function ReadCachedIP(file: Option<string>, isIP: string -> bool): string {
    if file.None? then "" else
      var field := FirstField(Split(file.value, '\n'));
      if field.Some? then field.value else
        var ip := TrimSpace(file.value);
        if isIP(ip) then ip else ""
  }

  /** What a run sees of the cache: a failing read counts as an empty cache. */
  function SeenIP(file: Option<string>, env: Env, isIP: string -> bool): string {
    if env.readable then ReadCachedIP(file, isIP) else ""
  }

  /** What the cache file can hold faithfully: one line without surrounding space. */
  predicate Cacheable(ip: string) {
    '\n' !in ip && TrimSpace(ip) == ip
  }

  lemma {:induction false} BeforeIsFirstPart(s: string, sep: char)
    ensures Split(s, sep)[0] == Before(s, sep)
  {
    if s != "" && s[0] != sep {
      BeforeIsFirstPart(s[1..], sep);
    }
  }

  lemma CacheTextShape(ip: string, stamp: string, n: nat)
    requires n <= |ip|
    ensures CacheText(ip, stamp) == (FIELD + " " + ip[..n]) + (ip[n..] + ("\n" + "last_updated: " + stamp + "\n"))
  {
    assert ip == ip[..n] + ip[n..];
  }

  lemma FieldValue(v: string, rest: seq<string>)
    ensures FirstField([FIELD + " " + v] + rest) == Some(TrimSpace(v))
  {
    var line := FIELD + " " + v;
    assert line[|FIELD|..] == " " + v && (" " + v)[1..] == v;
    assert ([line] + rest)[0] == line;
    assert TrimLeft(" " + v) == TrimLeft(v);
  }

  /** What a reader of the file sees is the first line of what was written, trimmed; it is exactly
      what was written if and only if that was one line without surrounding space. */
  lemma ReadBack(ip: string, stamp: string, isIP: string -> bool)
    ensures ReadCachedIP(Some(CacheText(ip, stamp)), isIP) == TrimSpace(Before(ip, '\n'))
    ensures ReadCachedIP(Some(CacheText(ip, stamp)), isIP) == ip <==> Cacheable(ip)
  {
    var v, more := Before(ip, '\n'), "\n" + "last_updated: " + stamp + "\n";
    var tail := ip[|v|..] + more;
    assert tail[0] == '\n';
    var head := FIELD + " " + v;
    assert CacheText(ip, stamp) == head + ['\n'] + tail[1..] by {
      CacheTextShape(ip, stamp, |v|);
      assert tail == ['\n'] + tail[1..];
    }
    assert '\n' !in head;
    SplitPrefix(head, tail[1..], '\n');
    FieldValue(v, Split(tail[1..], '\n'));
  }

  /** The lines of the file that a run writes. */
  lemma CacheTextLines(ip: string, stamp: string)
    requires '\n' !in ip && '\n' !in stamp
    ensures Split(CacheText(ip, stamp), '\n') == ["last_known_ip: " + ip, "last_updated: " + stamp, ""]
  {
    var a, b := "last_known_ip: " + ip, "last_updated: " + stamp;
    assert CacheText(ip, stamp) == a + ['\n'] + (b + ['\n'] + "");
    SplitThree(a, b, "", '\n');
  }

  /** What a cache file means, whoever wrote it: the trimmed rest of its first line that starts with
      "last_known_ip:"; without such a line all of it, trimmed, if that is an address, and nothing
      otherwise. */
  lemma {:induction false} CacheFileMeans(before: seq<string>, value: string, after: seq<string>, isIP: string -> bool)
    requires Free(before, '\n') && Free(after, '\n') && '\n' !in value
    requires forall i :: 0 <= i < |before| ==> !("last_known_ip:" <= before[i])
    ensures ReadCachedIP(Some(Join(before + ["last_known_ip:" + value] + after, '\n')), isIP) == TrimSpace(value)
    ensures before != [] ==>
              var all := TrimSpace(Join(before, '\n'));
              ReadCachedIP(Some(Join(before, '\n')), isIP) == if isIP(all) then all else ""
  {
    var lines := before + [FIELD + value] + after;
    assert '\n' !in FIELD;
    FreeAppend(before, [FIELD + value], '\n');
    FreeAppend(before + [FIELD + value], after, '\n');
    SplitJoin(lines, '\n');
    FirstFieldAfter(before, value, after);
    if before != [] {
      SplitJoin(before, '\n');
      NoField(before);
    }
  }

  lemma {:induction false} FirstFieldAfter(before: seq<string>, value: string, after: seq<string>)
    requires forall i :: 0 <= i < |before| ==> !HasField(before[i])
    ensures FirstField(before + [FIELD + value] + after) == Some(TrimSpace(value))
  {
    var lines := before + [FIELD + value] + after;
    if before == [] {
      assert lines[0] == FIELD + value && (FIELD + value)[|FIELD|..] == value;
    } else {
      assert lines[0] == before[0] && lines[1..] == before[1..] + [FIELD + value] + after;
      FirstFieldAfter(before[1..], value, after);
    }
  }

  lemma {:induction false} NoField(lines: seq<string>)
    requires forall i :: 0 <= i < |lines| ==> !HasField(lines[i])
    ensures FirstField(lines) == None
  {
    if lines != [] {
      NoField(lines[1..]);
    }
  }

  /** Text that net.ParseIP accepts is made of these characters. */
  predicate AddressText(ip: string) {
    ip != "" && forall c :: c in ip ==> '0' <= c <= ':' || 'a' <= c <= 'f' || 'A' <= c <= 'F' || c == '.'
  }

  lemma AddressCacheable(ip: string)
    requires AddressText(ip)
    ensures Cacheable(ip) && ip != ""
  {
    assert ip[0] in ip && ip[|ip| - 1] in ip;
    assert !IsSpace(ip[0]) && !IsSpace(ip[|ip| - 1]);
  }

  // ---------------------------------------------------------------- one run

  /** resolveIP: the configured source, or by profile when it is unset or "auto". */
  function ResolveIP(cfg: Config, env: Env): Result<string> {
    var source :=
      if cfg.ipSource == "" || cfg.ipSource == "auto" then (if env.onUDM then "local" else "remote")
      else cfg.ipSource;
    if source == "local" then env.local
    else if source == "remote" then env.remote
    else Err("unknown ip_source")
  }

  function CurrentIP(cfg: Config, opts: Options, env: Env): Result<string> {
    if opts.overrideIP == "" then ResolveIP(cfg, env) else Ok(opts.overrideIP)
  }

  function AfterUpsert(w: World, ip: string, u: Upsert): World {
    if u.UpsertSucceeds? || u.applied then w.(record := Some(ip)) else w
  }

  function AfterCacheWrite(w: World, ip: string, c: CacheWrite): World {
    match c
    case CacheWritten(stamp) => w.(cache := Some(CacheText(ip, stamp)))
    case CacheUnwritten => w
    case CacheTorn(left) => w.(cache := left)
  }

  function RunUpdate(cfg: Config, opts: Options, env: Env, w: World, isIP: string -> bool): Run {
    var current := CurrentIP(cfg, opts, env);
    if current.Err? then Run(w, Failed(current.error), None, false, false) else
      var ip := current.value;
      var cached := SeenIP(w.cache, env, isIP);
      if !opts.force && ip == cached then
        Run(w, Done(UpdateResult("nochg-cache", cached, ip, cfg.hostname)), None, false, false)
      else if !env.clientOk then
        Run(w, Failed("failed to create Route53 client"), None, false, false)
      else if env.lookup.LookupPanics? then
        Run(w, Panicked("GetCurrentIP"), None, false, false)
      else if env.lookup == LookupFails(true) then
        Run(w, Failed("context done"), None, false, false)
      else
        var dnsIP := if env.lookup.LookupAnswers? && w.record.Some? then w.record.value else "";
        var found := env.lookup.LookupAnswers? && w.record.Some?;
        if found && ip == dnsIP && !opts.force then
          Run(AfterCacheWrite(w, ip, env.cacheWrite),
              Done(UpdateResult("nochg-dns", dnsIP, ip, cfg.hostname)), None, false, !env.cacheWrite.CacheWritten?)
        else if opts.dryRun then
          Run(w, Done(UpdateResult("dry-run", dnsIP, ip, cfg.hostname)), None, false, false)
        else
          var w1 := AfterUpsert(w, ip, env.upsert);
          match env.upsert
          case UpsertFails(_) => Run(w1, Failed("failed to update Route53"), Some(ip), false, false)
          case UpsertPanics(_) => Run(w1, Panicked("UpdateIP"), Some(ip), false, false)
          case UpsertSucceeds =>
            Run(AfterCacheWrite(w1, ip, env.cacheWrite),
                Done(UpdateResult("updated", dnsIP, ip, cfg.hostname)), Some(ip), true, !env.cacheWrite.CacheWritten?)
  }

  /** The machine the updater acts on: the record and the cache file change step by step. */
  class Host {
    const isIP: string -> bool
    var record: Option<string>
    var cache: Option<string>

    ghost function State(): World
      reads this
    {
      World(record, cache)
    }

    constructor (isIP: string -> bool, record: Option<string>, cache: Option<string>)
      ensures this.isIP == isIP && this.record == record && this.cache == cache
    {
      this.isIP, this.record, this.cache := isIP, record, cache;
    }

    method ReadCache(env: Env) returns (ip: string)
      ensures ip == SeenIP(cache, env, isIP)
    {
      if !env.readable || cache.None? {
        return "";
      }
      ip := ReadCachedIP(cache, isIP);
    }

    method WriteCachedIP(ip: string, env: Env) returns (ok: bool)
      modifies this`cache
      ensures State() == AfterCacheWrite(old(State()), ip, env.cacheWrite)
      ensures ok == env.cacheWrite.CacheWritten?
    {
      match env.cacheWrite
      case CacheWritten(stamp) =>
        cache := Some(CacheText(ip, stamp));
        ok := true;
      case CacheUnwritten =>
        ok := false;
      case CacheTorn(left) =>
        cache := left;
        ok := false;
    }

    method UpdateIP(ip: string, env: Env) returns (r: Upsert)
      modifies this`record
      ensures State() == AfterUpsert(old(State()), ip, env.upsert) && r == env.upsert
    {
      if env.upsert.UpsertSucceeds? || env.upsert.applied {
        record := Some(ip);
      }
      r := env.upsert;
    }

    method Update(cfg: Config, opts: Options, env: Env)
      returns (outcome: Outcome, called: Option<string>, accepted: bool, cacheFailed: bool)
      modifies this
      ensures Run(State(), outcome, called, accepted, cacheFailed) == RunUpdate(cfg, opts, env, old(State()), isIP)
    {
      called, accepted, cacheFailed := None, false, false;
      var ip := opts.overrideIP;
      if ip == "" {
        var detected := ResolveIP(cfg, env);
        if detected.Err? {
          outcome := Failed(detected.error);
          return;
        }
        ip := detected.value;
      }
      var cached := ReadCache(env);
      if !opts.force && ip == cached {
        outcome := Done(UpdateResult("nochg-cache", cached, ip, cfg.hostname));
        return;
      }
      if !env.clientOk {
        outcome := Failed("failed to create Route53 client");
        return;
      }
      var dnsIP := "";
      match env.lookup {
        case LookupPanics =>
          outcome := Panicked("GetCurrentIP");
          return;
        case LookupFails(canceled) =>
          if canceled {
            outcome := Failed("context done");
            return;
          }
        case LookupAnswers =>
          if record.Some? {
            dnsIP := record.value;
            if ip == dnsIP && !opts.force {
              var ok := WriteCachedIP(ip, env);
              outcome, cacheFailed := Done(UpdateResult("nochg-dns", dnsIP, ip, cfg.hostname)), !ok;
              return;
            }
          }
      }
      if opts.dryRun {
        outcome := Done(UpdateResult("dry-run", dnsIP, ip, cfg.hostname));
        return;
      }
      var reply := UpdateIP(ip, env);
      called := Some(ip);
      match reply
      case UpsertFails(_) =>
        outcome := Failed("failed to update Route53");
      case UpsertPanics(_) =>
        outcome := Panicked("UpdateIP");
      case UpsertSucceeds =>
        var ok := WriteCachedIP(ip, env);
        outcome, accepted, cacheFailed := Done(UpdateResult("updated", dnsIP, ip, cfg.hostname)), true, !ok;
    }
  }
}
