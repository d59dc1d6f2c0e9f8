/** Update runs one after another (internal/updater/updater.go): when cache and record agree, what
    a dry run may touch, and how many UPSERTs a sequence of runs can cost. */
module UpdateRuns {
  import opened Text
  import opened Updater

  function Cached(w: World, isIP: string -> bool): string {
    ReadCachedIP(w.cache, isIP)
  }

  /** The cache is empty, or it holds what the record holds. */
  ghost predicate Coherent(w: World, isIP: string -> bool) {
    Cached(w, isIP) == "" || w.record == Some(Cached(w, isIP))
  }

  lemma CacheWriteReads(w: World, ip: string, stamp: string, isIP: string -> bool)
    requires Cacheable(ip)
    ensures Cached(AfterCacheWrite(w, ip, CacheWritten(stamp)), isIP) == ip
  {
    ReadBack(ip, stamp, isIP);
  }

  predicate Automatic(cfg: Config) {
    cfg.ipSource == "" || cfg.ipSource == "auto"
  }

  /** The run asks the WAN interface; it asks the remote service. */
  predicate AsksLocal(cfg: Config, opts: Options, env: Env) {
    opts.overrideIP == "" && (cfg.ipSource == "local" || (Automatic(cfg) && env.onUDM))
  }

  predicate AsksRemote(cfg: Config, opts: Options, env: Env) {
    opts.overrideIP == "" && (cfg.ipSource == "remote" || (Automatic(cfg) && !env.onUDM))
  }

  lemma SourcesDiffer()
    ensures "local" != "" && "local" != "auto" && "remote" != "" && "remote" != "auto" && "local" != "remote"
  {
    assert |"local"| == 5 && |"auto"| == 4 && |"remote"| == 6;
  }

  /** Which address a run uses: the override if there is one, else that of the one source that the
      configuration and the profile select, and an error for any other source text. */
  lemma AddressUsedIff(cfg: Config, opts: Options, env: Env, r: Result<string>)
    ensures CurrentIP(cfg, opts, env) == r <==>
              || (opts.overrideIP != "" && r == Ok(opts.overrideIP))
              || (AsksLocal(cfg, opts, env) && r == env.local)
              || (AsksRemote(cfg, opts, env) && r == env.remote)
              || (&& opts.overrideIP == "" && cfg.ipSource != "" && cfg.ipSource != "auto" && cfg.ipSource != "local"
                  && cfg.ipSource != "remote" && r == Err("unknown ip_source"))
  {
    SourcesDiffer();
  }

  /** The source that is not asked does not matter: on a UDM, with the source left to the profile, the
      remote service; off it, the WAN interface; with an override, neither. */
  lemma OtherSourceIsIdle(cfg: Config, opts: Options, env: Env, other: Env, w: World, isIP: string -> bool)
    requires other == env.(local := other.local, remote := other.remote)
    requires opts.overrideIP == "" && Automatic(cfg) && env.onUDM ==> other.local == env.local
    requires opts.overrideIP == "" && Automatic(cfg) && !env.onUDM ==> other.remote == env.remote
    requires opts.overrideIP == "" && cfg.ipSource == "local" ==> other.local == env.local
    requires opts.overrideIP == "" && cfg.ipSource == "remote" ==> other.remote == env.remote
    ensures RunUpdate(cfg, opts, other, w, isIP) == RunUpdate(cfg, opts, env, w, isIP)
  {
    SourcesDiffer();
    assert CurrentIP(cfg, opts, other) == CurrentIP(cfg, opts, env);
  }

  /** The address that the lookup found in the record. */
  function FoundIP(env: Env, w: World): string {
    if env.lookup.LookupAnswers? && w.record.Some? then w.record.value else ""
  }

  /** What each outcome says about the world, with no assumption on caches or failures. */
  lemma ActionsTellEffects(cfg: Config, opts: Options, env: Env, w: World, isIP: string -> bool)
    ensures var run := RunUpdate(cfg, opts, env, w, isIP);
            match run.outcome
            case Failed(_) =>
              run.world.cache == w.cache && (run.world.record != w.record ==> run.world.record == run.called)
            case Panicked(_) =>
              run.world.cache == w.cache && (run.world.record != w.record ==> run.world.record == run.called)
            case Done(r) =>
              && r.hostname == cfg.hostname && CurrentIP(cfg, opts, env) == Ok(r.newIP)
              && (r.action in ["nochg-cache", "dry-run"] ==> run.world == w && run.called.None?)
              && (r.action == "dry-run" ==> opts.dryRun && r.oldIP == FoundIP(env, w))
              && (r.action == "nochg-cache" ==> r.oldIP == r.newIP == SeenIP(w.cache, env, isIP))
              && (r.action == "nochg-dns" ==>
                   run.called.None? && run.world.record == w.record == Some(r.newIP) && r.oldIP == r.newIP)
              && (r.action == "updated" ==> run.called == Some(r.newIP) == run.world.record
                                            && r.oldIP == FoundIP(env, w))
              && r.action in ["nochg-cache", "dry-run", "nochg-dns", "updated"]
  {
  }

  /** A success that is not a dry run and whose cache write worked makes the next unforced run for
      the same address free, if it can read the cache: it touches nothing, whatever happened to the
      record in between. */
  lemma NextRunIsFree(cfg: Config, opts: Options, env: Env, w: World, isIP: string -> bool,
                      edited: Option<string>, opts': Options, env': Env)
    requires var run := RunUpdate(cfg, opts, env, w, isIP);
             run.outcome.Done? && run.outcome.result.action != "dry-run" && !run.cacheFailed
    requires Cacheable(CurrentIP(cfg, opts, env).value)
    requires env'.readable && (env.readable || CurrentIP(cfg, opts, env).value != "")
    requires !opts'.force && CurrentIP(cfg, opts', env') == CurrentIP(cfg, opts, env)
    ensures var w', ip := RunUpdate(cfg, opts, env, w, isIP).world.(record := edited), CurrentIP(cfg, opts, env).value;
            RunUpdate(cfg, opts', env', w', isIP)
              == Run(w', Done(UpdateResult("nochg-cache", ip, ip, cfg.hostname)), None, false, false)
  {
    var ip := CurrentIP(cfg, opts, env).value;
    if env.cacheWrite.CacheWritten? {
      CacheWriteReads(w, ip, env.cacheWrite.stamp, isIP);
      CacheWriteReads(AfterUpsert(w, ip, env.upsert), ip, env.cacheWrite.stamp, isIP);
    }
  }

  /** The run found or put the record at its address, and so rewrites the cache. */
  predicate Refreshes(o: Outcome) {
    o.Done? && (o.result.action == "nochg-dns" || o.result.action == "updated")
  }

  /** The world after any run: record and cache change in these two ways only. */
  lemma WorldAfter(cfg: Config, opts: Options, env: Env, w: World, isIP: string -> bool)
    ensures var run := RunUpdate(cfg, opts, env, w, isIP);
            && (run.called.Some? || Refreshes(run.outcome) ==> CurrentIP(cfg, opts, env).Ok?)
            && (Refreshes(run.outcome) ==>
                 run.world == AfterCacheWrite(w.(record := Some(CurrentIP(cfg, opts, env).value)),
                                              CurrentIP(cfg, opts, env).value, env.cacheWrite))
            && (!Refreshes(run.outcome) && run.called.None? ==> run.world == w)
            && (!Refreshes(run.outcome) && run.called.Some? ==>
                 !env.upsert.UpsertSucceeds? && run.world == AfterUpsert(w, CurrentIP(cfg, opts, env).value, env.upsert))
  {
  }

  /** The run looks the record up, because it is forced or does not see its address in the cache. */
  predicate LooksUp(cfg: Config, opts: Options, env: Env, w: World, isIP: string -> bool) {
    var current := CurrentIP(cfg, opts, env);
    && current.Ok? && env.clientOk
    && (opts.force || current.value != SeenIP(w.cache, env, isIP))
    && (env.lookup.LookupAnswers? || env.lookup == LookupFails(false))
  }

  /** It is unforced and finds the record at its address. */
  predicate FindsRecord(cfg: Config, opts: Options, env: Env, w: World, isIP: string -> bool) {
    && LooksUp(cfg, opts, env, w, isIP) && !opts.force
    && env.lookup.LookupAnswers? && w.record == Some(CurrentIP(cfg, opts, env).value)
  }

  predicate CallsUpdateIP(cfg: Config, opts: Options, env: Env, w: World, isIP: string -> bool) {
    LooksUp(cfg, opts, env, w, isIP) && !FindsRecord(cfg, opts, env, w, isIP) && !opts.dryRun
  }

  /** UpdateIP is called exactly when an address was resolved, this is no dry run, the client and
      the lookup did not stop the run, and either the run is forced or neither what it saw of the
      cache nor the record that the lookup found is the address; it is called with that address. */
  lemma CallIff(cfg: Config, opts: Options, env: Env, w: World, isIP: string -> bool)
    ensures var run, current := RunUpdate(cfg, opts, env, w, isIP), CurrentIP(cfg, opts, env);
            && (run.called.Some? <==> CallsUpdateIP(cfg, opts, env, w, isIP))
            && (run.called.Some? <==>
                 && current.Ok? && !opts.dryRun && env.clientOk
                 && (env.lookup.LookupAnswers? || env.lookup == LookupFails(false))
                 && (opts.force || (current.value != SeenIP(w.cache, env, isIP) &&
                                    (env.lookup.LookupAnswers? ==> w.record != Some(current.value)))))
            && (run.called.Some? ==> run.called.value == current.value)
  {
  }

  /** Exactly when a run rewrites the cache. */
  predicate RewritesCache(cfg: Config, opts: Options, env: Env, w: World, isIP: string -> bool) {
    FindsRecord(cfg, opts, env, w, isIP) || (CallsUpdateIP(cfg, opts, env, w, isIP) && env.upsert.UpsertSucceeds?)
  }

  lemma RefreshesIff(cfg: Config, opts: Options, env: Env, w: World, isIP: string -> bool)
    ensures Refreshes(RunUpdate(cfg, opts, env, w, isIP).outcome) <==> RewritesCache(cfg, opts, env, w, isIP)
  {
    assert |"nochg-cache"| == 11 && |"nochg-dns"| == 9 && |"updated"| == |"dry-run"| == 7 && "updated"[0] != "dry-run"[0];
  }

  /** What a run returns, exactly when. */
  lemma OutcomeIff(cfg: Config, opts: Options, env: Env, w: World, isIP: string -> bool)
    ensures var outcome, ip := RunUpdate(cfg, opts, env, w, isIP).outcome, CurrentIP(cfg, opts, env);
            var cached := ip.Ok? && !opts.force && ip.value == SeenIP(w.cache, env, isIP);
            && (outcome.Done? && outcome.result.action == "nochg-cache" <==> cached)
            && (outcome.Done? && outcome.result.action == "nochg-dns" <==> FindsRecord(cfg, opts, env, w, isIP))
            && (outcome.Done? && outcome.result.action == "dry-run" <==>
                 LooksUp(cfg, opts, env, w, isIP) && !FindsRecord(cfg, opts, env, w, isIP) && opts.dryRun)
            && (outcome.Done? && outcome.result.action == "updated" <==>
                 CallsUpdateIP(cfg, opts, env, w, isIP) && env.upsert.UpsertSucceeds?)
            && (outcome.Panicked? <==>
                 || (ip.Ok? && !cached && env.clientOk && env.lookup.LookupPanics?)
                 || (CallsUpdateIP(cfg, opts, env, w, isIP) && env.upsert.UpsertPanics?))
            && (outcome.Failed? <==>
                 || ip.Err?
                 || (!cached && (!env.clientOk || env.lookup == LookupFails(true)))
                 || (CallsUpdateIP(cfg, opts, env, w, isIP) && env.upsert.UpsertFails?))
  {
    assert |"nochg-cache"| == 11 && |"nochg-dns"| == 9 && |"updated"| == |"dry-run"| == 7 && "updated"[0] != "dry-run"[0];
  }

  lemma RefreshedCoherentIff(w: World, ip: string, c: CacheWrite, isIP: string -> bool)
    requires Coherent(w, isIP)
    ensures Coherent(AfterCacheWrite(w.(record := Some(ip)), ip, c), isIP) <==> WriteFits(w, ip, c, isIP)
  {
    if c.CacheWritten? {
      ReadBack(ip, c.stamp, isIP);
    }
  }

  /** What the cache file is left with fits a record at `ip`: a text it can hold, or one that reads
      back as nothing; if it was not written, an old entry that is none or this very address; if it
      was torn, a remainder that reads as nothing or as this very address. */
  predicate WriteFits(w: World, ip: string, c: CacheWrite, isIP: string -> bool) {
    match c
    case CacheWritten(_) => Cacheable(ip) || TrimSpace(Before(ip, '\n')) == ""
    case CacheUnwritten => Cached(w, isIP) == "" || Cached(w, isIP) == ip
    case CacheTorn(left) => ReadCachedIP(left, isIP) == "" || ReadCachedIP(left, isIP) == ip
  }

  /** Exactly when a run leaves the cache coherent, from what is known before it. A run that finds
      the record at its address, or puts it there, rewrites the cache: the file must then fit the
      address. Any other run leaves the cache alone: then an UPSERT that took effect and was not
      reported as a success breaks coherence, unless the cache held nothing or this very address. */
  lemma RunCoherentIff(cfg: Config, opts: Options, env: Env, w: World, isIP: string -> bool)
    requires Coherent(w, isIP) && CurrentIP(cfg, opts, env).Ok?
    ensures var ip := CurrentIP(cfg, opts, env).value;
            Coherent(RunUpdate(cfg, opts, env, w, isIP).world, isIP) <==>
              if RewritesCache(cfg, opts, env, w, isIP) then
                WriteFits(w, ip, env.cacheWrite, isIP)
              else
                || !CallsUpdateIP(cfg, opts, env, w, isIP) || !env.upsert.applied
                || Cached(w, isIP) == "" || Cached(w, isIP) == ip
  {
    WorldAfter(cfg, opts, env, w, isIP);
    CallIff(cfg, opts, env, w, isIP);
    RefreshesIff(cfg, opts, env, w, isIP);
    RefreshedCoherentIff(w, CurrentIP(cfg, opts, env).value, env.cacheWrite, isIP);
  }

  /** A run keeps the cache coherent unless a cache write failed or an UPSERT took effect and still
      returned an error; and unless it was a dry run, a success leaves the record at the resolved
      address, forced or not. (A resolver that returned the empty text would match an empty cache.) */
  lemma RunKeepsCoherent(cfg: Config, opts: Options, env: Env, w: World, isIP: string -> bool)
    requires Coherent(w, isIP)
    requires CurrentIP(cfg, opts, env).Ok? ==> Cacheable(CurrentIP(cfg, opts, env).value)
    ensures var run := RunUpdate(cfg, opts, env, w, isIP);
            && (run.accepted <==> run.outcome.Done? && run.outcome.result.action == "updated")
            && (run.accepted ==> run.called == Some(CurrentIP(cfg, opts, env).value))
            && (run.outcome.Done? && run.outcome.result.action != "dry-run" && run.outcome.result.newIP != "" ==>
                 && run.world.record == Some(run.outcome.result.newIP)
                 && Ok(run.outcome.result.newIP) == CurrentIP(cfg, opts, env))
            && (!run.cacheFailed && (run.called.Some? && !run.accepted ==> !env.upsert.applied) ==>
                 Coherent(run.world, isIP))
  {
    WorldAfter(cfg, opts, env, w, isIP);
    if CurrentIP(cfg, opts, env).Ok? {
      RunCoherentIff(cfg, opts, env, w, isIP);
    }
  }

  /** A dry run never calls UpdateIP and never moves the record. It writes the cache in one case
      only: it is unforced, does not see its address in the cache, and finds the record at it. */
  lemma DryRunTouches(cfg: Config, opts: Options, env: Env, w: World, isIP: string -> bool)
    requires opts.dryRun
    ensures var run := RunUpdate(cfg, opts, env, w, isIP);
            && run.called.None?
            && run.world ==
                 if && w.record.Some? && CurrentIP(cfg, opts, env) == Ok(w.record.value) && !opts.force
                    && env.clientOk && env.lookup.LookupAnswers? && SeenIP(w.cache, env, isIP) != w.record.value
                 then AfterCacheWrite(w, w.record.value, env.cacheWrite)
                 else w
  {
  }

  // ---------------------------------------------------------------- sequences of runs

  datatype Job = Job(opts: Options, env: Env)

  function Runs(cfg: Config, w: World, jobs: seq<Job>, isIP: string -> bool): (runs: seq<Run>)
    ensures |runs| == |jobs|
    decreases jobs
  {
    if jobs == [] then [] else
      var run := RunUpdate(cfg, jobs[0].opts, jobs[0].env, w, isIP);
      [run] + Runs(cfg, run.world, jobs[1..], isIP)
  }

  /** No failed cache write, no UPSERT that takes effect and still errs, and every resolved address
      is one non-empty trimmed line. */
  ghost predicate WellBehaved(cfg: Config, job: Job) {
    var current := CurrentIP(cfg, job.opts, job.env);
    && job.env.cacheWrite.CacheWritten?
    && (job.env.upsert.UpsertSucceeds? || !job.env.upsert.applied)
    && (current.Ok? ==> current.value != "" && Cacheable(current.value))
  }

  ghost predicate EndsAtIts(cfg: Config, job: Job, run: Run) {
    run.outcome.Done? && run.outcome.result.action != "dry-run" ==>
      && Ok(run.outcome.result.newIP) == CurrentIP(cfg, job.opts, job.env)
      && run.world.record == Some(run.outcome.result.newIP)
  }

  lemma JobKeepsCoherent(cfg: Config, job: Job, w: World, isIP: string -> bool)
    requires Coherent(w, isIP) && WellBehaved(cfg, job)
    ensures var run := RunUpdate(cfg, job.opts, job.env, w, isIP);
            Coherent(run.world, isIP) && EndsAtIts(cfg, job, run)
  {
    RunKeepsCoherent(cfg, job.opts, job.env, w, isIP);
    ActionsTellEffects(cfg, job.opts, job.env, w, isIP);
  }

  lemma OnlyDryRunsSaySo(cfg: Config, opts: Options, env: Env, w: World, isIP: string -> bool)
    requires !opts.dryRun
    ensures var run := RunUpdate(cfg, opts, env, w, isIP);
            run.outcome.Done? ==> run.outcome.result.action != "dry-run"
  {
    assert |"dry-run"| == |"updated"| == 7 && "dry-run"[0] != "updated"[0] && |"nochg-dns"| == 9 && |"nochg-cache"| == 11;
  }

  /** Over any number of runs one after another the cache stays empty or equal to the record, and
      every success that is not a dry run ends with the record at the address it resolved. */
  lemma {:induction false} RunsKeepCoherent(cfg: Config, w: World, jobs: seq<Job>, isIP: string -> bool)
    requires Coherent(w, isIP) && forall i :: 0 <= i < |jobs| ==> WellBehaved(cfg, jobs[i])
    ensures var runs := Runs(cfg, w, jobs, isIP);
            forall i :: 0 <= i < |jobs| ==> Coherent(runs[i].world, isIP) && EndsAtIts(cfg, jobs[i], runs[i])
    decreases jobs
  {
    if jobs != [] {
      JobKeepsCoherent(cfg, jobs[0], w, isIP);
      RunsKeepCoherent(cfg, Runs(cfg, w, jobs, isIP)[0].world, jobs[1..], isIP);
    }
  }

  datatype Event = RunOf(job: Job) | OutsideEdit(record: Option<string>)

  /** What a sequence of events adds up to: calls of UpdateIP, resolved addresses that differ from
      the one resolved before, failed calls, failed reads and writes of the cache, forced runs, and
      resolved texts that the cache file cannot hold. */
  datatype Tally = Tally(
    calls: nat, changes: nat, failedCalls: nat, failedReads: nat, failedWrites: nat, forced: nat, strays: nat)

  const NOTHING := Tally(0, 0, 0, 0, 0, 0, 0)

  function Sum(a: Tally, b: Tally): Tally {
    Tally(a.calls + b.calls, a.changes + b.changes, a.failedCalls + b.failedCalls, a.failedReads + b.failedReads,
          a.failedWrites + b.failedWrites, a.forced + b.forced, a.strays + b.strays)
  }

  function One(b: bool): nat {
    if b then 1 else 0
  }

  /** What one run adds, given the address resolved and the one resolved before. */
  function RunTally(run: Run, ip: Result<string>, last: Option<string>, job: Job): Tally {
    Tally(One(run.called.Some?), One(ip.Ok? && last.Some? && ip.value != last.value),
          One(run.called.Some? && !run.accepted), One(ip.Ok? && !job.env.readable), One(run.cacheFailed),
          One(job.opts.force), One(ip.Ok? && !Cacheable(ip.value)))
  }

  function EventTally(cfg: Config, w: World, last: Option<string>, e: Event, isIP: string -> bool): Tally {
    if e.OutsideEdit? then NOTHING else
      RunTally(RunUpdate(cfg, e.job.opts, e.job.env, w, isIP), CurrentIP(cfg, e.job.opts, e.job.env), last, e.job)
  }

  function AfterEvent(cfg: Config, w: World, e: Event, isIP: string -> bool): World {
    if e.OutsideEdit? then w.(record := e.record)
    else RunUpdate(cfg, e.job.opts, e.job.env, w, isIP).world
  }

  function LastIP(cfg: Config, last: Option<string>, e: Event): Option<string> {
    if e.RunOf? && CurrentIP(cfg, e.job.opts, e.job.env).Ok?
    then Some(CurrentIP(cfg, e.job.opts, e.job.env).value) else last
  }

  function Total(cfg: Config, w: World, last: Option<string>, events: seq<Event>, isIP: string -> bool): Tally
    decreases events
  {
    if events == [] then NOTHING else
      Sum(EventTally(cfg, w, last, events[0], isIP),
          Total(cfg, AfterEvent(cfg, w, events[0], isIP), LastIP(cfg, last, events[0]), events[1..], isIP))
  }

  /** What pays for the calls. */
  function Causes(t: Tally): nat {
    t.changes + t.failedCalls + t.failedReads + t.failedWrites + t.forced + t.strays
  }

  /** One call is paid in advance while the cache holds the last resolved address. */
  function Credit(w: World, last: Option<string>, isIP: string -> bool): nat {
    One(last.Some? && Cached(w, isIP) == last.value)
  }

  /** After a run whose address the cache file can hold, either the cache holds it, or something
      failed, or neither cache nor UpdateIP was touched. */
  lemma CacheAfterRun(cfg: Config, opts: Options, env: Env, w: World, isIP: string -> bool)
    requires CurrentIP(cfg, opts, env).Ok? && Cacheable(CurrentIP(cfg, opts, env).value)
    ensures var run := RunUpdate(cfg, opts, env, w, isIP);
            || Cached(run.world, isIP) == CurrentIP(cfg, opts, env).value
            || run.cacheFailed
            || (run.world.cache == w.cache && (run.called.None? || !run.accepted))
  {
    if env.cacheWrite.CacheWritten? {
      var ip := CurrentIP(cfg, opts, env).value;
      CacheWriteReads(w.(record := Some(ip)), ip, env.cacheWrite.stamp, isIP);
      WorldAfter(cfg, opts, env, w, isIP);
    }
  }

  /** An unforced run that sees its address in the cache touches nothing. */
  lemma HeldAfterRun(cfg: Config, opts: Options, env: Env, w: World, isIP: string -> bool)
    requires CurrentIP(cfg, opts, env) == Ok(Cached(w, isIP)) && env.readable && !opts.force
    ensures var run := RunUpdate(cfg, opts, env, w, isIP);
            run.world == w && run.called.None?
  {
  }

  /** What a run does to the cache, as far as its cost depends on it. */
  ghost predicate KeepsAccount(run: Run, ip: Result<string>, job: Job, w: World, isIP: string -> bool) {
    && (ip.Err? ==> run.called.None? && run.world == w)
    && (ip.Ok? && Cached(w, isIP) == ip.value && job.env.readable && !job.opts.force ==> run.called.None? && run.world == w)
    && (ip.Ok? && Cacheable(ip.value) ==>
         || Cached(run.world, isIP) == ip.value
         || run.cacheFailed
         || (run.world.cache == w.cache && (run.called.None? || !run.accepted)))
  }

  lemma RunKeepsAccount(cfg: Config, job: Job, w: World, isIP: string -> bool)
    ensures KeepsAccount(RunUpdate(cfg, job.opts, job.env, w, isIP), CurrentIP(cfg, job.opts, job.env), job, w, isIP)
  {
    var ip := CurrentIP(cfg, job.opts, job.env);
    WorldAfter(cfg, job.opts, job.env, w, isIP);
    if ip.Ok? && Cached(w, isIP) == ip.value && job.env.readable && !job.opts.force {
      HeldAfterRun(cfg, job.opts, job.env, w, isIP);
    }
    if ip.Ok? && Cacheable(ip.value) {
      CacheAfterRun(cfg, job.opts, job.env, w, isIP);
    }
  }

  lemma RunCost(run: Run, ip: Result<string>, last: Option<string>, job: Job, w: World, isIP: string -> bool)
    requires KeepsAccount(run, ip, job, w, isIP)
    ensures var t := RunTally(run, ip, last, job);
            t.calls + Credit(w, last, isIP) <=
            Causes(t) + Credit(run.world, if ip.Ok? then Some(ip.value) else last, isIP)
  {
  }

  lemma EventCost(cfg: Config, w: World, last: Option<string>, e: Event, isIP: string -> bool)
    ensures var t := EventTally(cfg, w, last, e, isIP);
            t.calls + Credit(w, last, isIP) <= Causes(t) + Credit(AfterEvent(cfg, w, e, isIP), LastIP(cfg, last, e), isIP)
  {
    if e.RunOf? {
      RunKeepsAccount(cfg, e.job, w, isIP);
      RunCost(RunUpdate(cfg, e.job.opts, e.job.env, w, isIP), CurrentIP(cfg, e.job.opts, e.job.env), last, e.job, w, isIP);
    }
  }

  lemma {:induction false} TotalCost(cfg: Config, w: World, last: Option<string>, events: seq<Event>, isIP: string -> bool)
    ensures var t := Total(cfg, w, last, events, isIP);
            t.calls + Credit(w, last, isIP) <= Causes(t) + 1
    decreases events
  {
    if events != [] {
      EventCost(cfg, w, last, events[0], isIP);
      TotalCost(cfg, AfterEvent(cfg, w, events[0], isIP), LastIP(cfg, last, events[0]), events[1..], isIP);
    }
  }

  /** Runs one after another, dry runs and outside edits of the record included, from any cache and
      any record: at most one UpdateIP call, plus one for every change of the resolved address,
      every failed call, every failed read or write of the cache, every forced run, and every
      resolved text that is not one trimmed line. */
  lemma CallBound(cfg: Config, w: World, events: seq<Event>, isIP: string -> bool)
    ensures var t := Total(cfg, w, None, events, isIP);
            t.calls <= 1 + t.changes + t.failedCalls + t.failedReads + t.failedWrites + t.forced + t.strays
  {
    TotalCost(cfg, w, None, events, isIP);
  }

  // ---------------------------------------------------------------- the bound is reached

  /** A run at `ip` whose lookup fails. */
  function RunAt(ip: string, forced: bool, readable: bool, u: Upsert, c: CacheWrite): Event {
    RunOf(Job(Options(forced, false, ip), Env(false, Err(""), Err(""), readable, true, LookupFails(false), u, c)))
  }

  predicate Plain(ip: string) {
    ip != "" && Cacheable(ip)
  }

  lemma RunAtCalls(cfg: Config, w: World, last: Option<string>, ip: string, forced: bool, readable: bool,
                   u: Upsert, c: CacheWrite, isIP: string -> bool)
    requires Plain(ip) && (forced || !readable || Cached(w, isIP) != ip)
    ensures var e := RunAt(ip, forced, readable, u, c);
            && EventTally(cfg, w, last, e, isIP) ==
                 Tally(1, One(last.Some? && ip != last.value), One(!u.UpsertSucceeds?), One(!readable),
                       One(u.UpsertSucceeds? && !c.CacheWritten?), One(forced), 0)
            && LastIP(cfg, last, e) == Some(ip)
            && (u.UpsertSucceeds? && c.CacheWritten? ==> Cached(AfterEvent(cfg, w, e, isIP), isIP) == ip)
            && (!u.UpsertSucceeds? || c.CacheUnwritten? ==>
                 Cached(AfterEvent(cfg, w, e, isIP), isIP) == Cached(w, isIP))
  {
    if c.CacheWritten? {
      CacheWriteReads(AfterUpsert(w, ip, u), ip, c.stamp, isIP);
    }
  }

  /** The tally `t` is reached from here. */
  ghost predicate Reaches(cfg: Config, w: World, last: Option<string>, t: Tally, isIP: string -> bool) {
    exists events :: Total(cfg, w, last, events, isIP) == t
  }

  /** What is reached after one run, put after it. */
  lemma RunThen(cfg: Config, w: World, last: Option<string>, ip: string, forced: bool, readable: bool,
                u: Upsert, c: CacheWrite, isIP: string -> bool)
    returns (w': World)
    requires Plain(ip) && (forced || !readable || Cached(w, isIP) != ip)
    ensures forall t :: Reaches(cfg, w', Some(ip), t, isIP) ==>
              Reaches(cfg, w, last,
                      Sum(Tally(1, One(last.Some? && ip != last.value), One(!u.UpsertSucceeds?), One(!readable),
                                One(u.UpsertSucceeds? && !c.CacheWritten?), One(forced), 0), t), isIP)
    ensures u.UpsertSucceeds? && c.CacheWritten? ==> Cached(w', isIP) == ip
    ensures !u.UpsertSucceeds? || c.CacheUnwritten? ==> Cached(w', isIP) == Cached(w, isIP)
  {
    var e := RunAt(ip, forced, readable, u, c);
    w' := AfterEvent(cfg, w, e, isIP);
    RunAtCalls(cfg, w, last, ip, forced, readable, u, c, isIP);
    forall t | Reaches(cfg, w', Some(ip), t, isIP)
      ensures Reaches(cfg, w, last, Sum(EventTally(cfg, w, last, e, isIP), t), isIP)
    {
      ReachesNext(cfg, w, last, e, t, isIP);
    }
  }

  lemma ReachesNext(cfg: Config, w: World, last: Option<string>, e: Event, t: Tally, isIP: string -> bool)
    requires Reaches(cfg, AfterEvent(cfg, w, e, isIP), LastIP(cfg, last, e), t, isIP)
    ensures Reaches(cfg, w, last, Sum(EventTally(cfg, w, last, e, isIP), t), isIP)
  {
    var rest :| Total(cfg, AfterEvent(cfg, w, e, isIP), LastIP(cfg, last, e), rest, isIP) == t;
    assert ([e] + rest)[1..] == rest;
    assert Total(cfg, w, last, [e] + rest, isIP) == Sum(EventTally(cfg, w, last, e, isIP), t);
  }

  lemma ReachesNothing(cfg: Config, w: World, last: Option<string>, isIP: string -> bool)
    ensures Reaches(cfg, w, last, NOTHING, isIP)
  {
    assert Total(cfg, w, last, [], isIP) == NOTHING;
  }

  /** With the last address in the cache, every change, failed read and forced run can cost a call. */
  lemma {:induction false} SpendCached(cfg: Config, w: World, a: string, b: string, t: Tally, isIP: string -> bool)
    requires Plain(a) && Plain(b) && a != b && Cached(w, isIP) == a
    requires t.calls == Causes(t) && t.failedCalls == t.failedWrites == t.strays == 0
    ensures Reaches(cfg, w, Some(a), t, isIP)
    decreases t.calls
  {
    if t.failedReads > 0 {
      var w' := RunThen(cfg, w, Some(a), a, false, false, UpsertSucceeds, CacheWritten(""), isIP);
      var less := t.(calls := t.calls - 1, failedReads := t.failedReads - 1);
      assert t == Sum(NOTHING.(calls := 1, failedReads := 1), less);
      SpendCached(cfg, w', a, b, less, isIP);
    } else if t.forced > 0 {
      var w' := RunThen(cfg, w, Some(a), a, true, true, UpsertSucceeds, CacheWritten(""), isIP);
      var less := t.(calls := t.calls - 1, forced := t.forced - 1);
      assert t == Sum(NOTHING.(calls := 1, forced := 1), less);
      SpendCached(cfg, w', a, b, less, isIP);
    } else if t.changes > 0 {
      var w' := RunThen(cfg, w, Some(a), b, false, true, UpsertSucceeds, CacheWritten(""), isIP);
      var less := t.(calls := t.calls - 1, changes := t.changes - 1);
      assert t == Sum(NOTHING.(calls := 1, changes := 1), less);
      SpendCached(cfg, w', b, a, less, isIP);
    } else {
      ReachesNothing(cfg, w, Some(a), isIP);
    }
  }

  /** Before that, every failed call and every failed write can, and one call more is free. */
  lemma {:induction false} SpendAll(cfg: Config, w: World, last: Option<string>, a: string, b: string,
                                    t: Tally, isIP: string -> bool)
    requires Plain(a) && Plain(b) && a != b && Cached(w, isIP) != a && (last.Some? ==> last.value == a)
    requires t.calls == 1 + Causes(t) && t.strays == 0
    ensures Reaches(cfg, w, last, t, isIP)
    decreases t.failedCalls + t.failedWrites
  {
    if t.failedCalls > 0 {
      var w' := RunThen(cfg, w, last, a, false, true, UpsertFails(false), CacheUnwritten, isIP);
      var less := t.(calls := t.calls - 1, failedCalls := t.failedCalls - 1);
      assert t == Sum(NOTHING.(calls := 1, failedCalls := 1), less);
      SpendAll(cfg, w', Some(a), a, b, less, isIP);
    } else if t.failedWrites > 0 {
      var w' := RunThen(cfg, w, last, a, false, true, UpsertSucceeds, CacheUnwritten, isIP);
      var less := t.(calls := t.calls - 1, failedWrites := t.failedWrites - 1);
      assert t == Sum(NOTHING.(calls := 1, failedWrites := 1), less);
      SpendAll(cfg, w', Some(a), a, b, less, isIP);
    } else {
      var w' := RunThen(cfg, w, last, a, false, true, UpsertSucceeds, CacheWritten(""), isIP);
      var less := t.(calls := t.calls - 1);
      assert t == Sum(NOTHING.(calls := 1), less);
      SpendCached(cfg, w', a, b, less, isIP);
    }
  }

  /** From every world and for all numbers of the other causes, without strays, the bound is reached. */
  lemma CallBoundIsExact(cfg: Config, w: World, t: Tally, isIP: string -> bool)
    requires t.calls == 1 + Causes(t) && t.strays == 0
    ensures exists events :: Total(cfg, w, None, events, isIP) == t
  {
    AddressCacheable("1");
    AddressCacheable("2");
    assert "1"[0] != "2"[0];
    var a, b := if Cached(w, isIP) == "1" then "2" else "1", if Cached(w, isIP) == "1" then "1" else "2";
    SpendAll(cfg, w, None, a, b, t, isIP);
  }
}
