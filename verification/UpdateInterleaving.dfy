/** Update runs whose external steps interleave (internal/updater/updater.go): cron, serve and the
    command line may run at the same time, and anyone may edit the record. */
module UpdateInterleaving {
  import opened Text
  import opened Updater
  import opened UpdateRuns

  /** Where a run stands between two of its external calls. */
  datatype Point =
    | Resolving
    | Comparing(ip: string)
    | Looking(ip: string)
    | Upserting(ip: string, dnsIP: string)
    | Caching(ip: string, result: UpdateResult)
    | Finished(outcome: Outcome)

  /** One external call of a run, with the code up to the next one. */
  function Advance(cfg: Config, job: Job, w: World, p: Point, isIP: string -> bool): (World, Point) {
    var env, opts := job.env, job.opts;
    match p
    case Resolving =>
      var current := CurrentIP(cfg, opts, env);
      (w, if current.Ok? then Comparing(current.value) else Finished(Failed(current.error)))
    case Comparing(ip) =>
      var cached := SeenIP(w.cache, env, isIP);
      (w, if !opts.force && ip == cached then Finished(Done(UpdateResult("nochg-cache", cached, ip, cfg.hostname)))
          else if !env.clientOk then Finished(Failed("failed to create Route53 client"))
          else Looking(ip))
    case Looking(ip) =>
      (w, match env.lookup
          case LookupPanics => Finished(Panicked("GetCurrentIP"))
          case LookupFails(canceled) =>
            if canceled then Finished(Failed("context done")) else AfterLookup(cfg, opts, ip, "")
          case LookupAnswers =>
            if w.record.None? then AfterLookup(cfg, opts, ip, "")
            else if ip == w.record.value && !opts.force
            then Caching(ip, UpdateResult("nochg-dns", ip, ip, cfg.hostname))
            else AfterLookup(cfg, opts, ip, w.record.value))
    case Upserting(ip, dnsIP) =>
      (AfterUpsert(w, ip, env.upsert),
       match env.upsert
       case UpsertSucceeds => Caching(ip, UpdateResult("updated", dnsIP, ip, cfg.hostname))
       case UpsertFails(_) => Finished(Failed("failed to update Route53"))
       case UpsertPanics(_) => Finished(Panicked("UpdateIP")))
    case Caching(ip, result) =>
      (AfterCacheWrite(w, ip, env.cacheWrite), Finished(Done(result)))
    case Finished(_) => (w, p)
  }

  function AfterLookup(cfg: Config, opts: Options, ip: string, dnsIP: string): Point {
    if opts.dryRun then Finished(Done(UpdateResult("dry-run", dnsIP, ip, cfg.hostname))) else Upserting(ip, dnsIP)
  }

  function StepsLeft(p: Point): nat {
    match p
    case Resolving => 5
    case Comparing(_) => 4
    case Looking(_) => 3
    case Upserting(_, _) => 2
    case Caching(_, _) => 1
    case Finished(_) => 0
  }

  /** A run that nothing interrupts. */
  function Finish(cfg: Config, job: Job, w: World, p: Point, isIP: string -> bool): (World, Outcome)
    decreases StepsLeft(p)
  {
    if p.Finished? then (w, p.outcome) else
      var (w', p') := Advance(cfg, job, w, p, isIP);
      Finish(cfg, job, w', p', isIP)
  }

  /** The steps, taken without interruption, are the update flow. */
  lemma {:induction false} SoloRunIsUpdate(cfg: Config, job: Job, w: World, isIP: string -> bool)
    ensures var run := RunUpdate(cfg, job.opts, job.env, w, isIP);
            Finish(cfg, job, w, Resolving, isIP) == (run.world, run.outcome)
  {
    var (w1, p1) := Advance(cfg, job, w, Resolving, isIP);
    if p1.Comparing? {
      var (w2, p2) := Advance(cfg, job, w1, p1, isIP);
      if p2.Looking? {
        FromLookup(cfg, job, w, p2.ip, isIP);
      }
    }
  }

  /** From the lookup on. */
  lemma {:induction false} FromLookup(cfg: Config, job: Job, w: World, ip: string, isIP: string -> bool)
    requires CurrentIP(cfg, job.opts, job.env) == Ok(ip) && job.env.clientOk
    requires job.opts.force || ip != SeenIP(w.cache, job.env, isIP)
    ensures var run := RunUpdate(cfg, job.opts, job.env, w, isIP);
            Finish(cfg, job, w, Looking(ip), isIP) == (run.world, run.outcome)
  {
    var (w', p) := Advance(cfg, job, w, Looking(ip), isIP);
    match p {
      case Caching(a, r) => FinishCaching(cfg, job, w', a, r, isIP);
      case Upserting(a, dnsIP) => FinishUpserting(cfg, job, w', a, dnsIP, isIP);
      case _ =>
    }
  }

  lemma {:induction false} FinishCaching(cfg: Config, job: Job, w: World, ip: string, r: UpdateResult, isIP: string -> bool)
    ensures Finish(cfg, job, w, Caching(ip, r), isIP) == (AfterCacheWrite(w, ip, job.env.cacheWrite), Done(r))
  {
  }

  lemma {:induction false} FinishUpserting(cfg: Config, job: Job, w: World, ip: string, dnsIP: string, isIP: string -> bool)
    ensures var w1 := AfterUpsert(w, ip, job.env.upsert);
            Finish(cfg, job, w, Upserting(ip, dnsIP), isIP) ==
              match job.env.upsert
              case UpsertSucceeds =>
                (AfterCacheWrite(w1, ip, job.env.cacheWrite), Done(UpdateResult("updated", dnsIP, ip, cfg.hostname)))
              case UpsertFails(_) => (w1, Failed("failed to update Route53"))
              case UpsertPanics(_) => (w1, Panicked("UpdateIP"))
  {
    if job.env.upsert.UpsertSucceeds? {
      FinishCaching(cfg, job, AfterUpsert(w, ip, job.env.upsert), ip,
                    UpdateResult("updated", dnsIP, ip, cfg.hostname), isIP);
    }
  }

  // ---------------------------------------------------------------- interleavings

  datatype System = System(world: World, points: seq<Point>)

  /** Fixed for a whole behaviour: what each run is asked to do and how its calls turn out. */
  datatype Setting = Setting(cfg: Config, jobs: seq<Job>, isIP: string -> bool)

  ghost predicate RunSteps(x: Setting, s: System, s': System, i: nat) {
    && i < |x.jobs| == |s.points| == |s'.points|
    && (s'.world, s'.points[i]) == Advance(x.cfg, x.jobs[i], s.world, s.points[i], x.isIP)
    && forall k :: 0 <= k < |s.points| && k != i ==> s'.points[k] == s.points[k]
  }

  /** One step of one run, or an outside edit of the record (possibly to what it was). */
  ghost predicate Next(x: Setting, s: System, s': System) {
    || (exists i :: RunSteps(x, s, s', i))
    || (s'.points == s.points && s'.world.cache == s.world.cache)
  }

  ghost predicate Starts(x: Setting, s: System) {
    && |s.points| == |x.jobs|
    && (forall i :: 0 <= i < |s.points| ==> s.points[i] == Resolving)
    && Coherent(s.world, x.isIP)
  }

  /** Cache writes are atomic, and a resolved address is one trimmed line; nothing else. */
  ghost predicate Plain(x: Setting) {
    forall i :: 0 <= i < |x.jobs| ==>
      && !x.jobs[i].env.cacheWrite.CacheTorn?
      && (CurrentIP(x.cfg, x.jobs[i].opts, x.jobs[i].env).Ok? ==>
           Cacheable(CurrentIP(x.cfg, x.jobs[i].opts, x.jobs[i].env).value))
  }

  ghost predicate Behaviour(x: Setting, b: seq<System>) {
    && b != [] && Starts(x, b[0])
    && forall t :: 0 <= t < |b| - 1 ==> Next(x, b[t], b[t + 1])
  }

  /** The record held `ip` at moment `t` or earlier. */
  ghost predicate Held(b: seq<System>, t: nat, ip: string)
    requires t < |b|
  {
    exists j :: 0 <= j <= t && b[j].world.record == Some(ip)
  }

  ghost predicate PointOk(b: seq<System>, t: nat, p: Point)
    requires t < |b|
  {
    match p
    case Comparing(ip) => Cacheable(ip)
    case Looking(ip) => Cacheable(ip)
    case Upserting(ip, _) => Cacheable(ip)
    case Caching(ip, _) => Cacheable(ip) && Held(b, t, ip)
    case _ => true
  }

  ghost predicate Inv(x: Setting, b: seq<System>, t: nat)
    requires t < |b|
  {
    && |b[t].points| == |x.jobs|
    && (Cached(b[t].world, x.isIP) != "" ==> Held(b, t, Cached(b[t].world, x.isIP)))
    && forall i :: 0 <= i < |b[t].points| ==> PointOk(b, t, b[t].points[i])
  }

  lemma HeldLater(b: seq<System>, t: nat, ip: string)
    requires t + 1 < |b|
    ensures Held(b, t, ip) ==> Held(b, t + 1, ip)
    ensures b[t].world.record == Some(ip) ==> Held(b, t, ip)
    ensures b[t + 1].world.record == Some(ip) ==> Held(b, t + 1, ip)
  {
  }

  lemma StepKeepsInv(x: Setting, b: seq<System>, t: nat, i: nat)
    requires Plain(x) && t + 1 < |b| && Inv(x, b, t) && RunSteps(x, b[t], b[t + 1], i)
    ensures Inv(x, b, t + 1)
  {
    var p, p', job := b[t].points[i], b[t + 1].points[i], x.jobs[i];
    var after := b[t + 1].points;
    forall k | 0 <= k < |after| && k != i
      ensures PointOk(b, t + 1, after[k])
    {
      assert PointOk(b, t, b[t].points[k]);
    }
    assert PointOk(b, t, p);
    assert PointOk(b, t + 1, p') by {
      if p.Looking? && p'.Caching? {
        HeldLater(b, t, p.ip);
      }
    }
    if p.Caching? && job.env.cacheWrite.CacheWritten? {
      CacheWriteReads(b[t].world, p.ip, job.env.cacheWrite.stamp, x.isIP);
      HeldLater(b, t, p.ip);
    } else {
      assert b[t + 1].world.cache == b[t].world.cache;
      HeldLater(b, t, Cached(b[t].world, x.isIP));
    }
  }

  lemma EditKeepsInv(x: Setting, b: seq<System>, t: nat)
    requires t + 1 < |b| && Inv(x, b, t)
    requires b[t + 1].points == b[t].points && b[t + 1].world.cache == b[t].world.cache
    ensures Inv(x, b, t + 1)
  {
    var after := b[t + 1].points;
    forall k | 0 <= k < |after|
      ensures PointOk(b, t + 1, after[k])
    {
      assert PointOk(b, t, b[t].points[k]);
    }
    HeldLater(b, t, Cached(b[t].world, x.isIP));
  }

  lemma {:induction false} BehaviourKeepsInv(x: Setting, b: seq<System>, t: nat)
    requires Plain(x) && Behaviour(x, b) && t < |b|
    ensures Inv(x, b, t)
  {
    if t > 0 {
      BehaviourKeepsInv(x, b, t - 1);
      assert Next(x, b[t - 1], b[t - 1 + 1]);
      NextKeepsInv(x, b, t);
    }
  }

  lemma {:induction false} NextKeepsInv(x: Setting, b: seq<System>, t: nat)
    requires Plain(x) && 0 < t < |b| && Inv(x, b, t - 1) && Next(x, b[t - 1], b[t])
    ensures Inv(x, b, t)
  {
    var s, s' := b[t - 1], b[t];
    if i :| RunSteps(x, s, s', i) {
      StepKeepsInv(x, b, t - 1, i);
    } else {
      EditKeepsInv(x, b, t - 1);
    }
  }

  /** Whatever the interleaving, the failures and the outside edits: a non-empty value in the cache
      was the value of the record at that moment or an earlier one. */
  lemma CacheWasRecord(x: Setting, b: seq<System>, t: nat)
    requires Plain(x) && Behaviour(x, b) && t < |b|
    ensures Cached(b[t].world, x.isIP) != "" ==>
              exists j :: 0 <= j <= t && b[j].world.record == Some(Cached(b[t].world, x.isIP))
  {
    BehaviourKeepsInv(x, b, t);
  }

  // ---------------------------------------------------------------- what interleaving keeps

  /** Run `i` has seen or set the record and has yet to write the cache. */
  ghost predicate Between(s: System, i: nat)
    requires i < |s.points|
  {
    s.points[i].Caching?
  }

  ghost predicate NoneBetween(s: System) {
    forall i :: 0 <= i < |s.points| ==> !Between(s, i)
  }

  /** If this step moves the record, it is a run's, and no run is between. */
  ghost predicate UndisturbedStep(x: Setting, s: System, s': System) {
    s'.world.record != s.world.record ==> NoneBetween(s) && exists i :: RunSteps(x, s, s', i)
  }

  /** No other UPSERT or edit moves the record while a run is between its record step and its cache
      write; nobody but the runs moves it at all. */
  ghost predicate Undisturbed(x: Setting, b: seq<System>) {
    forall t :: 0 <= t < |b| - 1 ==> UndisturbedStep(x, b[t], b[t + 1])
  }

  /** Cache writes succeed, UPSERTs that err have no effect, a resolved address is one non-empty line. */
  ghost predicate AllWellBehaved(x: Setting) {
    forall i :: 0 <= i < |x.jobs| ==> WellBehaved(x.cfg, x.jobs[i])
  }

  /** The run writes no other address than `ip`. */
  predicate Holds(p: Point, ip: string) {
    match p
    case Comparing(a) => a == ip
    case Looking(a) => a == ip
    case Upserting(a, _) => a == ip
    case Caching(a, _) => a == ip
    case _ => true
  }

  ghost predicate KeptPoint(cfg: Config, job: Job, w: World, p: Point) {
    var current := CurrentIP(cfg, job.opts, job.env);
    && (p.Caching? ==> w.record == Some(p.ip))
    && (current.Ok? ==> Holds(p, current.value)) && (current.Err? ==> p.Resolving? || p.Finished?)
  }

  /** Runs that are between have the record at their address; if there is none, the cache is empty or
      equal to the record. */
  ghost predicate Kept(x: Setting, s: System) {
    && |s.points| == |x.jobs|
    && (forall i :: 0 <= i < |s.points| ==> KeptPoint(x.cfg, x.jobs[i], s.world, s.points[i]))
    && (NoneBetween(s) ==> Coherent(s.world, x.isIP))
  }

  /** One external call of a run: what it does to record and cache. */
  lemma AdvanceEffect(cfg: Config, job: Job, w: World, p: Point, isIP: string -> bool)
    requires WellBehaved(cfg, job) && KeptPoint(cfg, job, w, p)
    ensures var (w', p') := Advance(cfg, job, w, p, isIP);
            && KeptPoint(cfg, job, w', p')
            && (p.Caching? ==> w'.record == w.record && Cached(w', isIP) == p.ip)
            && (!p.Caching? ==> w'.cache == w.cache)
            && (!p'.Caching? && !p.Caching? ==> w'.record == w.record)
  {
    if p.Caching? {
      CacheWriteReads(w, p.ip, job.env.cacheWrite.stamp, isIP);
    }
  }

  lemma StepKeeps(x: Setting, s: System, s': System, i: nat)
    requires AllWellBehaved(x) && Kept(x, s) && RunSteps(x, s, s', i)
    requires UndisturbedStep(x, s, s')
    ensures Kept(x, s')
  {
    assert KeptPoint(x.cfg, x.jobs[i], s.world, s.points[i]);
    AdvanceEffect(x.cfg, x.jobs[i], s.world, s.points[i], x.isIP);
    forall k | 0 <= k < |s'.points|
      ensures KeptPoint(x.cfg, x.jobs[k], s'.world, s'.points[k])
    {
      if k != i {
        assert KeptPoint(x.cfg, x.jobs[k], s.world, s.points[k]);
        assert Between(s, k) ==> s'.world.record == s.world.record;
      }
    }
    if NoneBetween(s') && !s.points[i].Caching? {
      assert !Between(s', i);
      forall k | 0 <= k < |s.points|
        ensures !Between(s, k)
      {
        assert !Between(s', k);
      }
    }
  }

  lemma {:induction false} BehaviourKeeps(x: Setting, b: seq<System>, t: nat)
    requires AllWellBehaved(x) && Behaviour(x, b) && Undisturbed(x, b) && t < |b|
    ensures Kept(x, b[t])
  {
    if t > 0 {
      BehaviourKeeps(x, b, t - 1);
      var s, s' := b[t - 1], b[t];
      assert Next(x, s, s') && UndisturbedStep(x, s, s');
      if i :| RunSteps(x, s, s', i) {
        StepKeeps(x, s, s', i);
      } else {
        assert s'.world == s.world;
      }
    }
  }

  /** The other half of OverlapBreaksCoherence: runs may overlap as they like, as long as nothing moves
      the record between a run's record step and its cache write; whenever no run is between the
      two, the cache is empty or equal to the record. */
  lemma UndisturbedStaysCoherent(x: Setting, b: seq<System>, t: nat)
    requires AllWellBehaved(x) && Behaviour(x, b) && Undisturbed(x, b) && t < |b|
    requires NoneBetween(b[t])
    ensures Coherent(b[t].world, x.isIP)
  {
    BehaviourKeeps(x, b, t);
  }

  // ---------------------------------------------------------------- what interleaving breaks

  function ForcedJob(ip: string): Job {
    Job(Options(true, false, ip),
        Env(false, Err(""), Err(""), true, true, LookupAnswers, UpsertSucceeds, CacheWritten("")))
  }

  /** Two overlapping runs, both successful, can leave the cache different from the record: each
      result is the other's, for any two addresses and any start. */
  lemma OverlapBreaksCoherence(cfg: Config, w: World, a: string, c: string, isIP: string -> bool)
    returns (x: Setting, b: seq<System>)
    requires Cacheable(a) && Cacheable(c) && a != "" && c != "" && a != c && Coherent(w, isIP)
    ensures Plain(x) && Behaviour(x, b) && x.isIP == isIP && b[0].world == w && |b| == 11
    ensures forall i :: 0 <= i < 2 ==> |b[10].points| == 2 && b[10].points[i].Finished? && b[10].points[i].outcome.Done?
    ensures Cached(b[10].world, isIP) == a && b[10].world.record == Some(c)
  {
    x := Setting(cfg, [ForcedJob(a), ForcedJob(c)], isIP);
    b := [System(w, [Resolving, Resolving])];
    b := UpToUpsert(x, b, 0, a);
    b := UpToUpsert(x, b, 1, c);
    b := Move(x, b, 1);
    b := Move(x, b, 0);
    CacheWriteReads(b[9].world, a, "", isIP);
  }

  /** The first four steps of a forced run: it has written the record but not yet the cache. */
  lemma UpToUpsert(x: Setting, b: seq<System>, i: nat, ip: string) returns (b': seq<System>)
    requires Behaviour(x, b) && i < |x.jobs| == |Last(b).points|
    requires x.jobs[i] == ForcedJob(ip) && ip != "" && Last(b).points[i] == Resolving
    ensures Behaviour(x, b') && b <= b' && |b'| == |b| + 4 && |Last(b').points| == |x.jobs|
    ensures Last(b').points[i].Caching? && Last(b').points[i].ip == ip
    ensures Last(b').world == Last(b).world.(record := Some(ip))
    ensures forall k :: 0 <= k < |x.jobs| && k != i ==> Last(b').points[k] == Last(b).points[k]
  {
    b' := Move(x, b, i);
    b' := Move(x, b', i);
    b' := Move(x, b', i);
    assert Last(b').points[i].Upserting? && Last(b').points[i].ip == ip;
    b' := Move(x, b', i);
  }

  function Last(b: seq<System>): System
    requires b != []
  {
    b[|b| - 1]
  }

  lemma Move(x: Setting, b: seq<System>, i: nat) returns (b': seq<System>)
    requires Behaviour(x, b) && i < |x.jobs| == |Last(b).points|
    ensures Behaviour(x, b') && |b'| == |b| + 1 && b <= b' && |Last(b').points| == |x.jobs|
    ensures (Last(b').world, Last(b').points[i]) == Advance(x.cfg, x.jobs[i], Last(b).world, Last(b).points[i], x.isIP)
    ensures forall k :: 0 <= k < |x.jobs| && k != i ==> Last(b').points[k] == Last(b).points[k]
  {
    var s := Last(b);
    var (w, p) := Advance(x.cfg, x.jobs[i], s.world, s.points[i], x.isIP);
    var s' := System(w, s.points[i := p]);
    assert RunSteps(x, s, s', i);
    b' := b + [s'];
    forall t | 0 <= t < |b'| - 1
      ensures Next(x, b'[t], b'[t + 1])
    {
      if t < |b| - 1 {
        assert b'[t] == b[t] && b'[t + 1] == b[t + 1];
      }
    }
  }
}
