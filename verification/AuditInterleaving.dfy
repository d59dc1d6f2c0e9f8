/** Several writers of one audit log: the listener and `dddns config rotate-secret`, another process
    with an AuditLog of its own on the same path (cmd/config_rotate_secret.go), so that no mutex
    keeps their calls apart. Each write is a stat, a rename if the file was full, an open and an
    append; directory entries lead to files, and a writer appends to the file it has opened. */
module AuditInterleaving {
  import opened Text
  import opened Audit

  /** `files` holds the lines of every file there has been; `live` and `rotated` are the two names. */
  datatype Disk = Disk(live: Option<nat>, rotated: Option<nat>, files: seq<seq<string>>)

  /** A write between two calls; `full` is what its stat told it. */
  datatype Stage = Waiting | Statted(full: bool) | Unopened | Opened(file: nat) | Ended(ok: bool)

  /** `logged` lists the lines appended so far, in order. */
  datatype System = System(disk: Disk, stages: seq<Stage>, logged: seq<string>)

  /** The line of each write, absent when JSON encoding failed. */
  datatype Setting = Setting(maxSize: int, lines: seq<Option<string>>)

  /** The next call of write `i`, and whether it works. */
  datatype Move = Step(i: nat, works: bool)

  function LinesOf(d: Disk, name: Option<nat>): seq<string> {
    if name.Some? && name.value < |d.files| then d.files[name.value] else []
  }

  function TextOf(d: Disk, name: Option<nat>): Option<string> {
    if name.Some? then Some(Concat(LinesOf(d, name))) else None
  }

  function View(d: Disk): Files {
    Files(TextOf(d, d.live), TextOf(d, d.rotated))
  }

  predicate Full(d: Disk, maxSize: int) {
    d.live.Some? && |Concat(LinesOf(d, d.live))| >= maxSize
  }

  function Act(x: Setting, s: System, i: nat, works: bool): (s': System)
    requires i < |x.lines| == |s.stages|
    ensures |s'.stages| == |s.stages|
  {
    match s.stages[i]
    case Waiting => s.(stages := s.stages[i := Statted(works && Full(s.disk, x.maxSize))])
    case Statted(full) =>
      s.(disk := if full && works && s.disk.live.Some? then Disk(None, s.disk.live, s.disk.files) else s.disk,
         stages := s.stages[i := Unopened])
    case Unopened =>
      if x.lines[i].None? || !works then s.(stages := s.stages[i := Ended(false)])
      else if s.disk.live.Some? then s.(stages := s.stages[i := Opened(s.disk.live.value)])
      else
        var file := |s.disk.files|;
        s.(disk := Disk(Some(file), s.disk.rotated, s.disk.files + [[]]), stages := s.stages[i := Opened(file)])
    case Opened(file) =>
      if works && x.lines[i].Some? && file < |s.disk.files| then
        var line := x.lines[i].value;
        System(s.disk.(files := s.disk.files[file := s.disk.files[file] + [line]]),
               s.stages[i := Ended(true)], s.logged + [line])
      else s.(stages := s.stages[i := Ended(false)])
    case Ended(_) => s
  }

  function Apply(x: Setting, s: System, m: Move): (s': System)
    requires |x.lines| == |s.stages|
    ensures |s'.stages| == |s.stages|
  {
    if m.i < |x.lines| then Act(x, s, m.i, m.works) else s
  }

  function Run(x: Setting, s: System, sched: seq<Move>): (s': System)
    requires |x.lines| == |s.stages|
    ensures |s'.stages| == |s.stages|
  {
    if sched == [] then s else Apply(x, Run(x, s, sched[..|sched| - 1]), sched[|sched| - 1])
  }

  lemma RunNext(x: Setting, s: System, sched: seq<Move>, m: Move)
    requires |x.lines| == |s.stages|
    ensures Run(x, s, sched + [m]) == Apply(x, Run(x, s, sched), m)
  {
    assert (sched + [m])[..|sched|] == sched;
  }

  predicate Named(d: Disk) {
    && (d.live.Some? ==> d.live.value < |d.files|) && (d.rotated.Some? ==> d.rotated.value < |d.files|)
    && (d.live.Some? && d.rotated.Some? ==> d.live.value != d.rotated.value)
  }

  // ---------------------------------------------------------------- alone, a write is AuditLog.Write

  function Solo(i: nat, c: Calls): seq<Move> {
    [Step(i, c.stat), Step(i, c.rename), Step(i, c.open), Step(i, c.write)]
  }

  lemma Moves(x: Setting, s: System, sched: seq<Move>)
    requires |x.lines| == |s.stages| && |sched| == 4
    ensures Run(x, s, sched) == Apply(x, Apply(x, Apply(x, Apply(x, s, sched[0]), sched[1]), sched[2]), sched[3])
  {
    RunNext(x, s, [], sched[0]);
    RunNext(x, s, sched[..1], sched[1]);
    RunNext(x, s, sched[..2], sched[2]);
    RunNext(x, s, sched[..3], sched[3]);
    assert sched[..1] == [] + [sched[0]] && sched[..2] == sched[..1] + [sched[1]];
    assert sched[..3] == sched[..2] + [sched[2]] && sched == sched[..3] + [sched[3]];
  }

  lemma OpenShows(x: Setting, s: System, i: nat, works: bool)
    requires i < |x.lines| == |s.stages| && s.stages[i] == Unopened && Named(s.disk)
    ensures var s' := Apply(x, s, Step(i, works));
            if x.lines[i].None? || !works then s'.disk == s.disk && s'.stages[i] == Ended(false)
            else
              && Named(s'.disk) && s'.disk.live.Some? && s'.stages[i] == Opened(s'.disk.live.value)
              && View(s'.disk) == View(s.disk).(live := Some(Content(View(s.disk).live)))
  {
    ConcatOne("");
  }

  lemma AppendShows(x: Setting, s: System, i: nat, works: bool)
    requires i < |x.lines| == |s.stages| && Named(s.disk) && x.lines[i].Some?
    requires s.disk.live.Some? && s.stages[i] == Opened(s.disk.live.value)
    ensures var s' := Apply(x, s, Step(i, works));
            && Named(s'.disk) && s'.stages[i] == Ended(works)
            && View(s'.disk) == if works then View(s.disk).(live := Some(Content(View(s.disk).live) + x.lines[i].value))
                                else View(s.disk)
  {
    ConcatSnoc(LinesOf(s.disk, s.disk.live), x.lines[i].value);
  }

  lemma OpenAndAppend(x: Setting, s: System, i: nat, c: Calls)
    requires i < |x.lines| == |s.stages| && s.stages[i] == Unopened && Named(s.disk)
    ensures var s' := Apply(x, Apply(x, s, Step(i, c.open)), Step(i, c.write));
            && Named(s'.disk) && s'.stages[i].Ended?
            && (View(s'.disk), s'.stages[i].ok) == Append(View(s.disk), x.lines[i], c)
  {
    OpenShows(x, s, i, c.open);
    if x.lines[i].Some? && c.open {
      AppendShows(x, Apply(x, s, Step(i, c.open)), i, c.write);
    }
  }

  lemma StatAndRename(x: Setting, s: System, i: nat, c: Calls)
    requires i < |x.lines| == |s.stages| && s.stages[i] == Waiting && Named(s.disk)
    ensures var s' := Apply(x, Apply(x, s, Step(i, c.stat)), Step(i, c.rename));
            s'.stages[i] == Unopened && Named(s'.disk) && View(s'.disk) == Rotate(View(s.disk), x.maxSize, c)
  {
  }

  /** A write that no other one interrupts leaves the two files as AuditLog.Write does. */
  lemma SoloWriteIsWrite(x: Setting, s: System, i: nat, c: Calls)
    requires i < |x.lines| == |s.stages| && s.stages[i] == Waiting && Named(s.disk)
    ensures var s' := Run(x, s, Solo(i, c));
            && Named(s'.disk) && s'.stages[i].Ended?
            && (View(s'.disk), s'.stages[i].ok) == WriteStep(View(s.disk), x.maxSize, x.lines[i], c)
  {
    Moves(x, s, [Step(i, c.stat), Step(i, c.rename), Step(i, c.open), Step(i, c.write)]);
    StatAndRename(x, s, i, c);
    OpenAndAppend(x, Apply(x, Apply(x, s, Step(i, c.stat)), Step(i, c.rename)), i, c);
  }

  // ---------------------------------------------------------------- what holds on every schedule

  /** `a` comes from `b` by leaving lines out. */
  predicate Among(a: seq<string>, b: seq<string>) {
    || a == []
    || (b != [] && Among(a, b[..|b| - 1]))
    || (b != [] && a[|a| - 1] == b[|b| - 1] && Among(a[..|a| - 1], b[..|b| - 1]))
  }

  lemma AmongMore(a: seq<string>, b: seq<string>, line: string)
    requires Among(a, b)
    ensures Among(a, b + [line]) && Among(a + [line], b + [line])
  {
    assert (b + [line])[..|b|] == b && (a + [line])[..|a|] == a;
  }

  function Gathered(files: seq<seq<string>>): multiset<string> {
    if files == [] then multiset{} else Gathered(files[..|files| - 1]) + multiset(files[|files| - 1])
  }

  lemma GatheredLast(front: seq<seq<string>>, last: seq<string>)
    ensures Gathered(front + [last]) == Gathered(front) + multiset(last)
  {
    assert (front + [last])[..|front|] == front;
  }

  lemma {:induction false} GatheredGrows(files: seq<seq<string>>, f: nat, line: string)
    requires f < |files|
    ensures Gathered(files[f := files[f] + [line]]) == Gathered(files) + multiset{line}
  {
    var front, last := files[..|files| - 1], files[|files| - 1];
    if f == |files| - 1 {
      assert files[f := last + [line]] == front + [last + [line]];
      GatheredLast(front, last + [line]);
      assert multiset(last + [line]) == multiset(last) + multiset{line};
    } else {
      GatheredGrows(front, f, line);
      assert files[f := files[f] + [line]] == front[f := front[f] + [line]] + [last];
      GatheredLast(front[f := front[f] + [line]], last);
    }
  }

  lemma {:induction false} GatheredHolds(files: seq<seq<string>>, f: nat, g: nat)
    requires f < g < |files|
    ensures multiset(files[f]) + multiset(files[g]) <= Gathered(files)
  {
    var n := |files| - 1;
    if g < n {
      GatheredHolds(files[..n], f, g);
    } else {
      OneGathered(files[..n], f);
    }
  }

  lemma {:induction false} OneGathered(files: seq<seq<string>>, f: nat)
    requires f < |files|
    ensures multiset(files[f]) <= Gathered(files)
  {
    if f < |files| - 1 {
      OneGathered(files[..|files| - 1], f);
    }
  }

  ghost predicate AllAmong(files: seq<seq<string>>, log: seq<string>) {
    forall f :: 0 <= f < |files| ==> Among(files[f], log)
  }

  /** Every line logged is in exactly one file, and each file holds its lines in the order logged. */
  ghost predicate Sound(s: System) {
    && Named(s.disk) && Gathered(s.disk.files) == multiset(s.logged) && AllAmong(s.disk.files, s.logged)
  }

  lemma NamesStay(x: Setting, s: System, m: Move)
    requires |x.lines| == |s.stages| && Named(s.disk)
    ensures Named(Apply(x, s, m).disk)
  {
  }

  predicate Appends(x: Setting, s: System, m: Move)
    requires |x.lines| == |s.stages|
  {
    && m.i < |x.lines| && s.stages[m.i].Opened? && m.works && x.lines[m.i].Some? && s.stages[m.i].file < |s.disk.files|
  }

  /** A move appends one line to one file, or adds an empty file, or leaves files and log alone. */
  lemma MoveWrites(x: Setting, s: System, m: Move)
    requires |x.lines| == |s.stages|
    ensures var files, log, s' := s.disk.files, s.logged, Apply(x, s, m);
            if Appends(x, s, m) then
              var file, line := s.stages[m.i].file, x.lines[m.i].value;
              s'.disk.files == files[file := files[file] + [line]] && s'.logged == log + [line]
            else (s'.disk.files == files || s'.disk.files == files + [[]]) && s'.logged == log
  {
  }

  lemma StepIsSound(x: Setting, s: System, m: Move)
    requires |x.lines| == |s.stages| && Sound(s)
    ensures Sound(Apply(x, s, m))
  {
    NamesStay(x, s, m);
    MoveWrites(x, s, m);
    if Appends(x, s, m) {
      GatheredGrows(s.disk.files, s.stages[m.i].file, x.lines[m.i].value);
      AppendIsAmong(s.disk.files, s.logged, s.stages[m.i].file, x.lines[m.i].value);
    } else {
      NewFileIsEmpty(s.disk.files, s.logged);
    }
  }

  lemma NewFileIsEmpty(files: seq<seq<string>>, log: seq<string>)
    requires AllAmong(files, log)
    ensures Gathered(files + [[]]) == Gathered(files) && AllAmong(files + [[]], log)
  {
    assert (files + [[]])[..|files|] == files;
  }

  lemma AppendIsAmong(files: seq<seq<string>>, log: seq<string>, file: nat, line: string)
    requires AllAmong(files, log) && file < |files|
    ensures AllAmong(files[file := files[file] + [line]], log + [line])
  {
    var files' := files[file := files[file] + [line]];
    forall f | 0 <= f < |files'|
      ensures Among(files'[f], log + [line])
    {
      AmongMore(files[f], log, line);
    }
  }

  lemma {:induction false} RunIsSound(x: Setting, s: System, sched: seq<Move>)
    requires |x.lines| == |s.stages| && Sound(s)
    ensures Sound(Run(x, s, sched))
  {
    if sched != [] {
      RunIsSound(x, s, sched[..|sched| - 1]);
      StepIsSound(x, Run(x, s, sched[..|sched| - 1]), sched[|sched| - 1]);
    }
  }

  /** Nothing has been written yet, or both files hold what was. */
  ghost predicate Starts(x: Setting, s: System) {
    && |x.lines| == |s.stages| && (forall i :: 0 <= i < |s.stages| ==> s.stages[i] == Waiting)
    && Sound(s) && s.logged == LinesOf(s.disk, s.disk.rotated) + LinesOf(s.disk, s.disk.live)
  }

  /** Whatever the interleaving and whatever calls fail: old file and live file hold whole logged lines,
      none more often than it was logged, and each file holds its own in the order logged. */
  lemma RetainedWasLogged(x: Setting, s: System, sched: seq<Move>)
    requires Starts(x, s)
    ensures var s' := Run(x, s, sched);
            var prior, live := LinesOf(s'.disk, s'.disk.rotated), LinesOf(s'.disk, s'.disk.live);
            && multiset(prior + live) <= multiset(s'.logged) && Among(prior, s'.logged) && Among(live, s'.logged)
            && Retained(View(s'.disk)) == Concat(prior + live)
  {
    RunIsSound(x, s, sched);
    var d := Run(x, s, sched).disk;
    var prior, live := LinesOf(d, d.rotated), LinesOf(d, d.live);
    ConcatAppend(prior, live);
    assert Concat([]) == "";
    assert multiset(prior + live) == multiset(prior) + multiset(live);
    if d.live.Some? && d.rotated.Some? {
      var f, g := d.live.value, d.rotated.value;
      GatheredHolds(d.files, if f < g then f else g, if f < g then g else f);
    } else if d.live.Some? {
      OneGathered(d.files, d.live.value);
    } else if d.rotated.Some? {
      OneGathered(d.files, d.rotated.value);
    }
  }

  // ---------------------------------------------------------------- when conservation holds

  predicate Renames(x: Setting, s: System, m: Move)
    requires |x.lines| == |s.stages|
  {
    m.i < |x.lines| && s.stages[m.i] == Statted(true) && m.works && s.disk.live.Some?
  }

  /** A rename finds no other write between a stat that saw the file full and its rename, or between
      its open and its append. */
  predicate Undisturbing(x: Setting, s: System, m: Move)
    requires |x.lines| == |s.stages|
  {
    Renames(x, s, m) ==>
      forall j :: 0 <= j < |s.stages| && j != m.i ==> s.stages[j] != Statted(true) && !s.stages[j].Opened?
  }

  ghost predicate Undisturbed(x: Setting, s: System, sched: seq<Move>)
    requires |x.lines| == |s.stages|
  {
    forall n :: 0 <= n < |sched| ==> Undisturbing(x, Run(x, s, sched[..n]), sched[n])
  }

  /** A write about to rename finds the file full, and one about to append has the live file open. */
  predicate StageFits(x: Setting, d: Disk, st: Stage) {
    (st == Statted(true) ==> Full(d, x.maxSize)) && (st.Opened? ==> d.live == Some(st.file))
  }

  ghost predicate Conserves(x: Setting, s: System) {
    && Named(s.disk)
    && (forall j :: 0 <= j < |s.stages| ==> StageFits(x, s.disk, s.stages[j]))
    && KeepsSome(View(s.disk), x.maxSize, s.logged)
  }

  lemma StepConserves(x: Setting, s: System, m: Move)
    requires |x.lines| == |s.stages| && Conserves(x, s) && Undisturbing(x, s, m)
    ensures Conserves(x, Apply(x, s, m))
  {
    if m.i < |x.lines| {
      assert StageFits(x, s.disk, s.stages[m.i]);
      StagesStillFit(x, s, m);
      StillKept(x, s, m);
    }
  }

  lemma StagesStillFit(x: Setting, s: System, m: Move)
    requires m.i < |x.lines| == |s.stages| && Conserves(x, s) && Undisturbing(x, s, m)
    ensures var s' := Apply(x, s, m);
            Named(s'.disk) && forall j :: 0 <= j < |s'.stages| ==> StageFits(x, s'.disk, s'.stages[j])
  {
    var s' := Apply(x, s, m);
    NamesStay(x, s, m);
    forall j | 0 <= j < |s'.stages|
      ensures StageFits(x, s'.disk, s'.stages[j])
    {
      assert StageFits(x, s.disk, s.stages[j]) && StageFits(x, s.disk, s.stages[m.i]);
      StageStillFits(x, s, m, j);
    }
  }

  lemma LiveStays(x: Setting, s: System, m: Move)
    requires |x.lines| == |s.stages| && !Renames(x, s, m) && s.disk.live.Some?
    ensures Apply(x, s, m).disk.live == s.disk.live
  {
  }

  lemma FullStays(x: Setting, s: System, m: Move)
    requires m.i < |x.lines| == |s.stages| && Named(s.disk) && !Renames(x, s, m) && Full(s.disk, x.maxSize)
    requires StageFits(x, s.disk, s.stages[m.i])
    ensures Full(Apply(x, s, m).disk, x.maxSize)
  {
    LiveStays(x, s, m);
    MoveShows(x, s, m);
  }

  lemma StageStillFits(x: Setting, s: System, m: Move, j: nat)
    requires m.i < |x.lines| == |s.stages| && j < |s.stages| && Named(s.disk) && Undisturbing(x, s, m)
    requires StageFits(x, s.disk, s.stages[j]) && StageFits(x, s.disk, s.stages[m.i])
    ensures StageFits(x, Apply(x, s, m).disk, Apply(x, s, m).stages[j])
  {
    if j == m.i {
      OwnStageFits(x, s, m);
    } else if !Renames(x, s, m) {
      if s.stages[j] == Statted(true) {
        FullStays(x, s, m);
      } else if s.stages[j].Opened? {
        LiveStays(x, s, m);
      }
    }
  }

  lemma OwnStageFits(x: Setting, s: System, m: Move)
    requires m.i < |x.lines| == |s.stages|
    ensures StageFits(x, Apply(x, s, m).disk, Apply(x, s, m).stages[m.i]) || s.stages[m.i].Ended?
  {
  }

  ghost predicate KeepsSome(fs: Files, maxSize: int, log: seq<string>) {
    exists k: nat, m: nat :: Keeps(fs, maxSize, log, k, m)
  }

  lemma RotateKeepsSome(fs: Files, maxSize: int, log: seq<string>)
    requires KeepsSome(fs, maxSize, log) && fs.live.Some? && |fs.live.value| >= maxSize
    ensures KeepsSome(Files(None, fs.live), maxSize, log)
  {
    var k: nat, m: nat :| Keeps(fs, maxSize, log, k, m);
    k, m := RotateKeeps(fs, maxSize, log, k, m, Calls(true, true, true, true));
  }

  lemma AppendKeepsSome(fs: Files, maxSize: int, log: seq<string>, line: string)
    requires KeepsSome(fs, maxSize, log)
    ensures KeepsSome(fs.(live := Some(Content(fs.live) + line)), maxSize, log + [line])
  {
    var k: nat, m: nat :| Keeps(fs, maxSize, log, k, m);
    AppendKeeps(fs, maxSize, log, k, m, line);
  }

  lemma SameTextKeepsSome(fs: Files, fs': Files, maxSize: int, log: seq<string>)
    requires KeepsSome(fs, maxSize, log) && fs'.rotated == fs.rotated && Content(fs'.live) == Content(fs.live)
    ensures KeepsSome(fs', maxSize, log)
  {
    var k: nat, m: nat :| Keeps(fs, maxSize, log, k, m);
    assert Keeps(fs', maxSize, log, k, m);
  }

  /** What a move does to the two texts and the log. */
  lemma MoveShows(x: Setting, s: System, m: Move)
    requires m.i < |x.lines| == |s.stages| && Named(s.disk) && StageFits(x, s.disk, s.stages[m.i])
    ensures var s', v := Apply(x, s, m), View(s.disk);
            || (&& Renames(x, s, m) && Full(s.disk, x.maxSize)
                && View(s'.disk) == Files(None, v.live) && s'.logged == s.logged)
            || (&& s.stages[m.i].Opened? && x.lines[m.i].Some?
                && View(s'.disk) == v.(live := Some(Content(v.live) + x.lines[m.i].value))
                && s'.logged == s.logged + [x.lines[m.i].value])
            || (&& View(s'.disk).rotated == v.rotated && Content(View(s'.disk).live) == Content(v.live)
                && s'.logged == s.logged)
  {
    ConcatOne("");
    if s.stages[m.i].Opened? && x.lines[m.i].Some? {
      ConcatSnoc(LinesOf(s.disk, s.disk.live), x.lines[m.i].value);
    }
  }

  lemma StillKept(x: Setting, s: System, m: Move)
    requires m.i < |x.lines| == |s.stages| && Conserves(x, s) && StageFits(x, s.disk, s.stages[m.i])
    ensures KeepsSome(View(Apply(x, s, m).disk), x.maxSize, Apply(x, s, m).logged)
  {
    var fs, fs', log' := View(s.disk), View(Apply(x, s, m).disk), Apply(x, s, m).logged;
    MoveShows(x, s, m);
    if Renames(x, s, m) {
      RotateKeepsSome(fs, x.maxSize, s.logged);
    } else if log' == s.logged {
      SameTextKeepsSome(fs, fs', x.maxSize, s.logged);
    } else {
      AppendKeepsSome(fs, x.maxSize, s.logged, x.lines[m.i].value);
    }
  }

  lemma StartConserves(x: Setting, s: System)
    requires Starts(x, s)
    ensures Conserves(x, s)
  {
    var prior, live := LinesOf(s.disk, s.disk.rotated), LinesOf(s.disk, s.disk.live);
    ConcatOne("");
    assert s.logged[0..|prior|] == prior && s.logged[|prior|..] == live;
    assert Keeps(View(s.disk), x.maxSize, s.logged, 0, |prior|);
  }

  lemma Unroll(x: Setting, s: System, sched: seq<Move>, n: nat)
    requires |x.lines| == |s.stages| && n < |sched|
    ensures Run(x, s, sched[..n + 1]) == Apply(x, Run(x, s, sched[..n]), sched[n])
  {
    assert sched[..n + 1] == sched[..n] + [sched[n]];
    RunNext(x, s, sched[..n], sched[n]);
  }

  lemma {:induction false} RunConserves(x: Setting, s: System, sched: seq<Move>, n: nat)
    requires Starts(x, s) && Undisturbed(x, s, sched) && n <= |sched|
    ensures Conserves(x, Run(x, s, sched[..n]))
  {
    if n == 0 {
      StartConserves(x, s);
    } else {
      RunConserves(x, s, sched, n - 1);
      Unroll(x, s, sched, n - 1);
      StepConserves(x, Run(x, s, sched[..n - 1]), sched[n - 1]);
    }
  }

  /** What is kept is a whole-line suffix of the log, and holds at least the smaller of all of it and
      `maxSize` bytes. */
  ghost predicate Conserved(fs: Files, maxSize: int, log: seq<string>) {
    && (exists k :: IsSuffix(Retained(fs), log, k))
    && (|Retained(fs)| >= |Concat(log)| || |Retained(fs)| >= maxSize)
  }

  lemma KeepsTells(fs: Files, maxSize: int, log: seq<string>)
    requires KeepsSome(fs, maxSize, log)
    ensures Conserved(fs, maxSize, log)
  {
    var k: nat, m: nat :| Keeps(fs, maxSize, log, k, m);
    KeptIsSuffix(fs, maxSize, log, k, m);
  }

  /** Conservation with several writers: as long as no rename falls between another write's stat of a
      full file and its rename, or between its open and its append, old file and live file conserve
      the log as they do with one writer. */
  lemma UndisturbedConserves(x: Setting, s: System, sched: seq<Move>)
    requires Starts(x, s) && Undisturbed(x, s, sched)
    ensures Conserved(View(Run(x, s, sched).disk), x.maxSize, Run(x, s, sched).logged)
  {
    RunConserves(x, s, sched, |sched|);
    assert sched[..|sched|] == sched;
    KeepsTells(View(Run(x, s, sched).disk), x.maxSize, Run(x, s, sched).logged);
  }

  /** No other write is between two of its calls. */
  predicate AloneAt(s: System, m: Move) {
    forall j :: 0 <= j < |s.stages| && j != m.i ==> s.stages[j].Waiting? || s.stages[j].Ended?
  }

  /** That is so in particular when the writes exclude one another, as under a lock on the path. */
  lemma ExclusiveConserves(x: Setting, s: System, sched: seq<Move>)
    requires Starts(x, s)
    requires forall n :: 0 <= n < |sched| ==> AloneAt(Run(x, s, sched[..n]), sched[n])
    ensures Conserved(View(Run(x, s, sched).disk), x.maxSize, Run(x, s, sched).logged)
  {
    forall n | 0 <= n < |sched|
      ensures Undisturbing(x, Run(x, s, sched[..n]), sched[n])
    {
      assert AloneAt(Run(x, s, sched[..n]), sched[n]);
    }
    UndisturbedConserves(x, s, sched);
  }

  /** From files that conserve the log, a rename conserves it exactly when the live file is full then,
      or holds all there is to keep. */
  lemma RenameConservesIff(x: Setting, s: System, m: Move)
    requires |x.lines| == |s.stages| && KeepsSome(View(s.disk), x.maxSize, s.logged) && Renames(x, s, m)
    ensures Conserved(View(Apply(x, s, m).disk), x.maxSize, s.logged) <==>
              Full(s.disk, x.maxSize) || |Concat(LinesOf(s.disk, s.disk.live))| >= |Concat(s.logged)|
  {
    var fs, fs' := View(s.disk), View(Apply(x, s, m).disk);
    var k: nat, n: nat :| Keeps(fs, x.maxSize, s.logged, k, n);
    assert Retained(fs') == Content(fs.live) == Concat(s.logged[n..]);
    assert IsSuffix(Retained(fs'), s.logged, n);
  }

  // ---------------------------------------------------------------- when it does not

  /** Two writes of `p` and `q`, and a live file that is full of `full`. */
  function Two(maxSize: int, p: string, q: string): Setting {
    Setting(maxSize, [Some(p), Some(q)])
  }

  function FullFile(full: string): System {
    System(Disk(Some(0), None, [[full]]), [Waiting, Waiting], [full])
  }

  /** Both see the full file before one of them renames it: the other then renames the new file, with
      the one line in it, over the full one. */
  function Overwriting(): seq<Move> {
    [Step(0, true), Step(1, true), Step(0, true), Step(0, true)] +
    [Step(0, true), Step(1, true), Step(1, true), Step(1, true)]
  }

  /** The same, but the first write appends last, to a file that is the old one by then. */
  function Overtaking(): seq<Move> {
    [Step(0, true), Step(1, true), Step(0, true), Step(0, true)] +
    [Step(1, true), Step(1, true), Step(1, true), Step(0, true)]
  }

  lemma {:induction false} RunAppend(x: Setting, s: System, a: seq<Move>, b: seq<Move>)
    requires |x.lines| == |s.stages|
    ensures Run(x, s, a + b) == Run(x, Run(x, s, a), b)
  {
    if b == [] {
      assert a + b == a;
    } else {
      var front, c := b[..|b| - 1], a + b;
      RunAppend(x, s, a, front);
      assert c[..|c| - 1] == a + front && c[|c| - 1] == b[|b| - 1];
    }
  }

  lemma ConcatOne(line: string)
    ensures Concat([line]) == line && Concat([]) == ""
  {
    assert [line][..0] == [];
  }

  /** After the first four moves: the first write has a new file open, the second one still believes
      the file to be full. */
  function Halfway(full: string): System {
    System(Disk(Some(1), Some(0), [[full], []]), [Opened(1), Statted(true)], [full])
  }

  lemma RunToHalfway(maxSize: int, full: string, p: string, q: string)
    requires |full| >= maxSize
    ensures Halfway(full) ==
            Run(Two(maxSize, p, q), FullFile(full), [Step(0, true), Step(1, true), Step(0, true), Step(0, true)])
  {
    var x := Two(maxSize, p, q);
    ConcatOne(full);
    Moves(x, FullFile(full), [Step(0, true), Step(1, true), Step(0, true), Step(0, true)]);
    var s := Apply(x, Apply(x, FullFile(full), Step(0, true)), Step(1, true));
    assert s == FullFile(full).(stages := [Statted(true), Statted(true)]);
    assert [[full]] + [[]] == [[full], []];
  }

  lemma ActAppend(x: Setting, s: System, i: nat, file: nat, line: string, files: seq<seq<string>>)
    requires i < |x.lines| == |s.stages| && s.stages[i] == Opened(file) && x.lines[i] == Some(line)
    requires file < |s.disk.files| && files == s.disk.files[file := s.disk.files[file] + [line]]
    ensures Apply(x, s, Step(i, true)) == System(s.disk.(files := files), s.stages[i := Ended(true)], s.logged + [line])
  {
  }

  lemma FileLists(full: string, p: string, q: string)
    ensures [[full], []][1 := [] + [p]] == [[full], [p]]
    ensures [[full], [p], []][2 := [] + [q]] == [[full], [p], [q]]
    ensures [[full], [], []][2 := [] + [q]] == [[full], [], [q]]
    ensures [[full], [], [q]][1 := [] + [p]] == [[full], [p], [q]]
  {
    assert [] + [p] == [p] && [] + [q] == [q];
  }

  lemma MoreLists(full: string, p: string, q: string)
    ensures [[full], [p]] + [[]] == [[full], [p], []] && [[full], []] + [[]] == [[full], [], []]
    ensures [full] + [p] == [full, p] && [full, p] + [q] == [full, p, q]
    ensures [full] + [q] == [full, q] && [full, q] + [p] == [full, q, p]
  {
  }

  lemma OverwritingEnds(maxSize: int, full: string, p: string, q: string)
    requires |full| >= maxSize
    ensures Run(Two(maxSize, p, q), FullFile(full), Overwriting()) ==
            System(Disk(Some(2), Some(1), [[full], [p], [q]]), [Ended(true), Ended(true)], [full, p, q])
  {
    var x, h := Two(maxSize, p, q), Halfway(full);
    RunToHalfway(maxSize, full, p, q);
    RunAppend(x, FullFile(full), [Step(0, true), Step(1, true), Step(0, true), Step(0, true)],
              [Step(0, true), Step(1, true), Step(1, true), Step(1, true)]);
    Moves(x, h, [Step(0, true), Step(1, true), Step(1, true), Step(1, true)]);
    FileLists(full, p, q);
    MoreLists(full, p, q);
    ActAppend(x, h, 0, 1, p, [[full], [p]]);
    var s1 := System(Disk(Some(1), Some(0), [[full], [p]]), [Ended(true), Statted(true)], [full, p]);
    assert Apply(x, h, Step(0, true)) == s1;
    var s3 := System(Disk(Some(2), Some(1), [[full], [p], []]), [Ended(true), Opened(2)], [full, p]);
    assert Apply(x, Apply(x, s1, Step(1, true)), Step(1, true)) == s3;
    ActAppend(x, s3, 1, 2, q, [[full], [p], [q]]);
  }

  lemma OvertakingEnds(maxSize: int, full: string, p: string, q: string)
    requires |full| >= maxSize
    ensures Run(Two(maxSize, p, q), FullFile(full), Overtaking()) ==
            System(Disk(Some(2), Some(1), [[full], [p], [q]]), [Ended(true), Ended(true)], [full, q, p])
  {
    var x, h := Two(maxSize, p, q), Halfway(full);
    RunToHalfway(maxSize, full, p, q);
    RunAppend(x, FullFile(full), [Step(0, true), Step(1, true), Step(0, true), Step(0, true)],
              [Step(1, true), Step(1, true), Step(1, true), Step(0, true)]);
    Moves(x, h, [Step(1, true), Step(1, true), Step(1, true), Step(0, true)]);
    FileLists(full, p, q);
    MoreLists(full, p, q);
    var s2 := System(Disk(Some(2), Some(1), [[full], [], []]), [Opened(1), Opened(2)], [full]);
    assert Apply(x, Apply(x, h, Step(1, true)), Step(1, true)) == s2;
    ActAppend(x, s2, 1, 2, q, [[full], [], [q]]);
    var s3 := System(Disk(Some(2), Some(1), [[full], [], [q]]), [Opened(1), Ended(true)], [full, q]);
    ActAppend(x, s3, 0, 1, p, [[full], [p], [q]]);
  }

  lemma TwoLeft(full: string, p: string, q: string)
    ensures Retained(View(Disk(Some(2), Some(1), [[full], [p], [q]]))) == p + q
  {
    ConcatOne(p);
    ConcatOne(q);
  }

  lemma ConcatThree(a: string, b: string, c: string)
    ensures Concat([a, b, c]) == a + b + c && Concat([b, c]) == b + c && Concat([c]) == c && Concat([]) == ""
  {
    ConcatOne(c);
    ConcatOne(b);
    ConcatOne(a);
    ConcatSnoc([b], c);
    ConcatSnoc([a], b);
    ConcatSnoc([a, b], c);
    assert [b] + [c] == [b, c] && [a] + [b] == [a, b] && [a, b] + [c] == [a, b, c];
  }

  /** Two writers of a log with a full file can lose it: all calls work, three lines are logged, and
      only the last two are kept, however far below maxSize they are. */
  lemma TwoWritersLoseAFile(maxSize: int, full: string, p: string, q: string)
    requires 0 < maxSize <= |full| && |p + q| < maxSize
    ensures Starts(Two(maxSize, p, q), FullFile(full))
    ensures var s := Run(Two(maxSize, p, q), FullFile(full), Overwriting());
            && s.stages == [Ended(true), Ended(true)] && s.logged == [full, p, q]
            && Retained(View(s.disk)) == p + q && |Retained(View(s.disk))| < maxSize
            && |Retained(View(s.disk))| < |Concat(s.logged)|
  {
    OverwritingEnds(maxSize, full, p, q);
    TwoLeft(full, p, q);
    ConcatThree(full, p, q);
    FullFileStarts(maxSize, full, p, q);
  }

  lemma FullFileStarts(maxSize: int, full: string, p: string, q: string)
    ensures Starts(Two(maxSize, p, q), FullFile(full))
  {
    assert [[full]][..0] == [] && [full][..0] == [];
    assert Among([full], [full]);
    assert Gathered([[full]]) == multiset([full]);
    assert [] + [full] == [full];
  }

  /** And they can leave lines out of order: what is kept is no suffix of what was logged. */
  lemma TwoWritersMixLines(maxSize: int, full: string, p: string, q: string, k: int)
    requires 0 < maxSize <= |full| && q != "" && p + q != q + p
    ensures var s := Run(Two(maxSize, p, q), FullFile(full), Overtaking());
            && s.stages == [Ended(true), Ended(true)] && s.logged == [full, q, p]
            && Retained(View(s.disk)) == p + q && !IsSuffix(p + q, s.logged, k)
  {
    OvertakingEnds(maxSize, full, p, q);
    TwoLeft(full, p, q);
    ConcatThree(full, q, p);
    var log := [full, q, p];
    if 0 <= k <= 3 {
      assert log[0..] == log && log[1..] == [q, p] && log[2..] == [p] && log[3..] == [];
      assert |p + q| == |p| + |q| && |full + q + p| > |p + q|;
      assert k == 0 || k == 1 || k == 2 || k == 3;
    }
  }
}
