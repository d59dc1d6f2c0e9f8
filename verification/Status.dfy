/** The atomically replaced status file (internal/server/status.go): writers fill a temporary file
    and rename it over the target, readers may read at any moment, any call may fail and any
    process may stop for good. Directory entries point to inodes, so a reader that has opened the
    target keeps reading the file it opened. */
module Status {
  import opened Text

  datatype Fs = Fs(dir: map<string, nat>, data: map<nat, string>)

  /** The text the target name leads to, if the name exists. */
  function Target(fs: Fs, target: string): Option<string> {
    if target in fs.dir && fs.dir[target] in fs.data then Some(fs.data[fs.dir[target]]) else None
  }

  // ---------------------------------------------------------------- one writer, step by step

  datatype Stage = Filling | Closed | Failing

  /** A writer between two system calls: `tmp` names its temporary file, `ino` is the inode it has
      open, `n` the bytes written so far. */
  datatype Writer = Idle | Active(stage: Stage, tmp: string, ino: nat, n: nat) | Ended(ok: bool)

  /** CreateTemp picks a name and an inode that do not exist. */
  ghost predicate Creates(target: string, fs: Fs, w: Writer, fs': Fs, w': Writer) {
    && w == Idle
    && w'.Active? && w'.stage == Filling && w'.n == 0
    && w'.tmp !in fs.dir && w'.tmp != target && w'.ino !in fs.data
    && fs' == Fs(fs.dir[w'.tmp := w'.ino], fs.data[w'.ino := ""])
  }

  /** Some more of the text reaches the file. */
  ghost predicate Fills(text: string, fs: Fs, w: Writer, fs': Fs, w': Writer) {
    && w.Active? && w.stage == Filling
    && w'.Active? && w' == w.(n := w'.n) && w.n < w'.n <= |text|
    && fs' == fs.(data := fs.data[w.ino := text[..w'.n]])
  }

  ghost predicate Closes(text: string, fs: Fs, w: Writer, fs': Fs, w': Writer) {
    && w.Active? && w.stage == Filling && w.n == |text|
    && w' == w.(stage := Closed) && fs' == fs
  }

  ghost predicate Renames(target: string, fs: Fs, w: Writer, fs': Fs, w': Writer) {
    && w.Active? && w.stage == Closed && w.tmp in fs.dir
    && fs' == fs.(dir := (fs.dir - {w.tmp})[target := fs.dir[w.tmp]])
    && w' == Ended(true)
  }

  /** Any call of the writer reports an error. */
  ghost predicate Fails(fs: Fs, w: Writer, fs': Fs, w': Writer) {
    && fs' == fs
    && (|| (w == Idle && w' == Ended(false))
        || (w.Active? && w.stage != Failing && w' == w.(stage := Failing)))
  }

  /** After a failure the temporary file is removed, or the removal fails as well. */
  ghost predicate CleansUp(fs: Fs, w: Writer, fs': Fs, w': Writer, removed: bool) {
    && w.Active? && w.stage == Failing && w' == Ended(false)
    && fs' == if removed then fs.(dir := fs.dir - {w.tmp}) else fs
  }

  ghost predicate WriterStep(target: string, text: string, fs: Fs, w: Writer, fs': Fs, w': Writer) {
    || Creates(target, fs, w, fs', w')
    || Fills(text, fs, w, fs', w')
    || Closes(text, fs, w, fs', w')
    || Renames(target, fs, w, fs', w')
    || Fails(fs, w, fs', w')
    || CleansUp(fs, w, fs', w', true)
    || CleansUp(fs, w, fs', w', false)
  }

  // ---------------------------------------------------------------- one reader, step by step

  datatype Reader = NotOpened | Reading(ino: nat, got: string) | Read(text: Option<string>)

  ghost predicate ReaderStep(target: string, fs: Fs, r: Reader, r': Reader) {
    || (r == NotOpened && r' == Read(None))
    || (r == NotOpened && target in fs.dir && r' == Reading(fs.dir[target], ""))
    || (&& r.Reading? && r.ino in fs.data && r'.Reading? && r'.ino == r.ino
        && |r.got| < |r'.got| <= |fs.data[r.ino]| && r'.got == fs.data[r.ino][..|r'.got|])
    || (r.Reading? && r.ino in fs.data && |r.got| >= |fs.data[r.ino]| && r' == Read(Some(r.got)))
    || (r.Reading? && r' == Read(None))
  }

  // ---------------------------------------------------------------- interleavings

  /** Fixed for a behaviour: the target name, the text of each writer, and the text the target may
      have held before. */
  datatype Setting = Setting(target: string, texts: seq<string>, before: Option<string>)

  datatype System = System(fs: Fs, writers: seq<Writer>, readers: seq<Reader>)

  ghost predicate Complete(x: Setting, text: string) {
    text in x.texts || x.before == Some(text)
  }

  ghost predicate WriterMoves(x: Setting, s: System, s': System, i: nat) {
    && i < |x.texts| == |s.writers| == |s'.writers|
    && WriterStep(x.target, x.texts[i], s.fs, s.writers[i], s'.fs, s'.writers[i])
    && (forall k :: 0 <= k < |s.writers| && k != i ==> s'.writers[k] == s.writers[k])
    && s'.readers == s.readers
  }

  ghost predicate ReaderMoves(x: Setting, s: System, s': System, i: nat) {
    && i < |s.readers| == |s'.readers|
    && ReaderStep(x.target, s.fs, s.readers[i], s'.readers[i])
    && (forall k :: 0 <= k < |s.readers| && k != i ==> s'.readers[k] == s.readers[k])
    && s'.writers == s.writers && s'.fs == s.fs
  }

  ghost predicate Next(x: Setting, s: System, s': System) {
    (exists i :: WriterMoves(x, s, s', i)) || (exists i :: ReaderMoves(x, s, s', i))
  }

  ghost predicate Starts(x: Setting, s: System) {
    && |s.writers| == |x.texts|
    && (forall i :: 0 <= i < |s.writers| ==> s.writers[i] == Idle)
    && (forall i :: 0 <= i < |s.readers| ==> s.readers[i] == NotOpened)
    && (forall name :: name in s.fs.dir ==> s.fs.dir[name] in s.fs.data)
    && Target(s.fs, x.target) == x.before
  }

  ghost predicate Behaviour(x: Setting, b: seq<System>) {
    && b != [] && Starts(x, b[0])
    && forall t :: 0 <= t < |b| - 1 ==> Next(x, b[t], b[t + 1])
  }

  /** A writer owns its temporary file, which holds what it has written so far. */
  ghost predicate WriterOk(target: string, text: string, fs: Fs, w: Writer) {
    w.Active? ==>
      && w.tmp in fs.dir && fs.dir[w.tmp] == w.ino && w.tmp != target && w.ino in fs.data
      && w.n <= |text| && fs.data[w.ino] == text[..w.n]
      && (w.stage == Closed ==> w.n == |text|)
  }

  ghost predicate Apart(v: Writer, w: Writer) {
    v.Active? && w.Active? ==> v.tmp != w.tmp && v.ino != w.ino
  }

  /** The target leads to a complete text that no writer has open. */
  ghost predicate TargetOk(x: Setting, s: System) {
    x.target in s.fs.dir ==>
      && s.fs.dir[x.target] in s.fs.data
      && Complete(x, s.fs.data[s.fs.dir[x.target]])
      && forall i :: 0 <= i < |s.writers| && s.writers[i].Active? ==> s.writers[i].ino != s.fs.dir[x.target]
  }

  /** So does every file a reader has open. */
  ghost predicate ReaderOk(x: Setting, s: System, r: Reader) {
    match r
    case NotOpened => true
    case Reading(ino, got) =>
      && ino in s.fs.data && Complete(x, s.fs.data[ino]) && got <= s.fs.data[ino]
      && (forall i :: 0 <= i < |s.writers| && s.writers[i].Active? ==> s.writers[i].ino != ino)
    case Read(text) => text.Some? ==> Complete(x, text.value)
  }

  ghost predicate Inv(x: Setting, s: System) {
    && |s.writers| == |x.texts|
    && (forall name :: name in s.fs.dir ==> s.fs.dir[name] in s.fs.data)
    && (forall i :: 0 <= i < |s.writers| ==> WriterOk(x.target, x.texts[i], s.fs, s.writers[i]))
    && (forall i, j :: 0 <= i < j < |s.writers| ==> Apart(s.writers[i], s.writers[j]))
    && TargetOk(x, s)
    && (forall i :: 0 <= i < |s.readers| ==> ReaderOk(x, s, s.readers[i]))
  }

  lemma ReaderKeepsInv(x: Setting, s: System, s': System, i: nat)
    requires Inv(x, s) && ReaderMoves(x, s, s', i)
    ensures Inv(x, s')
  {
    var r := s.readers[i];
    forall k | 0 <= k < |s'.readers|
      ensures ReaderOk(x, s', s'.readers[k])
    {
      assert ReaderOk(x, s, s.readers[k]);
      if k == i && r.Reading? && |r.got| >= |s.fs.data[r.ino]| {
        assert r.got == s.fs.data[r.ino];
      }
    }
  }

  lemma WriterKeepsOwn(x: Setting, s: System, s': System, i: nat)
    requires Inv(x, s) && WriterMoves(x, s, s', i)
    ensures forall k :: 0 <= k < |s'.writers| ==> WriterOk(x.target, x.texts[k], s'.fs, s'.writers[k])
    ensures forall k, j :: 0 <= k < j < |s'.writers| ==> Apart(s'.writers[k], s'.writers[j])
    ensures forall name :: name in s'.fs.dir ==> s'.fs.dir[name] in s'.fs.data
  {
    assert WriterOk(x.target, x.texts[i], s.fs, s.writers[i]);
    forall k | 0 <= k < |s'.writers|
      ensures WriterOk(x.target, x.texts[k], s'.fs, s'.writers[k])
    {
      if k != i {
        assert Apart(s.writers[if k < i then k else i], s.writers[if k < i then i else k]);
        assert WriterOk(x.target, x.texts[k], s.fs, s.writers[k]);
      }
    }
  }

  lemma WriterKeepsTarget(x: Setting, s: System, s': System, i: nat)
    requires Inv(x, s) && WriterMoves(x, s, s', i)
    ensures TargetOk(x, s')
  {
    var w := s.writers[i];
    assert WriterOk(x.target, x.texts[i], s.fs, w);
    if Renames(x.target, s.fs, w, s'.fs, s'.writers[i]) {
      assert s.fs.data[w.ino] == x.texts[i];
      forall k | 0 <= k < |s'.writers| && s'.writers[k].Active?
        ensures s'.writers[k].ino != w.ino
      {
        assert k != i;
        assert Apart(s.writers[if k < i then k else i], s.writers[if k < i then i else k]);
      }
    }
  }

  lemma WriterKeepsReaders(x: Setting, s: System, s': System, i: nat)
    requires Inv(x, s) && WriterMoves(x, s, s', i)
    ensures forall k :: 0 <= k < |s'.readers| ==> ReaderOk(x, s', s'.readers[k])
  {
    assert WriterOk(x.target, x.texts[i], s.fs, s.writers[i]);
    forall k | 0 <= k < |s'.readers|
      ensures ReaderOk(x, s', s'.readers[k])
    {
      assert ReaderOk(x, s, s.readers[k]);
    }
  }

  lemma {:induction false} BehaviourKeepsInv(x: Setting, b: seq<System>, t: nat)
    requires Behaviour(x, b) && t < |b|
    ensures Inv(x, b[t])
  {
    if t > 0 {
      BehaviourKeepsInv(x, b, t - 1);
      var s, s' := b[t - 1], b[t];
      assert Next(x, s, s');
      if i :| WriterMoves(x, s, s', i) {
        WriterKeepsOwn(x, s, s', i);
        WriterKeepsTarget(x, s, s', i);
        WriterKeepsReaders(x, s, s', i);
      } else {
        var i :| ReaderMoves(x, s, s', i);
        ReaderKeepsInv(x, s, s', i);
      }
    }
  }

  /** Atomicity: at every moment of every behaviour the target is absent or complete, and whatever a
      reader ends up with, having read in any number of pieces, is one complete text. */
  lemma StatusAtomic(x: Setting, b: seq<System>, t: nat, r: nat)
    requires Behaviour(x, b) && t < |b| && r < |b[t].readers|
    ensures Target(b[t].fs, x.target).Some? ==> Complete(x, Target(b[t].fs, x.target).value)
    ensures b[t].readers[r].Read? && b[t].readers[r].text.Some? ==> Complete(x, b[t].readers[r].text.value)
  {
    BehaviourKeepsInv(x, b, t);
    assert ReaderOk(x, b[t], b[t].readers[r]);
  }

  /** Only a successful rename changes what the target shows; it makes it the writer's text. */
  lemma OnlyRenameShows(x: Setting, b: seq<System>, t: nat, i: nat)
    requires Behaviour(x, b) && t + 1 < |b| && WriterMoves(x, b[t], b[t + 1], i)
    ensures var w' := b[t + 1].writers[i];
            Target(b[t + 1].fs, x.target) == if w' == Ended(true) then Some(x.texts[i]) else Target(b[t].fs, x.target)
  {
    BehaviourKeepsInv(x, b, t);
    BehaviourKeepsInv(x, b, t + 1);
    var s, w := b[t], b[t].writers[i];
    assert WriterOk(x.target, x.texts[i], s.fs, w);
    if w.Active? && w.stage == Closed {
      assert s.fs.data[w.ino] == x.texts[i];
    }
  }

  // ---------------------------------------------------------------- the Write method

  datatype StatusSnapshot = StatusSnapshot(
    lastRequestAt: nat, lastRemoteAddr: string, lastAuthOutcome: string, lastAction: string, lastError: string)

  /** How the calls of one write turn out: the name and inode CreateTemp picks, if it succeeds; how
      much reaches the file; whether Close, Rename and Remove succeed. */
  datatype Calls = Calls(create: Option<(string, nat)>, written: nat, close: bool, rename: bool, remove: bool)

  /** What is left of a write that failed after creating its temporary file. */
  function Abandon(fs: Fs, tmp: string, c: Calls): Fs {
    if c.remove then fs.(dir := fs.dir - {tmp}) else fs
  }

  function Filled(fs: Fs, text: string, ino: nat, c: Calls): Fs {
    fs.(data := fs.data[ino := if c.written < |text| then text[..c.written] else text])
  }

  function WriteStep(fs: Fs, target: string, encoded: Option<string>, c: Calls): (Fs, bool) {
    if encoded.None? || c.create.None? then (fs, false) else
      var text, tmp, ino := encoded.value + "\n", c.create.value.0, c.create.value.1;
      var fs1 := Filled(fs.(dir := fs.dir[tmp := ino]), text, ino, c);
      if c.written < |text| || !c.close || !c.rename then (Abandon(fs1, tmp, c), false)
      else (fs1.(dir := (fs1.dir - {tmp})[target := ino]), true)
  }

  /** CreateTemp returns a name and an inode that do not exist yet. */
  ghost predicate FreshTemp(fs: Fs, target: string, c: Calls) {
    && (forall name :: name in fs.dir ==> fs.dir[name] in fs.data)
    && (c.create.Some? ==> c.create.value.0 !in fs.dir && c.create.value.0 != target && c.create.value.1 !in fs.data)
  }

  /** A write succeeds exactly when every call does its part. A success shows the snapshot's text under
      the target name and leaves no other new name; a failure leaves the target as it was, and no new
      name if removal works; no other file changes. */
  lemma WriteIsAllOrNothing(fs: Fs, target: string, encoded: Option<string>, c: Calls)
    requires FreshTemp(fs, target, c)
    ensures var (fs', ok) := WriteStep(fs, target, encoded, c);
            && (ok <==> encoded.Some? && c.create.Some? && c.written > |encoded.value| && c.close && c.rename)
            && (ok ==> encoded.Some? && Target(fs', target) == Some(encoded.value + "\n")
                       && fs'.dir.Keys == fs.dir.Keys + {target})
            && (!ok ==> Target(fs', target) == Target(fs, target) && (c.remove ==> fs'.dir == fs.dir))
            && (forall name :: name in fs.dir && name != target ==> Target(fs', name) == Target(fs, name))
  {
    if encoded.Some? && c.create.Some? {
      var tmp, ino := c.create.value.0, c.create.value.1;
      assert fs.dir[tmp := ino] - {tmp} == fs.dir;
    }
  }

  ghost predicate IsTrace(target: string, text: string, trace: seq<(Fs, Writer)>) {
    forall t :: 0 <= t < |trace| - 1 ==>
      WriterStep(target, text, trace[t].0, trace[t].1, trace[t + 1].0, trace[t + 1].1)
  }

  lemma TraceGrows(target: string, text: string, trace: seq<(Fs, Writer)>, fs: Fs, w: Writer)
    requires IsTrace(target, text, trace) && trace != []
    requires WriterStep(target, text, trace[|trace| - 1].0, trace[|trace| - 1].1, fs, w)
    ensures IsTrace(target, text, trace + [(fs, w)])
  {
    var longer := trace + [(fs, w)];
    forall t | 0 <= t < |longer| - 1
      ensures WriterStep(target, text, longer[t].0, longer[t].1, longer[t + 1].0, longer[t + 1].1)
    {
      if t < |trace| - 1 {
        assert longer[t] == trace[t] && longer[t + 1] == trace[t + 1];
      }
    }
  }

  /** The calls of one Write are steps of the interleaving model, for every outcome. */
  lemma WriteIsTrace(fs: Fs, target: string, json: string, c: Calls) returns (trace: seq<(Fs, Writer)>)
    requires FreshTemp(fs, target, c)
    ensures IsTrace(target, json + "\n", trace) && |trace| >= 2 && trace[0] == (fs, Idle)
    ensures var (fs', ok) := WriteStep(fs, target, Some(json), c);
            trace[|trace| - 1] == (fs', Ended(ok))
  {
    var text := json + "\n";
    trace := [(fs, Idle)];
    if c.create.None? {
      TraceGrows(target, text, trace, fs, Ended(false));
      trace := trace + [(fs, Ended(false))];
    } else {
      var tmp, ino := c.create.value.0, c.create.value.1;
      var fs0 := Fs(fs.dir[tmp := ino], fs.data[ino := ""]);
      var w0 := Active(Filling, tmp, ino, 0);
      TraceGrows(target, text, trace, fs0, w0);
      trace := trace + [(fs0, w0)];
      trace := FillTrace(fs, target, text, tmp, ino, c, trace);
      trace := EndTrace(target, text, c, trace);
    }
  }

  lemma FillTrace(fs: Fs, target: string, text: string, tmp: string, ino: nat, c: Calls, trace: seq<(Fs, Writer)>)
    returns (trace': seq<(Fs, Writer)>)
    requires IsTrace(target, text, trace) && trace != [] && text != ""
    requires trace[|trace| - 1] == (Fs(fs.dir[tmp := ino], fs.data[ino := ""]), Active(Filling, tmp, ino, 0))
    ensures IsTrace(target, text, trace') && trace <= trace'
    ensures trace'[|trace'| - 1] == (Filled(fs.(dir := fs.dir[tmp := ino]), text, ino, c),
                                     Active(Filling, tmp, ino, if c.written < |text| then c.written else |text|))
  {
    var n := if c.written < |text| then c.written else |text|;
    assert text[..|text|] == text && text[..0] == "";
    trace' := trace;
    if n > 0 {
      var fs1 := Filled(fs.(dir := fs.dir[tmp := ino]), text, ino, c);
      assert fs1.data == fs.data[ino := ""][ino := text[..n]];
      TraceGrows(target, text, trace, fs1, Active(Filling, tmp, ino, n));
      trace' := trace + [(fs1, Active(Filling, tmp, ino, n))];
    }
  }

  lemma EndTrace(target: string, text: string, c: Calls, trace: seq<(Fs, Writer)>) returns (trace': seq<(Fs, Writer)>)
    requires IsTrace(target, text, trace) && trace != []
    requires var (fs, w) := trace[|trace| - 1];
             && w.Active? && w.stage == Filling && w.tmp in fs.dir && fs.dir[w.tmp] == w.ino
             && w.n == if c.written < |text| then c.written else |text|
    ensures IsTrace(target, text, trace') && trace <= trace'
    ensures var (fs, w) := trace[|trace| - 1];
            trace'[|trace'| - 1] ==
              if c.written < |text| || !c.close || !c.rename then (Abandon(fs, w.tmp, c), Ended(false))
              else (fs.(dir := (fs.dir - {w.tmp})[target := w.ino]), Ended(true))
  {
    var (fs, w) := trace[|trace| - 1];
    trace' := trace;
    if c.written >= |text| && c.close {
      TraceGrows(target, text, trace', fs, w.(stage := Closed));
      trace' := trace' + [(fs, w.(stage := Closed))];
    }
    if c.written >= |text| && c.close && c.rename {
      var fs' := fs.(dir := (fs.dir - {w.tmp})[target := w.ino]);
      TraceGrows(target, text, trace', fs', Ended(true));
      trace' := trace' + [(fs', Ended(true))];
    } else {
      var f := trace'[|trace'| - 1].1.(stage := Failing);
      TraceGrows(target, text, trace', fs, f);
      trace' := trace' + [(fs, f)];
      assert CleansUp(fs, f, Abandon(fs, w.tmp, c), Ended(false), c.remove);
      TraceGrows(target, text, trace', Abandon(fs, w.tmp, c), Ended(false));
      trace' := trace' + [(Abandon(fs, w.tmp, c), Ended(false))];
    }
  }

  /** A reader that parses what a successful write left gets the snapshot that was written. */
  lemma WrittenReads(fs: Fs, target: string, json: StatusSnapshot -> Option<string>,
                     parse: string -> Option<StatusSnapshot>, snap: StatusSnapshot, c: Calls)
    requires FreshTemp(fs, target, c) && WriteStep(fs, target, json(snap), c).1
    requires json(snap).Some? ==> parse(json(snap).value + "\n") == Some(snap)
    ensures var shown := Target(WriteStep(fs, target, json(snap), c).0, target);
            shown.Some? && parse(shown.value) == Some(snap)
  {
    WriteIsAllOrNothing(fs, target, json(snap), c);
  }

  class StatusWriter {
    const path: string
    const json: StatusSnapshot -> Option<string>
    var dir: map<string, nat>
    var data: map<nat, string>

    ghost function State(): Fs
      reads this
    {
      Fs(dir, data)
    }

    constructor (path: string, json: StatusSnapshot -> Option<string>)
      ensures this.path == path && this.json == json && State() == Fs(map[], map[])
    {
      this.path, this.json, dir, data := path, json, map[], map[];
    }

    method Write(snap: StatusSnapshot, c: Calls) returns (ok: bool)
      requires FreshTemp(State(), path, c)
      modifies this
      ensures (State(), ok) == WriteStep(old(State()), path, json(snap), c)
    {
      var encoded := json(snap);
      if encoded.None? {
        return false;
      }
      var text := encoded.value + "\n";
      if c.create.None? {
        return false;
      }
      var (tmp, ino) := c.create.value;
      dir, data := dir[tmp := ino], data[ino := ""];
      if c.written < |text| {
        data := data[ino := text[..c.written]];
        assert data == old(data)[ino := text[..c.written]];
        Remove(tmp, c);
        return false;
      }
      data := data[ino := text];
      assert data == old(data)[ino := text];
      if !c.close || !c.rename {
        Remove(tmp, c);
        return false;
      }
      dir := (dir - {tmp})[path := dir[tmp]];
      ok := true;
    }

    method Remove(tmp: string, c: Calls)
      modifies this`dir
      ensures State() == Abandon(old(State()), tmp, c)
    {
      if c.remove {
        dir := dir - {tmp};
      }
    }

    /** ReadStatus; `parse` stands for json.Unmarshal of the whole file, `readable` says whether
        reading a file that exists works. */
    method ReadStatus(parse: string -> Option<StatusSnapshot>, readable: bool) returns (r: Option<StatusSnapshot>)
      ensures Target(State(), path).None? || !readable ==> r == None
      ensures Target(State(), path).Some? && readable ==> r == parse(Target(State(), path).value)
    {
      if readable && path in dir && dir[path] in data {
        r := parse(data[dir[path]]);
      } else {
        r := None;
      }
    }
  }
}
