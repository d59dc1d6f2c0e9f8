/** The rotating JSONL audit log (internal/server/audit.go). File contents are text; JSON encoding
    is a parameter. Appends either happen whole or not at all. */
module Audit {
  import opened Text

  datatype AuditEntry = AuditEntry(
    timestamp: nat, remoteAddr: string, hostname: string, myIPClaimed: string, myIPVerified: string,
    authOutcome: string, action: string, route53ChangeID: string, err: string)

  /** The live file and its rotated predecessor. */
  datatype Files = Files(live: Option<string>, rotated: Option<string>)

  /** Which file-system calls of one write succeed. */
  datatype Calls = Calls(stat: bool, rename: bool, open: bool, write: bool)

  function Content(f: Option<string>): string {
    if f.Some? then f.value else ""
  }

  function Retained(fs: Files): string {
    Content(fs.rotated) + Content(fs.live)
  }

  function Rotate(fs: Files, maxSize: int, c: Calls): Files {
    if c.stat && fs.live.Some? && |fs.live.value| >= maxSize && c.rename then Files(None, fs.live) else fs
  }

  /** One write of `line`, which is absent when JSON encoding failed. */
  function WriteStep(fs: Files, maxSize: int, line: Option<string>, c: Calls): (Files, bool) {
    Append(Rotate(fs, maxSize, c), line, c)
  }

  function Append(fs: Files, line: Option<string>, c: Calls): (Files, bool) {
    if line.None? || !c.open then (fs, false)
    else if !c.write then (fs.(live := Some(Content(fs.live))), false)
    else (fs.(live := Some(Content(fs.live) + line.value)), true)
  }

  function LineOf(json: AuditEntry -> Option<string>, entry: AuditEntry, now: nat): Option<string> {
    var j := json(entry.(timestamp := now));
    if j.Some? then Some(j.value + "\n") else None
  }

  class AuditLog {
    const maxSize: int
    const json: AuditEntry -> Option<string>
    var live: Option<string>
    var rotated: Option<string>

    ghost function State(): Files
      reads this
    {
      Files(live, rotated)
    }

    constructor (maxSize: int, json: AuditEntry -> Option<string>)
      ensures this.maxSize == maxSize && this.json == json && State() == Files(None, None)
    {
      this.maxSize, this.json, live, rotated := maxSize, json, None, None;
    }

    method Write(entry: AuditEntry, now: nat, c: Calls) returns (ok: bool)
      modifies this
      ensures (State(), ok) == WriteStep(old(State()), maxSize, LineOf(json, entry, now), c)
    {
      if c.stat && live.Some? && |live.value| >= maxSize {
        if c.rename {
          live, rotated := None, live;
        }
      }
      var data := json(entry.(timestamp := now));
      if data.None? || !c.open {
        return false;
      }
      if live.None? {
        live := Some("");
      }
      if !c.write {
        return false;
      }
      live := Some(live.value + (data.value + "\n"));
      ok := true;
    }
  }

  // ---------------------------------------------------------------- every run

  datatype Attempt = Attempt(line: Option<string>, calls: Calls)

  function After(fs: Files, maxSize: int, attempts: seq<Attempt>): Files {
    if attempts == [] then fs else
      var last := attempts[|attempts| - 1];
      WriteStep(After(fs, maxSize, attempts[..|attempts| - 1]), maxSize, last.line, last.calls).0
  }

  /** Every line whose write succeeded, in order. */
  function Logged(attempts: seq<Attempt>): seq<string> {
    if attempts == [] then [] else
      var last := attempts[|attempts| - 1];
      Logged(attempts[..|attempts| - 1]) +
      if last.line.Some? && last.calls.open && last.calls.write then [last.line.value] else []
  }

  function Concat(lines: seq<string>): string {
    if lines == [] then "" else Concat(lines[..|lines| - 1]) + lines[|lines| - 1]
  }

  lemma {:induction false} ConcatAppend(a: seq<string>, b: seq<string>)
    ensures Concat(a + b) == Concat(a) + Concat(b)
  {
    if b == [] {
      assert a + b == a;
    } else {
      var s, front := a + b, b[..|b| - 1];
      assert s[..|s| - 1] == a + front && s[|s| - 1] == b[|b| - 1];
      ConcatAppend(a, front);
    }
  }

  /** The old file holds lines k to m, the live file the rest, and nothing was dropped unless what
      is kept fills a whole file. */
  ghost predicate Keeps(fs: Files, maxSize: int, log: seq<string>, k: nat, m: nat) {
    && k <= m <= |log|
    && Content(fs.rotated) == Concat(log[k..m]) && Content(fs.live) == Concat(log[m..])
    && (k == 0 || |Retained(fs)| >= maxSize)
  }

  lemma RotateKeeps(fs: Files, maxSize: int, log: seq<string>, k: nat, m: nat, c: Calls) returns (k': nat, m': nat)
    requires Keeps(fs, maxSize, log, k, m)
    ensures Keeps(Rotate(fs, maxSize, c), maxSize, log, k', m')
  {
    k', m' := k, m;
    if Rotate(fs, maxSize, c) != fs {
      k', m' := m, |log|;
      assert log[m..|log|] == log[m..] && log[|log|..] == [];
    }
  }

  lemma AppendKeeps(fs: Files, maxSize: int, log: seq<string>, k: nat, m: nat, line: string)
    requires Keeps(fs, maxSize, log, k, m)
    ensures Keeps(fs.(live := Some(Content(fs.live) + line)), maxSize, log + [line], k, m)
  {
    var log' := log + [line];
    assert log'[k..m] == log[k..m];
    assert log'[m..] == log[m..] + [line];
    ConcatSnoc(log[m..], line);
  }

  lemma ConcatSnoc(a: seq<string>, line: string)
    ensures Concat(a + [line]) == Concat(a) + line
  {
    assert (a + [line])[..|a|] == a;
  }

  lemma StepKeeps(fs: Files, maxSize: int, log: seq<string>, k: nat, m: nat, line: Option<string>, c: Calls)
    returns (k': nat, m': nat)
    requires Keeps(fs, maxSize, log, k, m)
    ensures var (fs', ok) := WriteStep(fs, maxSize, line, c);
            (ok ==> line.Some?) && Keeps(fs', maxSize, if ok then log + [line.value] else log, k', m')
  {
    k', m' := RotateKeeps(fs, maxSize, log, k, m, c);
    if line.Some? {
      AppendKeeps(Rotate(fs, maxSize, c), maxSize, log, k', m', line.value);
    }
  }

  lemma {:induction false} RunKeeps(fs: Files, maxSize: int, attempts: seq<Attempt>) returns (k: nat, m: nat)
    requires Retained(fs) == ""
    ensures Keeps(After(fs, maxSize, attempts), maxSize, Logged(attempts), k, m)
  {
    if attempts == [] {
      k, m := 0, 0;
      assert Content(fs.rotated) == "" && Content(fs.live) == "";
      var log := Logged(attempts);
      assert log[0..0] == [] && log[0..] == [] && Concat([]) == "";
    } else {
      var front, last := attempts[..|attempts| - 1], attempts[|attempts| - 1];
      k, m := RunKeeps(fs, maxSize, front);
      k, m := StepKeeps(After(fs, maxSize, front), maxSize, Logged(front), k, m, last.line, last.calls);
      assert Logged(front) + [] == Logged(front);
    }
  }

  ghost predicate IsSuffix(text: string, log: seq<string>, k: int) {
    0 <= k <= |log| && text == Concat(log[k..])
  }

  /** Conservation, for one writer: whatever calls fail, old file then live file is a whole-line suffix of
      everything ever logged, and holds at least the smaller of all of it and `maxSize` bytes. */
  lemma AuditConservation(fs: Files, maxSize: int, attempts: seq<Attempt>)
    requires Retained(fs) == ""
    ensures exists k :: IsSuffix(Retained(After(fs, maxSize, attempts)), Logged(attempts), k)
    ensures var kept := |Retained(After(fs, maxSize, attempts))|;
            kept >= |Concat(Logged(attempts))| || kept >= maxSize
  {
    var k, m := RunKeeps(fs, maxSize, attempts);
    KeptIsSuffix(After(fs, maxSize, attempts), maxSize, Logged(attempts), k, m);
  }

  lemma KeptIsSuffix(fs: Files, maxSize: int, log: seq<string>, k: nat, m: nat)
    requires Keeps(fs, maxSize, log, k, m)
    ensures IsSuffix(Retained(fs), log, k)
    ensures |Retained(fs)| >= |Concat(log)| || |Retained(fs)| >= maxSize
  {
    assert log[k..] == log[k..m] + log[m..] && log[0..] == log;
    ConcatAppend(log[k..m], log[m..]);
  }

  /** With stat and rename always succeeding the live file stays below maxSize plus one line. */
  lemma {:induction false} LiveStaysBounded(fs: Files, maxSize: nat, attempts: seq<Attempt>, longest: nat)
    requires Retained(fs) == "" && maxSize > 0
    requires forall i :: 0 <= i < |attempts| ==>
               && attempts[i].calls.stat && attempts[i].calls.rename
               && (attempts[i].line.Some? ==> |attempts[i].line.value| <= longest)
    ensures |Content(After(fs, maxSize, attempts).live)| < maxSize + longest
  {
    if attempts != [] {
      LiveStaysBounded(fs, maxSize, attempts[..|attempts| - 1], longest);
    }
  }

  function Terminated(entries: seq<string>): seq<string> {
    seq(|entries|, i requires 0 <= i < |entries| => entries[i] + "\n")
  }

  /** Reading JSON texts line by line, each written with its newline, gives them back in order. */
  lemma {:induction false} LinesReadBack(entries: seq<string>)
    requires forall i :: 0 <= i < |entries| ==> '\n' !in entries[i]
    ensures Split(Concat(Terminated(entries)), '\n') == entries + [""]
  {
    if entries != [] {
      LinesReadBack(entries[1..]);
      assert Terminated(entries) == [entries[0] + "\n"] + Terminated(entries[1..]);
      ConcatAppend([entries[0] + "\n"], Terminated(entries[1..]));
      assert Concat([entries[0] + "\n"]) == entries[0] + "\n" by {
        assert [entries[0] + "\n"][..0] == [];
      }
      SplitPrefix(entries[0], Concat(Terminated(entries[1..])), '\n');
      assert entries == [entries[0]] + entries[1..];
    }
  }

  /** The JSON texts logged, in order, when every line is one such text and a newline. */
  ghost predicate LogsEntries(attempts: seq<Attempt>, entries: seq<string>) {
    Logged(attempts) == Terminated(entries) && forall i :: 0 <= i < |entries| ==> '\n' !in entries[i]
  }

  ghost predicate ReadsAsSuffix(text: string, entries: seq<string>, k: int) {
    0 <= k <= |entries| && Split(text, '\n') == entries[k..] + [""]
  }

  lemma SuffixReads(fs: Files, maxSize: int, attempts: seq<Attempt>, entries: seq<string>)
    requires Retained(fs) == "" && LogsEntries(attempts, entries)
    ensures exists k :: ReadsAsSuffix(Retained(After(fs, maxSize, attempts)), entries, k)
  {
    AuditConservation(fs, maxSize, attempts);
    var text, log := Retained(After(fs, maxSize, attempts)), Logged(attempts);
    var k :| IsSuffix(text, log, k);
    assert log[k..] == Terminated(entries[k..]);
    LinesReadBack(entries[k..]);
    assert ReadsAsSuffix(text, entries, k);
  }

  /** An entry handed to Write, the time of the write, and how its calls turn out. */
  datatype Submission = Submission(entry: AuditEntry, now: nat, calls: Calls)

  function AttemptsOf(json: AuditEntry -> Option<string>, subs: seq<Submission>): (attempts: seq<Attempt>)
    ensures |attempts| == |subs|
  {
    if subs == [] then [] else
      var last := subs[|subs| - 1];
      AttemptsOf(json, subs[..|subs| - 1]) + [Attempt(LineOf(json, last.entry, last.now), last.calls)]
  }

  /** The entries that were logged, in order, each stamped with the time of its own write. */
  function LoggedEntries(json: AuditEntry -> Option<string>, subs: seq<Submission>): seq<AuditEntry> {
    if subs == [] then [] else
      var last := subs[|subs| - 1];
      var e := last.entry.(timestamp := last.now);
      LoggedEntries(json, subs[..|subs| - 1]) + if json(e).Some? && last.calls.open && last.calls.write then [e] else []
  }

  /** Their JSON texts. */
  function Encoded(json: AuditEntry -> Option<string>, entries: seq<AuditEntry>): (texts: seq<string>)
    ensures |texts| == |entries|
  {
    if entries == [] then [] else
      var j := json(entries[|entries| - 1]);
      Encoded(json, entries[..|entries| - 1]) + [if j.Some? then j.value else ""]
  }

  ghost predicate OneLineJson(json: AuditEntry -> Option<string>) {
    forall e :: json(e).Some? ==> '\n' !in json(e).value
  }

  lemma EncodedNext(json: AuditEntry -> Option<string>, entries: seq<AuditEntry>, e: AuditEntry)
    requires json(e).Some?
    ensures Encoded(json, entries + [e]) == Encoded(json, entries) + [json(e).value]
  {
    assert (entries + [e])[..|entries|] == entries;
  }

  lemma TerminatedNext(texts: seq<string>, text: string)
    ensures Terminated(texts + [text]) == Terminated(texts) + [text + "\n"]
  {
  }

  lemma LoggedNext(attempts: seq<Attempt>, a: Attempt)
    ensures Logged(attempts + [a]) ==
            Logged(attempts) + if a.line.Some? && a.calls.open && a.calls.write then [a.line.value] else []
  {
    assert (attempts + [a])[..|attempts|] == attempts;
  }

  lemma {:induction false} LoggedAreEncoded(json: AuditEntry -> Option<string>, subs: seq<Submission>)
    requires OneLineJson(json)
    ensures LogsEntries(AttemptsOf(json, subs), Encoded(json, LoggedEntries(json, subs)))
  {
    if subs != [] {
      var front, last := subs[..|subs| - 1], subs[|subs| - 1];
      var e, entries := last.entry.(timestamp := last.now), LoggedEntries(json, front);
      LoggedAreEncoded(json, front);
      LoggedNext(AttemptsOf(json, front), Attempt(LineOf(json, last.entry, last.now), last.calls));
      if json(e).Some? && last.calls.open && last.calls.write {
        EncodedNext(json, entries, e);
        TerminatedNext(Encoded(json, entries), json(e).value);
      } else {
        assert entries + [] == entries && Logged(AttemptsOf(json, front)) + [] == Logged(AttemptsOf(json, front));
      }
    }
  }

  /** Whatever calls failed, splitting old file and live file into lines gives exactly the last so
      many entries logged, in order: each line is the JSON text of an entry stamped with the time of
      its own write. */
  lemma RetainedReads(fs: Files, maxSize: int, json: AuditEntry -> Option<string>, subs: seq<Submission>)
    requires Retained(fs) == "" && OneLineJson(json)
    ensures exists k :: ReadsAsSuffix(Retained(After(fs, maxSize, AttemptsOf(json, subs))),
                                      Encoded(json, LoggedEntries(json, subs)), k)
  {
    LoggedAreEncoded(json, subs);
    SuffixReads(fs, maxSize, AttemptsOf(json, subs), Encoded(json, LoggedEntries(json, subs)));
  }
}
