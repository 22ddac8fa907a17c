/** What the client's transaction guarantees over whole runs of passes, crashed or failing at any point. */
module ClientTheorems {
  import opened Outcomes
  import opened Discovery
  import opened Discover
  import opened Lib
  import opened WgQuick
  import opened Client

  /** A complete file whose bytes are known: the node's original file or a checked download. */
  ghost predicate IsKnown(f: File, known: set<string>) {
    f.Whole? && f.bytes in known
  }

  /** The file has the recorded digest, if one is recorded. */
  predicate Matches(f: File, digest: Option<Digest>) {
    digest.Some? ==> f.Whole? && Digest(f.bytes) == digest.value
  }

  /** Crash consistency of the disk: not pending, the configuration file has the recorded digest; pending
      with a backup, the backup has it; pending without a backup, nothing is recorded. */
  ghost predicate DiskOk(m: Machine, known: set<string>) {
    var st := Load(m);
    && (!st.pending ==> (m.conf.Absent? || IsKnown(m.conf, known)) && Matches(m.conf, st.digest))
    && (st.pending && st.hadBackup ==> IsKnown(m.backup, known) && Matches(m.backup, st.digest))
    && (st.pending && !st.hadBackup ==> (m.conf.Absent? || IsKnown(m.conf, known)) && st.digest.None?)
    && (m.conf.Whole? ==> m.conf.bytes in known)
  }

  /** The kernel runs, and was ever only handed, complete known files. */
  ghost predicate KernelOk(m: Machine, known: set<string>) {
    && (m.iface.Some? ==> IsKnown(m.iface.value, known))
    && forall i :: 0 <= i < |m.calls| && m.calls[i].Up? ==> IsKnown(m.calls[i].file, known)
  }

  ghost predicate Consistent(m: Machine, known: set<string>) {
    DiskOk(m, known) && KernelOk(m, known)
  }

  predicate Accepted(lib: Library, host: string, input: Input) {
    Decided(input.rounds, host).Ok? && Parse(lib, Decided(input.rounds, host).value.bytes).Ok?
  }

  /** What a pass may add to the known files: a download that was digest-checked and parsed. */
  ghost function Learned(lib: Library, host: string, input: Input): set<string> {
    if Accepted(lib, host, input) then {Decided(input.rounds, host).value.bytes} else {}
  }

  /** The condition on the recovery step: a failing copy must not be followed by clearing the marker, and the
      marker must be cleared on disk before a copy that can tear overwrites the backup. */
  predicate RecoveryIsSound(tear: bool, copy: Event, save: Event) {
    match copy
    case Go => !(save.Fail? && tear)
    case Fail => save.CrashBefore? || save.CrashMid?
    case _ => true
  }

  predicate Sound(tear: bool, s: Script) {
    RecoveryIsSound(tear, s.recoveryCopy, s.recoverySave)
  }

  // -------------------------------------------------------------------
  // Stage by stage
  // -------------------------------------------------------------------

  /** Between recovery and the next pending marker: memory is not pending, and the disk is consistent and
      stays so when the backup is overwritten with the configuration file. */
  ghost predicate Settled(tear: bool, p: Progress, known: set<string>) {
    && Consistent(p.m, known)
    && !p.mem.pending
    && (p.m.conf.Absent? || IsKnown(p.m.conf, known)) && Matches(p.m.conf, p.mem.digest)
    && (Load(p.m).pending ==> Load(p.m).digest == p.mem.digest && (tear ==> !Load(p.m).hadBackup))
  }

  lemma RecoverSettles(tear: bool, s: Script, m: Machine, known: set<string>)
    requires Consistent(m, known) && Sound(tear, s)
    ensures var p := Recover(tear, s, m); Consistent(p.m, known) && (p.flow.On? ==> Settled(tear, p, known))
    ensures !Recover(tear, s, m).flow.Returned?
  {
  }

  lemma RestoreSettles(lib: Library, tear: bool, s: Script, p: Progress, known: set<string>)
    requires Settled(tear, p, known) && p.flow.On?
    ensures var q := RestoreLocal(lib, s, p); Consistent(q.m, known) && (q.flow.On? ==> Settled(tear, q, known))
    ensures !RestoreLocal(lib, s, p).flow.Returned?
  {
  }

  lemma BeginSettles(lib: Library, tear: bool, s: Script, m: Machine, known: set<string>)
    requires Consistent(m, known) && Sound(tear, s)
    ensures var p := Begin(lib, tear, s, m); Consistent(p.m, known) && (p.flow.On? ==> Settled(tear, p, known))
  {
    hide Recover, RestoreLocal, Settled, Consistent;
    RecoverSettles(tear, s, m, known);
    var p := Recover(tear, s, m);
    if p.flow.On? {
      RestoreSettles(lib, tear, s, p, known);
    }
  }

  /** From the pending marker on: it is on disk, and the backup is what a rollback needs. */
  ghost predicate Marked(p: Progress, known: set<string>) {
    && Consistent(p.m, known)
    && p.mem.pending && p.m.state == Some(p.mem)
    && (p.mem.hadBackup ==> IsKnown(p.m.backup, known) && Matches(p.m.backup, p.mem.digest))
    && (!p.mem.hadBackup ==> p.mem.digest.None?)
    && (p.m.conf.Absent? || IsKnown(p.m.conf, known))
  }

  lemma CheckSettles(tear: bool, s: Script, p: Progress, known: set<string>)
    requires Settled(tear, p, known) && p.flow.On?
    ensures var q := CheckRoutes(s, p); Consistent(q.m, known) && (q.flow.On? ==> Settled(tear, q, known))
  {
  }

  /** The backup now has what the configuration file has; the disk is still consistent. */
  lemma BackUpSettles(tear: bool, s: Script, p: Progress, known: set<string>)
    requires Settled(tear, p, known) && p.flow.On?
    ensures var q := BackUp(tear, s, p);
            && Consistent(q.m, known)
            && (q.flow.On? ==> Settled(tear, q, known) && (q.m.conf.Whole? ==> q.m.backup == q.m.conf))
  {
  }

  lemma MarkMarks(tear: bool, s: Script, p: Progress, known: set<string>)
    requires Settled(tear, p, known) && p.flow.On? && (p.m.conf.Whole? ==> p.m.backup == p.m.conf)
    ensures var q := MarkPending(s, p); Consistent(q.m, known) && (q.flow.On? ==> Marked(q, known))
  {
  }

  lemma PrepareMarks(tear: bool, s: Script, p: Progress, known: set<string>)
    requires Settled(tear, p, known) && p.flow.On?
    ensures var q := Prepare(tear, s, p); Consistent(q.m, known) && (q.flow.On? ==> Marked(q, known))
  {
    hide Settled, Consistent, Marked, CheckRoutes, BackUp, MarkPending;
    CheckSettles(tear, s, p, known);
    var p1 := CheckRoutes(s, p);
    if p1.flow.On? {
      BackUpSettles(tear, s, p1, known);
      var p2 := BackUp(tear, s, p1);
      if p2.flow.On? {
        MarkMarks(tear, s, p2, known);
      }
    }
  }

  lemma RemoveKeepsMark(s: Script, p: Progress, known: set<string>)
    requires Marked(p, known)
    ensures var q := RemoveOld(s, p); Consistent(q.m, known) && (q.flow.On? ==> Marked(q, known))
  {
  }

  /** During a rollback only the backup is relied on. */
  ghost predicate Undoing(p: Progress, known: set<string>) {
    && Consistent(p.m, known)
    && p.mem.pending && p.mem.hadBackup && p.m.state == Some(p.mem)
    && IsKnown(p.m.backup, known) && Matches(p.m.backup, p.mem.digest)
  }

  lemma CopyBack(tear: bool, p: Progress, known: set<string>, e: Event)
    requires Marked(p, known) && p.mem.hadBackup
    ensures var (conf, status) := Copy(tear, p.m.backup, p.m.conf, e);
            Undoing(p.(m := p.m.(conf := conf)), known) && (status.Done? ==> conf == p.m.backup)
  {
  }

  lemma ApplyBack(lib: Library, s: Script, p: Progress, known: set<string>, e: Event)
    requires Undoing(p, known) && p.m.conf == p.m.backup
    ensures var (m, status) := ApplyConf(lib, p.m, s, e); Undoing(p.(m := m), known) && m.conf == m.backup
  {
  }

  lemma SaveCleared(s: Script, p: Progress, known: set<string>)
    requires Undoing(p, known) && p.m.conf == p.m.backup
    ensures Consistent(SaveRollback(s, p.(mem := p.mem.(pending := false))).m, known)
  {
  }

  lemma SaveSame(s: Script, p: Progress)
    ensures p.m.state == Some(p.mem) ==> SaveRollback(s, p).m == p.m
    ensures !SaveRollback(s, p).flow.On?
  {
  }

  lemma RollBackIsConsistent(lib: Library, tear: bool, s: Script, p: Progress, known: set<string>)
    requires Marked(p, known)
    ensures Consistent(RollBack(lib, tear, s, p).m, known) && !RollBack(lib, tear, s, p).flow.On?
  {
    hide Consistent, Copy, ApplyConf, SaveRollback, IsKnown, Matches;
    var q := p.(out := p.out.(rollbackAttempted := true));
    SaveSame(s, q);
    if p.mem.hadBackup {
      CopyBack(tear, q, known, s.rollbackCopy);
      var (conf, copied) := Copy(tear, p.m.backup, p.m.conf, s.rollbackCopy);
      var q1 := q.(m := q.m.(conf := conf));
      SaveSame(s, q1);
      if copied.Done? {
        ApplyBack(lib, s, q1, known, s.rollbackApply);
        var (m, applied) := ApplyConf(lib, q1.m, s, s.rollbackApply);
        var q2 := q1.(m := m);
        SaveSame(s, q2);
        var cleared := q2.(mem := q2.mem.(pending := false), out := q2.out.(rollbackSucceeded := true));
        SaveSame(s, cleared);
        SaveCleared(s, q2.(out := cleared.out), known);
      }
    }
  }

  lemma InstallKeepsMark(lib: Library, tear: bool, s: Script, bytes: string, p: Progress, known: set<string>)
    requires Marked(p, known) && bytes in known
    ensures var q := InstallFile(lib, tear, s, bytes, p);
            Consistent(q.m, known) && (q.flow.On? ==> Marked(q, known) && q.m.conf == Whole(bytes))
  {
    hide RollBack;
    var q := if Lands(s.install) then p.(m := p.m.(conf := Whole(bytes))) else p;
    RollBackIsConsistent(lib, tear, s, q.(out := q.out.(error := Some(InstallFailed))), known);
  }

  lemma BringUpKeepsMark(lib: Library, tear: bool, s: Script, p: Progress, known: set<string>)
    requires Marked(p, known) && p.m.conf.Whole?
    ensures var q := BringUp(lib, tear, s, p);
            Consistent(q.m, known) && (q.flow.On? ==> Marked(q, known) && q.m.conf == p.m.conf)
  {
    hide RollBack;
    var (m, status) := ApplyConf(lib, p.m, s, s.apply);
    var q := p.(m := m);
    RollBackIsConsistent(lib, tear, s, q.(out := q.out.(error := Some(ApplyFailed))), known);
  }

  lemma RecordIsConsistent(s: Script, host: string, d: Download, p: Progress, known: set<string>)
    requires Marked(p, known) && p.m.conf == Whole(d.bytes) && d.digest == Digest(d.bytes)
    ensures Consistent(Record(s, host, d, p).m, known)
  {
  }

  lemma SwitchIsConsistent(lib: Library, tear: bool, s: Script, host: string, d: Download, p: Progress, known: set<string>)
    requires Marked(p, known) && d.bytes in known && d.digest == Digest(d.bytes)
    ensures Consistent(Switch(lib, tear, s, host, d, p).m, known)
  {
    hide Marked, Consistent, RemoveOld, InstallFile, BringUp, Record;
    RemoveKeepsMark(s, p, known);
    var p1 := RemoveOld(s, p);
    if p1.flow.On? {
      InstallKeepsMark(lib, tear, s, d.bytes, p1, known);
      var p2 := InstallFile(lib, tear, s, d.bytes, p1);
      if p2.flow.On? {
        BringUpKeepsMark(lib, tear, s, p2, known);
        var p3 := BringUp(lib, tear, s, p2);
        if p3.flow.On? {
          RecordIsConsistent(s, host, d, p3, known);
        }
      }
    }
  }

  lemma MoreKnown(tear: bool, p: Progress, known: set<string>, more: set<string>)
    requires Settled(tear, p, known)
    ensures Settled(tear, p, known + more) && Consistent(p.m, known + more)
  {
  }

  /** A successful discovery hands over bytes with the digest it promises. */
  lemma DownloadIsChecked(rounds: seq<Answers>, host: string)
    requires Decided(rounds, host).Ok?
    ensures Decided(rounds, host).value.digest == Digest(Decided(rounds, host).value.bytes)
  {
    DecidedByRound(rounds, host);
  }

  lemma ProceedIsConsistent(lib: Library, tear: bool, host: string, input: Input, p: Progress, known: set<string>)
    requires Settled(tear, p, known) && p.flow.On?
    ensures Consistent(Proceed(lib, tear, host, input, p).m, known + Learned(lib, host, input))
  {
    hide Decided, Parse, Consistent, Settled, Prepare, Switch;
    var all := known + Learned(lib, host, input);
    MoreKnown(tear, p, known, Learned(lib, host, input));
    if Accepted(lib, host, input) {
      var d := Decided(input.rounds, host).value;
      DownloadIsChecked(input.rounds, host);
      PrepareMarks(tear, input.script, p, all);
      var p1 := Prepare(tear, input.script, p);
      if p1.flow.On? {
        SwitchIsConsistent(lib, tear, input.script, host, d, p1, all);
      }
    }
  }

  // -------------------------------------------------------------------
  // Whole runs
  // -------------------------------------------------------------------

  /** Whatever happens in a pass, including a crash at any point, it leaves disk and kernel consistent. */
  lemma PassIsConsistent(lib: Library, tear: bool, host: string, input: Input, m: Machine, known: set<string>)
    requires Consistent(m, known) && Sound(tear, input.script)
    ensures Consistent(Pass(lib, tear, host, input, m).m, known + Learned(lib, host, input))
  {
    hide Consistent, Settled, Begin, Proceed;
    BeginSettles(lib, tear, input.script, m, known);
    var p := Begin(lib, tear, input.script, m);
    MoreConsistent(p.m, known, Learned(lib, host, input));
    if p.flow.On? {
      ProceedIsConsistent(lib, tear, host, input, p, known);
    }
  }

  lemma MoreConsistent(m: Machine, known: set<string>, more: set<string>)
    requires Consistent(m, known)
    ensures Consistent(m, known + more)
  {
  }

  /** One pass of a run, possibly after the interface has vanished (a reboot, say). */
  datatype Episode = Episode(input: Input, reboot: bool)

  function Between(m: Machine, reboot: bool): Machine {
    if reboot then m.(iface := None) else m
  }

  /** The machine after a run of passes, crashed ones included. */
  function After(lib: Library, tear: bool, host: string, run: seq<Episode>, m: Machine): Machine {
    if |run| == 0 then m
    else
      var last := run[|run| - 1];
      Pass(lib, tear, host, last.input, Between(After(lib, tear, host, run[..|run| - 1], m), last.reboot)).m
  }

  ghost function LearnedBy(lib: Library, host: string, run: seq<Episode>): set<string> {
    if |run| == 0 then {} else LearnedBy(lib, host, run[..|run| - 1]) + Learned(lib, host, run[|run| - 1].input)
  }

  /** A node that has never completed a sync: any complete file of its own, nothing recorded. */
  predicate IsOriginal(m: Machine) {
    && !m.conf.Torn? && Load(m).digest.None? && !Load(m).pending && m.calls == []
    && (m.iface.Some? ==> m.conf.Whole? && m.iface.value == m.conf)
  }

  ghost predicate AllSound(tear: bool, run: seq<Episode>) {
    forall i :: 0 <= i < |run| ==> Sound(tear, run[i].input.script)
  }

  /** The complete files of a run: the node's own and the checked downloads. */
  ghost function KnownIn(lib: Library, host: string, run: seq<Episode>, m: Machine): set<string> {
    (if m.conf.Whole? then {m.conf.bytes} else {}) + LearnedBy(lib, host, run)
  }

  ghost predicate EndsConsistent(lib: Library, tear: bool, host: string, run: seq<Episode>, m: Machine) {
    Consistent(After(lib, tear, host, run, m), KnownIn(lib, host, run, m))
  }

  /** In every run from an original node, disk and kernel are consistent: only the original file and checked
      downloads are ever installed, recorded or handed to the kernel. */
  lemma {:induction false} RunIsConsistent(lib: Library, tear: bool, host: string, run: seq<Episode>, m: Machine)
    requires IsOriginal(m) && AllSound(tear, run)
    ensures EndsConsistent(lib, tear, host, run, m)
    decreases |run|
  {
    hide Pass, Learned, Sound;
    if |run| > 0 {
      var shorter, last := run[..|run| - 1], run[|run| - 1];
      RunIsConsistent(lib, tear, host, shorter, m);
      var before := After(lib, tear, host, shorter, m);
      var known := KnownIn(lib, host, shorter, m);
      RebootIsConsistent(before, last.reboot, known);
      hide Consistent;
      PassIsConsistent(lib, tear, host, last.input, Between(before, last.reboot), known);
      assert known + Learned(lib, host, last.input) == KnownIn(lib, host, run, m);
    }
  }

  lemma RebootIsConsistent(m: Machine, reboot: bool, known: set<string>)
    requires Consistent(m, known)
    ensures Consistent(Between(m, reboot), known)
  {
  }

  // -------------------------------------------------------------------
  // The condition on recovery is exact
  // -------------------------------------------------------------------

  predicate HasRecovery(s: Script, copy: Event, save: Event) {
    s.recoveryCopy == copy && s.recoverySave == save
  }

  /** A pass with this recovery step is harmless after every sound run of an original node. */
  ghost predicate IsHarmless(lib: Library, tear: bool, host: string, copy: Event, save: Event) {
    forall run, last: Episode, m :: IsOriginal(m) && AllSound(tear, run) && HasRecovery(last.input.script, copy, save) ==>
      EndsConsistent(lib, tear, host, run + [last], m)
  }

  /** An update from `a` to `b` that was cut off after `b` was up and before it was recorded. */
  predicate IsInterrupted(m: Machine, a: string, b: string) {
    && m.conf == Whole(b) && m.backup == Whole(a) && m.iface == Some(Whole(b))
    && Load(m).pending && Load(m).hadBackup && Load(m).digest == Some(Digest(a))
  }

  const NEW_NODE: Machine := Machine(Absent, Absent, None, None, [])

  /** Two publications, the second of them cut off. */
  function CutOff(older: seq<Answers>, newer: seq<Answers>): seq<Episode> {
    [Episode(Input(older, false, SMOOTH), false), Episode(Input(newer, false, SMOOTH.(finalSave := CrashBefore)), false)]
  }

  lemma AfterMore(lib: Library, tear: bool, host: string, run: seq<Episode>, last: Episode, m: Machine)
    ensures After(lib, tear, host, run + [last], m)
         == Pass(lib, tear, host, last.input, Between(After(lib, tear, host, run, m), last.reboot)).m
  {
    hide Pass;
    assert (run + [last])[..|run|] == run;
  }

  /** The first publication of a new node. */
  lemma FirstPublication(lib: Library, tear: bool, host: string, older: seq<Answers>)
    requires Accepted(lib, host, Input(older, false, SMOOTH))
    ensures var d, m := Decided(older, host).value, After(lib, tear, host, [Episode(Input(older, false, SMOOTH), false)], NEW_NODE);
            UpToDate(m, d) && m.iface == Some(m.conf)
  {
    hide Pass, Decided, Parse, UpToDate;
    var first := Episode(Input(older, false, SMOOTH), false);
    AfterMore(lib, tear, host, [], first, NEW_NODE);
    assert [] + [first] == [first];
    SmoothPassConverges(lib, tear, host, first.input, NEW_NODE, {});
    UpToDateFile(After(lib, tear, host, [first], NEW_NODE), Decided(older, host).value);
  }

  lemma UpToDateFile(m: Machine, d: Download)
    requires UpToDate(m, d)
    ensures !Load(m).pending && m.conf == Whole(d.bytes) && Load(m).digest == Some(d.digest) && m.iface.Some?
  {
  }

  /** A run of sound passes from a new node reaches an interrupted update. */
  lemma CutOffIsInterrupted(lib: Library, tear: bool, host: string, older: seq<Answers>, newer: seq<Answers>)
    requires Accepted(lib, host, Input(older, false, SMOOTH)) && Accepted(lib, host, Input(newer, false, SMOOTH))
    requires Decided(older, host).value.bytes != Decided(newer, host).value.bytes
    ensures IsOriginal(NEW_NODE) && AllSound(tear, CutOff(older, newer))
    ensures IsInterrupted(After(lib, tear, host, CutOff(older, newer), NEW_NODE),
                          Decided(older, host).value.bytes, Decided(newer, host).value.bytes)
  {
    hide Pass, Decided, Parse, After;
    var run := CutOff(older, newer);
    FirstPublication(lib, tear, host, older);
    AfterMore(lib, tear, host, run[..1], run[1], NEW_NODE);
    assert run[..1] + [run[1]] == run && run[..1] == [run[0]];
    DownloadIsChecked(older, host);
    DownloadIsChecked(newer, host);
    CutOffBeforeRecord(lib, tear, host, newer, run[1].input.script, After(lib, tear, host, [run[0]], NEW_NODE));
  }

  /** The recovery copy fails and the marker is cleared all the same. */
  lemma ForgottenCopy(lib: Library, tear: bool, host: string, m: Machine, a: string, b: string, save: Event,
                      known: set<string>)
    requires IsInterrupted(m, a, b) && a != b && (save.Go? || save.CrashAfter?)
    ensures !Consistent(Pass(lib, tear, host, Input([], false, SMOOTH.(recoveryCopy := Fail, recoverySave := save)), m).m, known)
  {
    var q := Pass(lib, tear, host, Input([], false, SMOOTH.(recoveryCopy := Fail, recoverySave := save)), m).m;
    assert Load(q) == Load(m).(pending := false) && q.conf != Whole(a);
  }

  lemma LostRecovery(lib: Library, tear: bool, s: Script, m: Machine, a: string, b: string)
    requires IsInterrupted(m, a, b) && s.recoverySave.Fail? && (s.recoveryCopy.Fail? || s.recoveryCopy.Go?)
    ensures var p := Begin(lib, tear, s, m);
            && p.flow.On? && p.m.state == m.state && p.m.backup == m.backup && p.m.iface == m.iface
            && p.mem.digest == Some(Digest(a)) && !p.m.conf.Absent?
            && (s.recoveryCopy.Fail? ==> p.m.conf != Whole(a) || a == b)
  {
    hide Parse;
  }

  lemma LostOverwrite(tear: bool, s: Script, p: Progress, a: string)
    requires p.flow.On? && !p.m.conf.Absent? && s.preflight.Go?
    requires (s.backupCopy.CrashAfter? && p.m.conf != Whole(a)) || (s.backupCopy.CrashMid? && tear)
    ensures var q := Prepare(tear, s, p); q.flow.Dead? && q.m.state == p.m.state && q.m.backup != Whole(a)
  {
  }

  /** The pass in which the next backup overwrites the one that the marker on disk relies on. */
  function Overwriting(newer: seq<Answers>, copy: Event): Input {
    Input(newer, false, SMOOTH.(recoveryCopy := copy, recoverySave := Fail,
                                backupCopy := if copy.Fail? then CrashAfter else CrashMid))
  }

  /** The marker stays on disk, and the next backup overwrites the one it relies on. */
  lemma LostBackup(lib: Library, tear: bool, host: string, newer: seq<Answers>, m: Machine, a: string, copy: Event,
                   known: set<string>)
    requires Accepted(lib, host, Input(newer, false, SMOOTH)) && Decided(newer, host).value.bytes != a
    requires IsInterrupted(m, a, Decided(newer, host).value.bytes)
    requires copy.Fail? || (copy.Go? && tear)
    ensures !Consistent(Pass(lib, tear, host, Overwriting(newer, copy), m).m, known)
  {
    hide Decided, Parse, Begin, Prepare;
    var d, input := Decided(newer, host).value, Overwriting(newer, copy);
    DownloadIsChecked(newer, host);
    LostRecovery(lib, tear, input.script, m, a, d.bytes);
    var p := Begin(lib, tear, input.script, m);
    LostOverwrite(tear, input.script, p, a);
    var q := Pass(lib, tear, host, input, m).m;
    assert q.state == m.state && q.backup != Whole(a);
  }

  /** The last pass of a run that goes wrong, if recovery is not sound. */
  function Culprit(newer: seq<Answers>, copy: Event, save: Event): Episode {
    Episode(if save.Fail? then Overwriting(newer, copy)
            else Input([], false, SMOOTH.(recoveryCopy := copy, recoverySave := save)), false)
  }

  lemma CulpritBreaks(lib: Library, tear: bool, host: string, older: seq<Answers>, newer: seq<Answers>, copy: Event,
                      save: Event)
    requires Accepted(lib, host, Input(older, false, SMOOTH)) && Accepted(lib, host, Input(newer, false, SMOOTH))
    requires Decided(older, host).value.bytes != Decided(newer, host).value.bytes
    requires !RecoveryIsSound(tear, copy, save)
    ensures !EndsConsistent(lib, tear, host, CutOff(older, newer) + [Culprit(newer, copy, save)], NEW_NODE)
  {
    hide Consistent, Pass, Learned, LearnedBy, Decided, Parse, IsInterrupted, After, CutOff;
    var run, last := CutOff(older, newer), Culprit(newer, copy, save);
    CutOffIsInterrupted(lib, tear, host, older, newer);
    AfterMore(lib, tear, host, run, last, NEW_NODE);
    var m, known := After(lib, tear, host, run, NEW_NODE), KnownIn(lib, host, run + [last], NEW_NODE);
    var a, b := Decided(older, host).value.bytes, Decided(newer, host).value.bytes;
    if save.Fail? {
      LostBackup(lib, tear, host, newer, m, a, copy, known);
    } else {
      ForgottenCopy(lib, tear, host, m, a, b, save, known);
    }
  }

  /** Crash consistency over runs holds exactly under the stated condition on the recovery copy and save: under
      it every run ends consistent; without it some run of a new node does not, whose only unsound pass is its
      last. */
  lemma RecoveryConditionIsExact(lib: Library, tear: bool, host: string, older: seq<Answers>, newer: seq<Answers>,
                                 copy: Event, save: Event)
    requires Accepted(lib, host, Input(older, false, SMOOTH)) && Accepted(lib, host, Input(newer, false, SMOOTH))
    requires Decided(older, host).value.bytes != Decided(newer, host).value.bytes
    ensures IsHarmless(lib, tear, host, copy, save) <==> RecoveryIsSound(tear, copy, save)
  {
    hide Consistent, After, LearnedBy, Decided, Parse, CutOff, IsOriginal;
    if RecoveryIsSound(tear, copy, save) {
      forall run, last: Episode, m | IsOriginal(m) && AllSound(tear, run) && HasRecovery(last.input.script, copy, save)
        ensures EndsConsistent(lib, tear, host, run + [last], m)
      {
        RunIsConsistent(lib, tear, host, run + [last], m);
      }
    } else {
      CutOffIsInterrupted(lib, tear, host, older, newer);
      CulpritBreaks(lib, tear, host, older, newer, copy, save);
      assert HasRecovery(Culprit(newer, copy, save).input.script, copy, save);
    }
  }

  // -------------------------------------------------------------------
  // Atomicity
  // -------------------------------------------------------------------

  /** How a transaction may leave the machine: untouched, marked for recovery, rolled back, or committed. */
  predicate Settlement(before: Progress, m: Machine, d: Download) {
    || (m.conf == before.m.conf && m.iface == before.m.iface)
    || Load(m).pending
    || (m.conf == before.m.conf && m.iface == Some(m.conf) && Load(m).digest == before.mem.digest)
    || (m.conf == Whole(d.bytes) && m.iface == Some(m.conf) && Load(m).digest == Some(d.digest))
  }

  /** The pending marker is on disk, with a faithful backup of the file the transaction started from. */
  predicate Recoverable(before: Progress, p: Progress) {
    && p.mem.pending && p.m.state == Some(p.mem) && p.mem.digest == before.mem.digest
    && (p.mem.hadBackup <==> !before.m.conf.Absent?)
    && (p.mem.hadBackup ==> p.m.backup == before.m.conf)
  }

  lemma PrepareIsRecoverable(tear: bool, s: Script, p: Progress)
    requires p.flow.On? && !p.m.conf.Torn?
    ensures var q := Prepare(tear, s, p);
            && q.m.conf == p.m.conf && q.m.iface == p.m.iface
            && (q.flow.On? ==> Recoverable(p, q))
  {
  }

  lemma RollBackSettles(lib: Library, tear: bool, s: Script, before: Progress, p: Progress, d: Download)
    requires Recoverable(before, p)
    ensures Settlement(before, RollBack(lib, tear, s, p).m, d)
    ensures !RollBack(lib, tear, s, p).flow.On?
  {
  }

  lemma RemoveSettles(s: Script, before: Progress, p: Progress)
    requires Recoverable(before, p)
    ensures Recoverable(before, RemoveOld(s, p).(flow := On)) && Load(RemoveOld(s, p).m).pending
  {
  }

  lemma InstallSettles(lib: Library, tear: bool, s: Script, before: Progress, p: Progress, d: Download)
    requires Recoverable(before, p)
    ensures var q := InstallFile(lib, tear, s, d.bytes, p);
            if q.flow.On? then Recoverable(before, q) && q.m.conf == Whole(d.bytes) else Settlement(before, q.m, d)
    requires p.flow.On?
  {
    hide RollBack;
    var q := if Lands(s.install) then p.(m := p.m.(conf := Whole(d.bytes))) else p;
    RollBackSettles(lib, tear, s, before, q.(out := q.out.(error := Some(InstallFailed))), d);
  }

  lemma BringUpSettles(lib: Library, tear: bool, s: Script, before: Progress, p: Progress, d: Download)
    requires Recoverable(before, p) && p.m.conf == Whole(d.bytes) && p.flow.On?
    ensures var q := BringUp(lib, tear, s, p);
            if q.flow.On? then Recoverable(before, q) && q.m.conf == Whole(d.bytes) && q.m.iface == Some(q.m.conf)
            else Settlement(before, q.m, d)
  {
    hide RollBack, Parse;
    var (m, status) := ApplyConf(lib, p.m, s, s.apply);
    var q := p.(m := m);
    RollBackSettles(lib, tear, s, before, q.(out := q.out.(error := Some(ApplyFailed))), d);
  }

  lemma RecordSettles(s: Script, host: string, before: Progress, p: Progress, d: Download)
    requires Recoverable(before, p) && p.m.conf == Whole(d.bytes) && p.m.iface == Some(p.m.conf)
    ensures Settlement(before, Record(s, host, d, p).m, d)
  {
  }

  /** A transaction is all or nothing up to recovery, wherever it crashes or fails. */
  lemma TransactionIsAtomic(lib: Library, tear: bool, s: Script, host: string, d: Download, p: Progress)
    requires p.flow.On? && !p.m.conf.Torn?
    ensures Settlement(p, Transact(lib, tear, s, host, d, p).m, d)
  {
    PrepareIsRecoverable(tear, s, p);
    hide Prepare, RemoveOld, InstallFile, BringUp, Record, Recoverable;
    var p0 := Prepare(tear, s, p);
    if p0.flow.On? {
      RemoveSettles(s, p, p0);
      var p1 := RemoveOld(s, p0);
      if p1.flow.On? {
        assert p1.(flow := On) == p1;
        InstallSettles(lib, tear, s, p, p1, d);
        var p2 := InstallFile(lib, tear, s, d.bytes, p1);
        if p2.flow.On? {
          BringUpSettles(lib, tear, s, p, p2, d);
          var p3 := BringUp(lib, tear, s, p2);
          if p3.flow.On? {
            RecordSettles(s, host, p, p3, d);
          }
        }
      }
    }
  }

  // -------------------------------------------------------------------
  // Convergence
  // -------------------------------------------------------------------

  /** Nothing fails and nothing crashes. */
  predicate IsSmooth(s: Script) {
    s == SMOOTH.(tornParses := s.tornParses)
  }

  /** The node has the published file: on disk, recorded, and not pending. */
  predicate UpToDate(m: Machine, d: Download) {
    !Load(m).pending && m.conf == Whole(d.bytes) && Load(m).digest == Some(d.digest) && m.iface.Some?
  }

  lemma SmoothRecover(tear: bool, s: Script, m: Machine, known: set<string>)
    requires DiskOk(m, known) && IsSmooth(s)
    ensures var p := Recover(tear, s, m);
            p.flow.On? && p.m.iface == m.iface && p.mem == Load(p.m) && p.out.error.None? && !p.out.noOp
  {
  }

  lemma SmoothRestore(lib: Library, s: Script, p: Progress)
    requires p.flow.On? && IsSmooth(s)
    ensures var q := RestoreLocal(lib, s, p);
            && q.flow.On? && q.mem == p.mem && Load(q.m) == Load(p.m) && q.m.conf == p.m.conf
            && q.out.error == p.out.error && q.out.noOp == p.out.noOp
            && (p.m.iface.Some? ==> q.m.iface == p.m.iface)
            && (p.m.iface.None? && q.m.iface.Some? ==> q.m.iface == Some(q.m.conf))
  {
    hide Parse;
  }

  lemma SmoothBegin(lib: Library, tear: bool, s: Script, m: Machine, known: set<string>)
    requires Consistent(m, known) && IsSmooth(s)
    ensures var p := Begin(lib, tear, s, m);
            && p.flow.On? && Settled(tear, p, known) && p.mem == Load(p.m)
            && p.out.error.None? && !p.out.noOp && (m.iface.Some? ==> p.m.iface == m.iface)
            && (m.iface.None? && p.m.iface.Some? ==> p.m.iface == Some(p.m.conf))
  {
    BeginSettles(lib, tear, s, m, known);
    hide Recover, RestoreLocal, Settled, DiskOk, KernelOk;
    SmoothRecover(tear, s, m, known);
    SmoothRestore(lib, s, Recover(tear, s, m));
  }

  lemma SmoothTransaction(lib: Library, tear: bool, s: Script, host: string, d: Download, p: Progress)
    requires IsSmooth(s) && p.flow.On? && Parse(lib, d.bytes).Ok?
    ensures var q := Transact(lib, tear, s, host, d, p);
            && q.flow.Returned? && UpToDate(q.m, d) && q.m.iface == Some(Whole(d.bytes))
            && q.out.applied && q.out.error == p.out.error && q.out.noOp == p.out.noOp
  {
    hide Parse, RollBack;
  }

  /** From any consistent machine, one pass without failures or crashes ends up to date. The kernel then runs the
      published file iff the pass was not a no-op, the interface was down, or it ran that file already. */
  lemma SmoothPassConverges(lib: Library, tear: bool, host: string, input: Input, m: Machine, known: set<string>)
    requires Consistent(m, known) && IsSmooth(input.script) && Accepted(lib, host, input)
    ensures var d, q := Decided(input.rounds, host).value, Pass(lib, tear, host, input, m);
            && q.flow.Returned? && q.out.error.None? && (q.out.noOp || q.out.applied)
            && UpToDate(q.m, d)
            && (q.m.iface == Some(Whole(d.bytes)) <==>
                  !q.out.noOp || m.iface.None? || m.iface == Some(Whole(d.bytes)))
  {
    hide Begin, Transact, Decided, Parse;
    SmoothBegin(lib, tear, input.script, m, known);
    DownloadIsChecked(input.rounds, host);
    var p, d := Begin(lib, tear, input.script, m), Decided(input.rounds, host).value;
    hide Consistent;
    SmoothTransaction(lib, tear, input.script, host, d, p);
  }

  /** No flapping: an up-to-date node answers the same publication with a pass that touches nothing, whatever
      the fate of the operations it does not issue. */
  lemma NextPassIsNoOp(lib: Library, tear: bool, host: string, input: Input, m: Machine)
    requires Accepted(lib, host, input) && !input.force
    requires UpToDate(m, Decided(input.rounds, host).value)
    ensures Pass(lib, tear, host, input, m) == Progress(m, Load(m), NO_OUTCOME.(noOp := true), Returned)
  {
    hide Decided, Parse, Transact;
  }

  // -------------------------------------------------------------------
  // When the kernel can lag behind the disk
  // -------------------------------------------------------------------

  /** Whatever is brought up is recorded. */
  predicate IsRecorded(apply: Event, save: Event) {
    if apply.Go? then Lands(save) else !apply.CrashAfter?
  }

  predicate Records(s: Script) {
    IsRecorded(s.apply, s.finalSave)
  }

  /** An interface that is up runs the configuration file, or the backup that recovery will put in its place. */
  predicate InStep(m: Machine) {
    m.iface.Some? ==> m.iface.value == if Load(m).pending && Load(m).hadBackup then m.backup else m.conf
  }

  /** An interface that is up runs the configuration file, and recovery would put nothing else in its place. */
  predicate IsLevel(m: Machine) {
    && (m.iface.Some? ==> m.iface.value == m.conf)
    && (Load(m).pending && Load(m).hadBackup ==> m.conf == m.backup)
  }

  lemma RecoverInStep(tear: bool, s: Script, m: Machine, known: set<string>)
    requires Consistent(m, known) && Sound(tear, s) && InStep(m)
    ensures var p := Recover(tear, s, m); InStep(p.m) && (p.flow.On? ==> IsLevel(p.m))
  {
  }

  lemma RestoreInStep(lib: Library, tear: bool, s: Script, p: Progress, known: set<string>)
    requires Settled(tear, p, known) && InStep(p.m) && IsLevel(p.m) && p.flow.On?
    ensures var q := RestoreLocal(lib, s, p); InStep(q.m) && IsLevel(q.m)
  {
    hide Parse;
  }

  lemma BeginInStep(lib: Library, tear: bool, s: Script, m: Machine, known: set<string>)
    requires Consistent(m, known) && Sound(tear, s) && InStep(m)
    ensures var p := Begin(lib, tear, s, m); InStep(p.m) && (p.flow.On? ==> IsLevel(p.m) && Settled(tear, p, known))
  {
    hide Recover, RestoreLocal, Settled, Consistent, InStep, IsLevel;
    RecoverSettles(tear, s, m, known);
    RecoverInStep(tear, s, m, known);
    var p := Recover(tear, s, m);
    if p.flow.On? {
      RestoreSettles(lib, tear, s, p, known);
      RestoreInStep(lib, tear, s, p, known);
    }
  }

  /** Up to the marker, a running interface runs what the backup will hold. */
  lemma PrepareInStep(tear: bool, s: Script, p: Progress, known: set<string>)
    requires Settled(tear, p, known) && p.flow.On? && InStep(p.m) && IsLevel(p.m)
    ensures var q := Prepare(tear, s, p);
            InStep(q.m) && (q.flow.On? ==> q.m.state == Some(q.mem) && q.mem.pending && KeepsBackup(q))
  {
  }

  /** Without a backup nothing is up. */
  predicate KeepsBackup(p: Progress) {
    p.mem.hadBackup || p.m.iface.None?
  }

  lemma RemoveInStep(s: Script, p: Progress)
    requires InStep(p.m) && p.m.state == Some(p.mem) && p.mem.pending && KeepsBackup(p) && p.flow.On?
    ensures var q := RemoveOld(s, p);
            InStep(q.m) && (q.flow.On? ==> q.m.iface.None? && q.m.state == Some(q.mem) && q.mem.pending)
  {
  }

  /** A rollback starts with the interface down, and brings up nothing but the backup. */
  lemma RollBackInStep(lib: Library, tear: bool, s: Script, p: Progress)
    requires p.m.iface.None? && p.m.state == Some(p.mem) && p.mem.pending
    ensures var q := RollBack(lib, tear, s, p); InStep(q.m) && !q.flow.On?
  {
    hide Parse;
  }

  lemma InstallInStep(lib: Library, tear: bool, s: Script, bytes: string, p: Progress)
    requires p.m.iface.None? && p.m.state == Some(p.mem) && p.mem.pending && p.flow.On?
    ensures var q := InstallFile(lib, tear, s, bytes, p);
            InStep(q.m) && (q.flow.On? ==> q.m.iface.None? && q.m.state == Some(q.mem) && q.mem.pending)
  {
    hide RollBack;
    var q := if Lands(s.install) then p.(m := p.m.(conf := Whole(bytes))) else p;
    RollBackInStep(lib, tear, s, q.(out := q.out.(error := Some(InstallFailed))));
  }

  lemma BringUpInStep(lib: Library, tear: bool, s: Script, p: Progress)
    requires p.m.iface.None? && p.m.state == Some(p.mem) && p.mem.pending && p.flow.On?
    ensures var q := BringUp(lib, tear, s, p);
            && (q.flow.On? ==> q.m.iface == Some(q.m.conf) && s.apply.Go?)
            && (!q.flow.On? && Records(s) ==> InStep(q.m))
  {
    hide RollBack, Parse;
    var (m, status) := ApplyConf(lib, p.m, s, s.apply);
    var q := p.(m := m);
    if m.iface.None? {
      RollBackInStep(lib, tear, s, q.(out := q.out.(error := Some(ApplyFailed))));
    }
  }

  lemma RecordInStep(s: Script, host: string, d: Download, p: Progress)
    requires p.m.iface == Some(p.m.conf) && Lands(s.finalSave)
    ensures InStep(Record(s, host, d, p).m)
  {
  }

  lemma SwitchInStep(lib: Library, tear: bool, s: Script, host: string, d: Download, p: Progress)
    requires InStep(p.m) && p.m.state == Some(p.mem) && p.mem.pending && KeepsBackup(p) && p.flow.On? && Records(s)
    ensures InStep(Switch(lib, tear, s, host, d, p).m)
  {
    hide RemoveOld, InstallFile, BringUp, Record, InStep;
    RemoveInStep(s, p);
    var p1 := RemoveOld(s, p);
    if p1.flow.On? {
      InstallInStep(lib, tear, s, d.bytes, p1);
      var p2 := InstallFile(lib, tear, s, d.bytes, p1);
      if p2.flow.On? {
        BringUpInStep(lib, tear, s, p2);
        var p3 := BringUp(lib, tear, s, p2);
        if p3.flow.On? {
          RecordInStep(s, host, d, p3);
        }
      }
    }
  }

  /** A sound pass that records what it brings up keeps the kernel in step. */
  lemma PassInStep(lib: Library, tear: bool, host: string, input: Input, m: Machine, known: set<string>)
    requires Consistent(m, known) && Sound(tear, input.script) && Records(input.script) && InStep(m)
    ensures InStep(Pass(lib, tear, host, input, m).m)
  {
    hide Begin, Prepare, Switch, Decided, Parse, InStep, Settled, Consistent, Sound, Records, KeepsBackup, IsLevel;
    BeginInStep(lib, tear, input.script, m, known);
    var p := Begin(lib, tear, input.script, m);
    if p.flow.On? && Accepted(lib, host, input) {
      PrepareInStep(tear, input.script, p, known);
      var p1 := Prepare(tear, input.script, p);
      if p1.flow.On? {
        SwitchInStep(lib, tear, input.script, host, Decided(input.rounds, host).value, p1);
      }
    }
  }

  ghost predicate AllRecord(run: seq<Episode>) {
    forall i :: 0 <= i < |run| ==> Records(run[i].input.script)
  }

  /** Over any sound run in which whatever was brought up was also recorded, the kernel stays in step. */
  lemma {:induction false} RunInStep(lib: Library, tear: bool, host: string, run: seq<Episode>, m: Machine)
    requires IsOriginal(m) && AllSound(tear, run) && AllRecord(run)
    ensures InStep(After(lib, tear, host, run, m)) && EndsConsistent(lib, tear, host, run, m)
    decreases |run|
  {
    hide Pass, Consistent, LearnedBy;
    RunIsConsistent(lib, tear, host, run, m);
    if |run| > 0 {
      var shorter, last := run[..|run| - 1], run[|run| - 1];
      RunInStep(lib, tear, host, shorter, m);
      var before := After(lib, tear, host, shorter, m);
      RebootIsConsistent(before, last.reboot, KnownIn(lib, host, shorter, m));
      PassInStep(lib, tear, host, last.input, Between(before, last.reboot), KnownIn(lib, host, shorter, m));
    }
  }

  /** After the run, a no-op pass reports a publication that the kernel does not run. */
  ghost predicate HidesKernel(lib: Library, tear: bool, host: string, run: seq<Episode>, last: Input, m: Machine) {
    && Accepted(lib, host, last) && IsSmooth(last.script)
    && var q := Pass(lib, tear, host, last, After(lib, tear, host, run, m));
       q.out.noOp && q.m.iface != Some(Whole(Decided(last.rounds, host).value.bytes))
  }

  predicate HasSwitch(s: Script, apply: Event, save: Event) {
    s.apply == apply && s.finalSave == save
  }

  /** With such a bring-up and record in some passes of a sound run, a later no-op can hide a lagging kernel. */
  ghost predicate CanLag(lib: Library, tear: bool, host: string, apply: Event, save: Event) {
    exists run, last, m :: IsOriginal(m) && AllSound(tear, run) && RecordsOr(run, apply, save)
      && HidesKernel(lib, tear, host, run, last, m)
  }

  ghost predicate RecordsOr(run: seq<Episode>, apply: Event, save: Event) {
    forall i :: 0 <= i < |run| ==> Records(run[i].input.script) || HasSwitch(run[i].input.script, apply, save)
  }

  lemma InStepIsSeen(lib: Library, tear: bool, host: string, run: seq<Episode>, last: Input, m: Machine)
    requires IsOriginal(m) && AllSound(tear, run) && AllRecord(run)
    ensures !HidesKernel(lib, tear, host, run, last, m)
  {
    hide Pass, Consistent, LearnedBy, After, Decided, Parse;
    RunInStep(lib, tear, host, run, m);
    if HidesKernel(lib, tear, host, run, last, m) {
      var before, known := After(lib, tear, host, run, m), KnownIn(lib, host, run, m);
      SmoothPassConverges(lib, tear, host, last, before, known);
      PassInStep(lib, tear, host, last, before, known);
    }
  }

  /** A pass cut off, or whose save failed, after the new configuration is up and before it is recorded. */
  lemma CutOffBeforeRecord(lib: Library, tear: bool, host: string, newer: seq<Answers>, s: Script, m: Machine)
    requires Accepted(lib, host, Input(newer, false, SMOOTH)) && !Load(m).pending && m.conf.Whole? && m.iface.Some?
    requires Load(m).digest != Some(Decided(newer, host).value.digest)
    requires s == SMOOTH.(apply := s.apply, finalSave := s.finalSave) && !Records(s)
    ensures var q := Pass(lib, tear, host, Input(newer, false, s), m).m;
            && q.conf == Whole(Decided(newer, host).value.bytes) && q.backup == m.conf && q.iface == Some(q.conf)
            && Load(q) == Load(m).(pending := true, hadBackup := true)
  {
    hide Decided, Parse, RollBack;
  }

  /** Recovery with the interface up, then an old publication. */
  lemma RecoveryToNoOp(lib: Library, tear: bool, host: string, older: seq<Answers>, m: Machine)
    requires Accepted(lib, host, Input(older, false, SMOOTH)) && Load(m).pending && Load(m).hadBackup
    requires m.backup.Whole? && m.iface.Some? && Load(m).digest == Some(Decided(older, host).value.digest)
    ensures var q := Pass(lib, tear, host, Input(older, false, SMOOTH), m);
            && q.out.noOp && q.m.conf == m.backup && q.m.iface == m.iface
            && Load(q.m) == Load(m).(pending := false)
  {
    hide Decided, Parse, Transact;
  }

  /** A no-op says nothing about a kernel that was up: after a pass that brought the new file up and did not
      record it, republishing the old bytes is a no-op over the new kernel configuration. */
  lemma NoOpMayHideNewerKernel(lib: Library, tear: bool, host: string, older: seq<Answers>, newer: seq<Answers>, s: Script,
                               m: Machine)
    requires Accepted(lib, host, Input(older, false, SMOOTH)) && Accepted(lib, host, Input(newer, false, SMOOTH))
    requires Decided(older, host).value.bytes != Decided(newer, host).value.bytes
    requires UpToDate(m, Decided(older, host).value)
    requires s == SMOOTH.(apply := s.apply, finalSave := s.finalSave) && !Records(s)
    ensures var cut := Pass(lib, tear, host, Input(newer, false, s), m).m;
            var q := Pass(lib, tear, host, Input(older, false, SMOOTH), cut);
            && q.out.noOp && UpToDate(q.m, Decided(older, host).value)
            && q.m.iface == Some(Whole(Decided(newer, host).value.bytes)) && q.m.iface != Some(q.m.conf)
  {
    DownloadIsChecked(older, host);
    DownloadIsChecked(newer, host);
    hide Decided, Parse, Pass, Records;
    CutOffBeforeRecord(lib, tear, host, newer, s, m);
    RecoveryToNoOp(lib, tear, host, older, Pass(lib, tear, host, Input(newer, false, s), m).m);
  }

  lemma LagWitness(lib: Library, tear: bool, host: string, older: seq<Answers>, newer: seq<Answers>, apply: Event, save: Event)
    requires Accepted(lib, host, Input(older, false, SMOOTH)) && Accepted(lib, host, Input(newer, false, SMOOTH))
    requires Decided(older, host).value.bytes != Decided(newer, host).value.bytes && !IsRecorded(apply, save)
    ensures CanLag(lib, tear, host, apply, save)
  {
    hide Pass, Decided, Parse, UpToDate, After;
    var s := SMOOTH.(apply := apply, finalSave := save);
    var first, second := Episode(Input(older, false, SMOOTH), false), Episode(Input(newer, false, s), false);
    FirstPublication(lib, tear, host, older);
    var m := After(lib, tear, host, [first], NEW_NODE);
    AfterMore(lib, tear, host, [first], second, NEW_NODE);
    NoOpMayHideNewerKernel(lib, tear, host, older, newer, s, m);
    assert HidesKernel(lib, tear, host, [first] + [second], first.input, NEW_NODE);
  }

  /** The kernel can lag behind what a no-op reports iff some pass is cut off, or fails to save, between bringing
      the new configuration up and recording it. */
  lemma LagConditionIsExact(lib: Library, tear: bool, host: string, older: seq<Answers>, newer: seq<Answers>, apply: Event,
                            save: Event)
    requires Accepted(lib, host, Input(older, false, SMOOTH)) && Accepted(lib, host, Input(newer, false, SMOOTH))
    requires Decided(older, host).value.bytes != Decided(newer, host).value.bytes
    ensures CanLag(lib, tear, host, apply, save) <==> !IsRecorded(apply, save)
  {
    hide HidesKernel, Decided, Parse, AllSound, IsOriginal;
    if IsRecorded(apply, save) {
      forall run, last, m | IsOriginal(m) && AllSound(tear, run) && RecordsOr(run, apply, save)
        ensures !HidesKernel(lib, tear, host, run, last, m)
      {
        InStepIsSeen(lib, tear, host, run, last, m);
      }
    } else {
      LagWitness(lib, tear, host, older, newer, apply, save);
    }
  }
}
