/** What a pass of the client achieves: the local file comes up without the network, an interrupted update is
    undone, a failed one is rolled back, and every failing operation is reported over an intact node. */
module ClientProgress {
  import opened Outcomes
  import opened Discovery
  import opened Discover
  import opened Lib
  import opened WgQuick
  import opened Client
  import opened ClientTheorems

  // -------------------------------------------------------------------
  // Without the network
  // -------------------------------------------------------------------

  /** With the interface down, a pass whose discovery fails has brought up the file on disk, if it parses, exactly
      when that operation took effect; it changes nothing else. */
  lemma LocalFileComesUp(lib: Library, tear: bool, host: string, input: Input, m: Machine)
    requires !Load(m).pending && m.iface.None? && !m.conf.Torn? && Decided(input.rounds, host).Err?
    ensures var q, e := Pass(lib, tear, host, input, m), input.script.restoreApply;
            var parses := m.conf.Whole? && Parse(lib, m.conf.bytes).Ok?;
            && q.m == m.(iface := if parses && (e.Go? || e.CrashAfter?) then Some(m.conf) else None,
                         calls := m.calls + if parses then [Up(m.conf)] else [])
            && (q.out.restoredLocal <==> parses && e.Go?)
            && (q.flow.Dead? <==> parses && (e.CrashBefore? || e.CrashMid? || e.CrashAfter?))
            && (!q.flow.Dead? ==> q.flow.Returned?
                                  && q.out.error == Some(DiscoveryFailed(Decided(input.rounds, host).error)))
  {
    hide Parse, Decided;
  }

  /** With the interface up, it touches nothing. */
  lemma OfflineTouchesNothing(lib: Library, tear: bool, host: string, input: Input, m: Machine)
    requires !Load(m).pending && m.iface.Some? && Decided(input.rounds, host).Err?
    ensures Pass(lib, tear, host, input, m)
         == Progress(m, Load(m), NO_OUTCOME.(error := Some(DiscoveryFailed(Decided(input.rounds, host).error))), Returned)
  {
    hide Parse, Decided;
  }

  /** An interrupted update is undone, also without the network: the backup is the file again, the marker is
      cleared, and an interface that was down runs the backup. */
  lemma InterruptedUpdateIsUndone(lib: Library, tear: bool, host: string, input: Input, m: Machine)
    requires Load(m).pending && Load(m).hadBackup && m.backup.Whole? && Parse(lib, m.backup.bytes).Ok?
    requires IsSmooth(input.script) && Decided(input.rounds, host).Err?
    ensures var q := Pass(lib, tear, host, input, m);
            && q.m.conf == m.backup && q.m.backup == m.backup && q.m.state == Some(Load(m).(pending := false))
            && q.m.iface == (if m.iface.None? then Some(m.backup) else m.iface)
            && q.out.recoveredPending && (q.out.restoredLocal <==> m.iface.None?)
  {
    hide Parse, Decided;
  }

  /** A first installation that was interrupted leaves its file in place, and that file is tried again. */
  lemma FirstInstallationIsRetried(lib: Library, tear: bool, host: string, input: Input, m: Machine)
    requires Load(m).pending && !Load(m).hadBackup && m.conf.Whole? && Parse(lib, m.conf.bytes).Ok? && m.iface.None?
    requires IsSmooth(input.script) && Decided(input.rounds, host).Err?
    ensures var q := Pass(lib, tear, host, input, m);
            && q.m.conf == m.conf && q.m.state == Some(Load(m).(pending := false)) && q.m.iface == Some(m.conf)
            && q.out.recoveredPending && q.out.restoredLocal
  {
    hide Parse, Decided;
  }

  // -------------------------------------------------------------------
  // When a pass installs
  // -------------------------------------------------------------------

  /** From any consistent machine a pass without failures is a no-op iff it is not forced and the published digest is
      the recorded one; otherwise the kernel runs the download. */
  lemma NoOpIsExact(lib: Library, tear: bool, host: string, input: Input, m: Machine, known: set<string>)
    requires Consistent(m, known) && IsSmooth(input.script) && Accepted(lib, host, input)
    ensures var d, q := Decided(input.rounds, host).value, Pass(lib, tear, host, input, m);
            && (q.out.noOp <==> !input.force && Load(m).digest == Some(d.digest))
            && (!q.out.noOp ==> q.out.applied && UpToDate(q.m, d) && q.m.iface == Some(Whole(d.bytes)))
  {
    hide Begin, Transact, Decided, Parse;
    var s, d := input.script, Decided(input.rounds, host).value;
    DownloadIsChecked(input.rounds, host);
    SmoothPassConverges(lib, tear, host, input, m, known);
    SmoothBegin(lib, tear, s, m, known);
    var p := Begin(lib, tear, s, m);
    SmoothDigest(lib, tear, s, m, known);
    SmoothTransaction(lib, tear, s, host, d, p);
    if Load(m).digest == Some(d.digest) {
      RecordedFileIsUp(lib, tear, s, m, known, d.bytes);
    }
  }

  lemma SmoothDigest(lib: Library, tear: bool, s: Script, m: Machine, known: set<string>)
    requires Consistent(m, known) && IsSmooth(s)
    ensures Begin(lib, tear, s, m).mem.digest == Load(m).digest
  {
    hide Parse;
  }

  /** A recorded file that parses is up when discovery begins. */
  lemma RecordedFileIsUp(lib: Library, tear: bool, s: Script, m: Machine, known: set<string>, bytes: string)
    requires Consistent(m, known) && IsSmooth(s) && Load(m).digest == Some(Digest(bytes)) && Parse(lib, bytes).Ok?
    ensures Begin(lib, tear, s, m).m.iface.Some?
  {
    hide Parse;
  }

  // -------------------------------------------------------------------
  // Failing operations
  // -------------------------------------------------------------------

  /** A node whose file is up. */
  predicate IsReady(lib: Library, m: Machine) {
    !Load(m).pending && m.conf.Whole? && Parse(lib, m.conf.bytes).Ok? && m.iface == Some(m.conf)
  }

  /** The operations of a transaction fail or go; nothing crashes, and the operations of a rollback go. */
  predicate FailsOrGoes(s: Script) {
    && s == SMOOTH.(preflight := s.preflight, backupCopy := s.backupCopy, pendingSave := s.pendingSave,
                    teardown := s.teardown, install := s.install, apply := s.apply)
    && (s.preflight.Go? || s.preflight.Fail?) && (s.backupCopy.Go? || s.backupCopy.Fail?)
    && (s.pendingSave.Go? || s.pendingSave.Fail?) && (s.teardown.Go? || s.teardown.Fail?)
    && (s.install.Go? || s.install.Fail?) && (s.apply.Go? || s.apply.Fail?)
  }

  /** The first operation of the transaction that fails, in the order in which they are issued. */
  function FirstFailure(s: Script): Option<ClientError> {
    if s.preflight.Fail? then Some(PreflightFailed)
    else if s.backupCopy.Fail? then Some(BackupFailed)
    else if s.pendingSave.Fail? then Some(PendingNotSaved)
    else if s.teardown.Fail? then Some(TeardownFailed)
    else if s.install.Fail? then Some(InstallFailed)
    else if s.apply.Fail? then Some(ApplyFailed)
    else None
  }

  /** The interface operations up to that failure, in order: check, down, the new file up, the old one up again. */
  function CallsUntil(e: Option<ClientError>, before: File, after: File): (calls: seq<Call>)
    ensures |calls| > 0 && calls[0] == Checked
  {
    match e
    case Some(TeardownFailed) => [Checked, Down]
    case Some(InstallFailed) => [Checked, Down, Up(before)]
    case Some(ApplyFailed) => [Checked, Down, Up(after), Up(before)]
    case Some(_) => [Checked]
    case None => [Checked, Down, Up(after)]
  }

  predicate WantsInstall(input: Input, m: Machine, d: Download) {
    input.force || Load(m).digest != Some(d.digest)
  }

  predicate IsUndone(e: Option<ClientError>) {
    e == Some(InstallFailed) || e == Some(ApplyFailed)
  }

  /** Whatever operation of a transaction fails, it is the error reported, and the node runs its old file, on disk and
      in the kernel; a failed installation or bring-up is rolled back, and only a failed teardown leaves the marker.
      Without a failure it runs the new file. */
  lemma FailureKeepsOldFile(lib: Library, tear: bool, host: string, input: Input, m: Machine)
    requires IsReady(lib, m) && Accepted(lib, host, input) && FailsOrGoes(input.script)
    requires WantsInstall(input, m, Decided(input.rounds, host).value)
    ensures var d, q := Decided(input.rounds, host).value, Pass(lib, tear, host, input, m);
            var e := FirstFailure(input.script);
            && q.flow.Returned? && q.out.error == e && (q.out.applied <==> e.None?) && !q.out.noOp
            && q.m.conf == (if e.None? then Whole(d.bytes) else m.conf) && q.m.iface == Some(q.m.conf)
            && Load(q.m).digest == (if e.None? then Some(d.digest) else Load(m).digest)
            && (e.None? ==> q.m.state == Some(LocalState(host, Some(d.id), Some(d.digest), false, true)))
            && q.m.calls == m.calls + CallsUntil(e, m.conf, Whole(d.bytes))
            && (Load(q.m).pending <==> e == Some(TeardownFailed))
            && (q.out.rollbackAttempted <==> IsUndone(e)) && (q.out.rollbackSucceeded <==> IsUndone(e))
  {
    hide Decided, Parse, Prepare, Switch;
    var s, d := input.script, Decided(input.rounds, host).value;
    var p := Begin(lib, tear, s, m);
    assert p == Progress(m, Load(m), NO_OUTCOME, On);
    PreparationFails(lib, tear, s, p);
    var p1 := Prepare(tear, s, p);
    if p1.flow.On? {
      SwitchFails(lib, tear, s, host, d, p1);
    }
  }

  lemma PreparationFails(lib: Library, tear: bool, s: Script, p: Progress)
    requires FailsOrGoes(s) && p == Progress(p.m, Load(p.m), NO_OUTCOME, On) && !p.mem.pending && p.m.conf.Whole?
    ensures var q, e := Prepare(tear, s, p), FirstFailure(s);
            && q.m.conf == p.m.conf && q.m.iface == p.m.iface && q.m.calls == p.m.calls + [Checked]
            && (q.flow.On? <==> s.preflight.Go? && s.backupCopy.Go? && s.pendingSave.Go?)
            && (q.flow.On? ==> q.m.backup == p.m.conf && q.m.state == Some(q.mem) && q.out == NO_OUTCOME
                               && q.mem == p.mem.(pending := true, hadBackup := true))
            && (!q.flow.On? ==> q.flow.Returned? && q.out == NO_OUTCOME.(error := e) && q.m.state == p.m.state)
  {
  }

  /** A rollback whose operations go puts the backup back, in the file and in the kernel, and clears the marker. */
  lemma RollBackRestores(lib: Library, tear: bool, s: Script, p: Progress)
    requires s.rollbackCopy.Go? && s.rollbackApply.Go? && s.rollbackSave.Go?
    requires p.mem.hadBackup && p.m.backup.Whole? && Parse(lib, p.m.backup.bytes).Ok?
    ensures var mem, back := p.mem.(pending := false), p.m.backup;
            RollBack(lib, tear, s, p)
            == Progress(Machine(back, back, Some(mem), Some(back), p.m.calls + [Up(back)]), mem,
                        p.out.(rollbackAttempted := true, rollbackSucceeded := true), Returned)
  {
    hide Parse;
  }

  lemma SwitchFails(lib: Library, tear: bool, s: Script, host: string, d: Download, p: Progress)
    requires FailsOrGoes(s) && p.flow.On? && s.preflight.Go? && s.backupCopy.Go? && s.pendingSave.Go?
    requires p.out == NO_OUTCOME && p.mem.pending && p.mem.hadBackup && p.m.state == Some(p.mem)
    requires p.m.conf.Whole? && p.m.backup == p.m.conf && p.m.iface == Some(p.m.conf)
    requires Parse(lib, p.m.conf.bytes).Ok? && Parse(lib, d.bytes).Ok?
    ensures var q, e := Switch(lib, tear, s, host, d, p), FirstFailure(s);
            && q.flow.Returned? && q.out.error == e && (q.out.applied <==> e.None?) && !q.out.noOp
            && q.m.conf == (if e.None? then Whole(d.bytes) else p.m.conf) && q.m.iface == Some(q.m.conf)
            && Load(q.m).digest == (if e.None? then Some(d.digest) else p.mem.digest)
            && (e.None? ==> q.m.state == Some(LocalState(host, Some(d.id), Some(d.digest), false, true)))
            && q.m.calls == p.m.calls + CallsUntil(e, p.m.conf, Whole(d.bytes))[1..]
            && (Load(q.m).pending <==> e == Some(TeardownFailed))
            && (q.out.rollbackAttempted <==> IsUndone(e)) && (q.out.rollbackSucceeded <==> IsUndone(e))
  {
    hide Parse, RollBack;
    var down := RemoveOld(s, p);
    if s.install.Fail? {
      RollBackRestores(lib, tear, s, down.(out := down.out.(error := Some(InstallFailed))));
    } else {
      var placed := down.(m := down.m.(conf := Whole(d.bytes)));
      var (m, _) := ApplyConf(lib, placed.m, s, s.apply);
      RollBackRestores(lib, tear, s, placed.(m := m, out := down.out.(error := Some(ApplyFailed))));
    }
  }

  // -------------------------------------------------------------------
  // When a rollback has succeeded
  // -------------------------------------------------------------------

  /** Whatever else fails or crashes: a pass that returns reports a successful rollback iff an installation or a
      bring-up failed and the old file is up again, on disk and in the kernel. */
  lemma RollbackSuccessIsExact(lib: Library, tear: bool, host: string, input: Input, m: Machine)
    requires IsReady(lib, m)
    ensures var q := Pass(lib, tear, host, input, m);
            q.flow.Returned? ==>
              (q.out.rollbackSucceeded <==> IsUndone(q.out.error) && q.m.conf == m.conf && q.m.iface == Some(m.conf))
  {
    hide Decided, Parse, Prepare, Switch;
    var s := input.script;
    var p := Begin(lib, tear, s, m);
    assert p == Progress(m, Load(m), NO_OUTCOME, On);
    if Accepted(lib, host, input) {
      PreparedBackup(tear, s, p);
      var p1 := Prepare(tear, s, p);
      if p1.flow.On? {
        SwitchSucceeds(lib, tear, s, host, Decided(input.rounds, host).value, p1);
      }
    }
  }

  lemma PreparedBackup(tear: bool, s: Script, p: Progress)
    requires p.flow.On? && p.out == NO_OUTCOME && p.m.conf.Whole?
    ensures var q := Prepare(tear, s, p);
            && q.m.conf == p.m.conf && q.m.iface == p.m.iface && !q.out.rollbackSucceeded && !IsUndone(q.out.error)
            && (q.flow.On? ==> q.m.backup == p.m.conf && q.mem.hadBackup && q.out == NO_OUTCOME)
  {
  }

  lemma RollBackReports(lib: Library, tear: bool, s: Script, p: Progress)
    requires p.mem.hadBackup && p.m.backup.Whole? && p.m.iface.None? && !p.out.rollbackSucceeded
    ensures var q := RollBack(lib, tear, s, p);
            && !q.flow.On? && q.out.error == p.out.error
            && (q.flow.Returned? ==>
                  (q.out.rollbackSucceeded <==> q.m.conf == p.m.backup && q.m.iface == Some(p.m.backup)))
  {
    hide Parse;
  }

  lemma SwitchSucceeds(lib: Library, tear: bool, s: Script, host: string, d: Download, p: Progress)
    requires p.flow.On? && p.out == NO_OUTCOME && p.mem.hadBackup && p.m.conf.Whole? && p.m.backup == p.m.conf
    ensures var q := Switch(lib, tear, s, host, d, p);
            q.flow.Returned? ==>
              (q.out.rollbackSucceeded <==> IsUndone(q.out.error) && q.m.conf == p.m.conf && q.m.iface == Some(p.m.conf))
  {
    hide Parse, RollBack;
    var p1 := RemoveOld(s, p);
    if p1.flow.On? {
      var placed := if Lands(s.install) then p1.(m := p1.m.(conf := Whole(d.bytes))) else p1;
      RollBackReports(lib, tear, s, placed.(out := p1.out.(error := Some(InstallFailed))));
      var (m, status) := ApplyConf(lib, placed.m, s, s.apply);
      if m.iface.None? {
        RollBackReports(lib, tear, s, placed.(m := m, out := p1.out.(error := Some(ApplyFailed))));
      }
    }
  }

  /** A first installation that fails leaves nothing running and stays marked: there is nothing to roll back to. */
  lemma FirstInstallationFails(lib: Library, tear: bool, host: string, input: Input, m: Machine)
    requires !Load(m).pending && m.conf.Absent? && m.iface.None? && Accepted(lib, host, input)
    requires input.script == SMOOTH.(apply := Fail)
    ensures var d, q := Decided(input.rounds, host).value, Pass(lib, tear, host, input, m);
            && q.flow.Returned? && q.out.error == Some(ApplyFailed)
            && q.out.rollbackAttempted && !q.out.rollbackSucceeded && !q.out.applied
            && q.m.conf == Whole(d.bytes) && q.m.iface.None? && Load(q.m).pending && !Load(q.m).hadBackup
            && Load(q.m).digest == Load(m).digest
  {
    hide Decided, Parse;
  }
}
