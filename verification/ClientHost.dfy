/** The client as it runs: a host with files and a kernel interface, and the sync pass that updates them step
    by step. Proved to do what `Client.Pass` says, at whatever operation it fails or crashes. */
module ClientHost {
  import opened Outcomes
  import opened Discover
  import opened Lib
  import opened WgQuick
  import opened Client
  import WgReader

  class Host {
    const tear: bool
    var conf: File
    var backup: File
    var state: Option<LocalState>
    var iface: Option<File>
    var calls: seq<Call>

    constructor (tear: bool, conf: File)
      ensures Snapshot() == Machine(conf, Absent, None, None, []) && this.tear == tear
    {
      this.tear := tear;
      this.conf, backup, state, iface, calls := conf, Absent, None, None, [];
    }

    ghost function Snapshot(): Machine
      reads this
    {
      Machine(conf, backup, state, iface, calls)
    }

    // ---------------------------------------------------------------
    // Host operations
    // ---------------------------------------------------------------

    method CopyToConf(e: Event) returns (status: Status)
      modifies this`conf
      ensures (conf, status) == Copy(tear, backup, old(conf), e)
    {
      if backup.Absent? {
        return Failed;
      }
      status := StatusOf(e);
      if Lands(e) {
        conf := backup;
      } else if !e.CrashBefore? && tear {
        conf := Torn;
      }
    }

    method CopyToBackup(e: Event) returns (status: Status)
      modifies this`backup
      ensures (backup, status) == Copy(tear, conf, old(backup), e)
    {
      if conf.Absent? {
        return Failed;
      }
      status := StatusOf(e);
      if Lands(e) {
        backup := conf;
      } else if !e.CrashBefore? && tear {
        backup := Torn;
      }
    }

    method SaveState(st: LocalState, e: Event) returns (status: Status)
      modifies this`state
      ensures (Snapshot(), status) == Save(old(Snapshot()), st, e)
    {
      if Lands(e) {
        state := Some(st);
      }
      status := StatusOf(e);
    }

    method ApplyInterface(lib: Library, s: Script, e: Event) returns (status: Status)
      modifies this`iface, this`calls
      ensures (Snapshot(), status) == ApplyConf(lib, old(Snapshot()), s, e)
    {
      calls := calls + [Up(conf)];
      status := StatusOf(e);
      if !Parses(lib, conf, s) {
        return if status.Crashed? then Crashed else Failed;
      }
      if Lands(e) {
        iface := Some(conf);
      }
    }

    method TeardownInterface(e: Event) returns (status: Status)
      modifies this`iface, this`calls
      ensures (Snapshot(), status) == TakeDown(old(Snapshot()), e)
    {
      calls := calls + [Down];
      if Lands(e) {
        iface := None;
      }
      status := StatusOf(e);
    }

    // ---------------------------------------------------------------
    // The pass
    // ---------------------------------------------------------------

    method RecoverPending(s: Script) returns (mem: LocalState, out: Outcome, flow: Flow)
      modifies this`conf, this`state
      ensures Progress(Snapshot(), mem, out, flow) == Recover(tear, s, old(Snapshot()))
    {
      mem := if state.Some? then state.value else NO_STATE;
      out, flow := NO_OUTCOME, On;
      if !mem.pending {
        return;
      }
      out := out.(recoveredPending := true);
      if mem.hadBackup && backup != Absent {
        var copied := CopyToConf(s.recoveryCopy);
        if copied.Crashed? {
          flow := Dead;
          return;
        }
      }
      mem := mem.(pending := false);
      var saved := SaveState(mem, s.recoverySave);
      flow := if saved.Crashed? then Dead else On;
    }

    method RestoreLocalIfValid(lib: Library, s: Script, before: Outcome) returns (out: Outcome, flow: Flow)
      modifies this`iface, this`calls
      ensures forall mem :: Progress(Snapshot(), mem, out, flow)
                         == RestoreLocal(lib, s, Progress(old(Snapshot()), mem, before, On))
    {
      out, flow := before, On;
      if iface.Some? || !Parses(lib, conf, s) {
        return;
      }
      var applied := ApplyInterface(lib, s, s.restoreApply);
      if applied.Crashed? {
        flow := Dead;
      } else if applied.Done? {
        out := out.(restoredLocal := true);
      }
    }

    method AttemptRollback(lib: Library, s: Script, memory: LocalState, before: Outcome)
      returns (mem: LocalState, out: Outcome, flow: Flow)
      modifies this`conf, this`state, this`iface, this`calls
      ensures Progress(Snapshot(), mem, out, flow) == RollBack(lib, tear, s, Progress(old(Snapshot()), memory, before, On))
      ensures !flow.On?
    {
      mem, out := memory, before.(rollbackAttempted := true);
      if mem.hadBackup {
        var copied := CopyToConf(s.rollbackCopy);
        if copied.Crashed? {
          flow := Dead;
          return;
        }
        if copied.Done? {
          var applied := ApplyInterface(lib, s, s.rollbackApply);
          if applied.Crashed? {
            flow := Dead;
            return;
          }
          if applied.Done? {
            mem, out := mem.(pending := false), out.(rollbackSucceeded := true);
          }
        }
      }
      var saved := SaveState(mem, s.rollbackSave);
      flow := if saved.Crashed? then Dead else Returned;
    }

    /** Preflight, backup, pending marker: everything before the interface is touched. */
    method PrepareCandidate(s: Script, memory: LocalState, before: Outcome)
      returns (mem: LocalState, out: Outcome, flow: Flow)
      modifies this`backup, this`state, this`calls
      ensures Progress(Snapshot(), mem, out, flow) == Prepare(tear, s, Progress(old(Snapshot()), memory, before, On))
    {
      mem, out, flow := memory, before, On;
      calls := calls + [Checked];
      var checked := StatusOf(s.preflight);
      if !checked.Done? {
        out := if checked.Failed? then out.(error := Some(PreflightFailed)) else out;
        flow := if checked.Failed? then Returned else Dead;
        return;
      }
      var hadBackup := conf != Absent;
      if hadBackup {
        var copied := CopyToBackup(s.backupCopy);
        if !copied.Done? {
          out := if copied.Failed? then out.(error := Some(BackupFailed)) else out;
          flow := if copied.Failed? then Returned else Dead;
          return;
        }
      }
      mem := mem.(pending := true, hadBackup := hadBackup);
      var saved := SaveState(mem, s.pendingSave);
      if !saved.Done? {
        out := if saved.Failed? then out.(error := Some(PendingNotSaved)) else out;
        flow := if saved.Failed? then Returned else Dead;
      }
    }

    /** Teardown, install, bring up, record; rollback when the installation or the new interface fails. */
    method SwitchOver(lib: Library, s: Script, host: string, d: Download, memory: LocalState, before: Outcome)
      returns (mem: LocalState, out: Outcome, flow: Flow)
      modifies this`conf, this`state, this`iface, this`calls
      ensures Progress(Snapshot(), mem, out, flow)
           == Switch(lib, tear, s, host, d, Progress(old(Snapshot()), memory, before, On))
    {
      hide Copy, RollBack, SaveRollback;
      mem, out, flow := memory, before, On;
      if iface.Some? {
        var down := TeardownInterface(s.teardown);
        if !down.Done? {
          out := if down.Failed? then out.(error := Some(TeardownFailed)) else out;
          flow := if down.Failed? then Returned else Dead;
          return;
        }
      }
      if Lands(s.install) {
        conf := Whole(d.bytes);
      }
      var installed := StatusOf(s.install);
      if installed.Crashed? {
        flow := Dead;
        return;
      }
      if installed.Failed? {
        mem, out, flow := AttemptRollback(lib, s, mem, out.(error := Some(InstallFailed)));
        return;
      }
      var applied := ApplyInterface(lib, s, s.apply);
      if applied.Crashed? {
        flow := Dead;
        return;
      }
      if applied.Failed? {
        mem, out, flow := AttemptRollback(lib, s, mem, out.(error := Some(ApplyFailed)));
        return;
      }
      mem := LocalState(host, Some(d.id), Some(d.digest), false, mem.hadBackup);
      var saved := SaveState(mem, s.finalSave);
      out := out.(applied := true);
      flow := if saved.Crashed? then Dead else Returned;
    }

    /** One sync pass. After a crash only what is on disk and in the kernel counts. */
    method RunOnce(lib: Library, host: string, input: Input) returns (mem: LocalState, out: Outcome, flow: Flow)
      requires |input.rounds| == MAX_DISCOVERY_ROUNDS
      modifies this
      ensures Progress(Snapshot(), mem, out, flow) == Pass(lib, tear, host, input, old(Snapshot()))
    {
      hide Recover, RestoreLocal, Prepare, Switch, Decided, Parse;
      mem, out, flow := RecoverPending(input.script);
      if !flow.On? {
        return;
      }
      out, flow := RestoreLocalIfValid(lib, input.script, out);
      if !flow.On? {
        return;
      }
      var found := DiscoverAndDownload(input.rounds, host);
      if found.Err? {
        out, flow := out.(error := Some(DiscoveryFailed(found.error))), Returned;
        return;
      }
      var d := found.value;
      var parsed := WgReader.ParseWgQuick(lib, d.bytes);
      if parsed.Err? {
        out, flow := out.(error := Some(InvalidDownload(parsed.error))), Returned;
        return;
      }
      if !input.force && mem.digest == Some(d.digest) && iface.Some? {
        out, flow := out.(noOp := true), Returned;
        return;
      }
      mem, out, flow := PrepareCandidate(input.script, mem, out);
      if !flow.On? {
        return;
      }
      mem, out, flow := SwitchOver(lib, input.script, host, d, mem, out);
    }
  }
}
