/** One sync pass of the client as a function: disk, kernel interface, and the recovery of an interrupted
    transaction. Every host operation may succeed, fail, or be cut short by a crash. */
module Client {
  import opened Outcomes
  import opened Discovery
  import opened Discover
  import opened Lib
  import opened WgQuick

  /** A file on disk. `Torn` is what a copy leaves behind when it is interrupted: bytes of nobody's choosing. */
  datatype File = Absent | Whole(bytes: string) | Torn

  datatype LocalState = LocalState(
    hostname: string,
    generationId: Option<string>,
    digest: Option<Digest>,
    pending: bool,
    hadBackup: bool)

  const NO_STATE: LocalState := LocalState("", None, None, false, false)

  datatype Call = Checked | Down | Up(file: File)

  /** The configuration file, its backup, the state file, the file the kernel interface runs (if it is up),
      and the interface operations issued so far. */
  datatype Machine = Machine(conf: File, backup: File, state: Option<LocalState>, iface: Option<File>, calls: seq<Call>)

  /** What happens to one host operation. */
  datatype Event = Go | Fail | CrashBefore | CrashMid | CrashAfter

  datatype Status = Done | Failed | Crashed

  /** The fate of each operation of one pass, and whether torn bytes happen to be accepted by the parser. */
  datatype Script = Script(
    recoveryCopy: Event,
    recoverySave: Event,
    restoreApply: Event,
    preflight: Event,
    backupCopy: Event,
    pendingSave: Event,
    teardown: Event,
    install: Event,
    apply: Event,
    finalSave: Event,
    rollbackCopy: Event,
    rollbackApply: Event,
    rollbackSave: Event,
    tornParses: bool)

  const SMOOTH: Script := Script(Go, Go, Go, Go, Go, Go, Go, Go, Go, Go, Go, Go, Go, false)

  datatype ClientError =
    | DiscoveryFailed(cause: SyncError)
    | InvalidDownload(defect: ParseError)
    | PreflightFailed
    | BackupFailed
    | PendingNotSaved
    | TeardownFailed
    | InstallFailed
    | ApplyFailed

  datatype Outcome = Outcome(
    noOp: bool,
    applied: bool,
    recoveredPending: bool,
    restoredLocal: bool,
    rollbackAttempted: bool,
    rollbackSucceeded: bool,
    error: Option<ClientError>)

  const NO_OUTCOME: Outcome := Outcome(false, false, false, false, false, false, None)

  datatype Flow = On | Returned | Dead

  /** Where a pass stands: the machine, the state in memory, the outcome so far, and whether it goes on. */
  datatype Progress = Progress(m: Machine, mem: LocalState, out: Outcome, flow: Flow)

  datatype Input = Input(rounds: seq<Answers>, force: bool, script: Script)

  // -------------------------------------------------------------------
  // Host operations
  // -------------------------------------------------------------------

  /** A missing or unreadable state file reads as the empty state. */
  function Load(m: Machine): LocalState {
    if m.state.Some? then m.state.value else NO_STATE
  }

  /** A plain copy: not atomic if copies can tear. */
  function Copy(tear: bool, source: File, target: File, e: Event): (File, Status) {
    if source.Absent? then (target, Failed)
    else
      match e
      case Go => (source, Done)
      case Fail => (if tear then Torn else target, Failed)
      case CrashBefore => (target, Crashed)
      case CrashMid => (if tear then Torn else target, Crashed)
      case CrashAfter => (source, Crashed)
  }

  /** An atomic write: it takes place or it does not. */
  function Lands(e: Event): bool {
    e.Go? || e.CrashAfter?
  }

  function StatusOf(e: Event): Status {
    match e
    case Go => Done
    case Fail => Failed
    case _ => Crashed
  }

  function Save(m: Machine, st: LocalState, e: Event): (Machine, Status) {
    (if Lands(e) then m.(state := Some(st)) else m, StatusOf(e))
  }

  predicate Parses(lib: Library, f: File, s: Script) {
    match f
    case Absent => false
    case Whole(b) => Parse(lib, b).Ok?
    case Torn => s.tornParses
  }

  /** Configure the interface from the configuration file, all or nothing. */
  function ApplyConf(lib: Library, m: Machine, s: Script, e: Event): (Machine, Status) {
    var called := m.(calls := m.calls + [Up(m.conf)]);
    if !Parses(lib, m.conf, s) then (called, if StatusOf(e).Crashed? then Crashed else Failed)
    else (if Lands(e) then called.(iface := Some(m.conf)) else called, StatusOf(e))
  }

  function TakeDown(m: Machine, e: Event): (Machine, Status) {
    var called := m.(calls := m.calls + [Down]);
    (if Lands(e) then called.(iface := None) else called, StatusOf(e))
  }

  // -------------------------------------------------------------------
  // Recovery and local restore
  // -------------------------------------------------------------------

  function Stop(p: Progress, error: ClientError): Progress {
    p.(out := p.out.(error := Some(error)), flow := Returned)
  }

  function RecoveryCopy(tear: bool, s: Script, m: Machine): (Machine, Status) {
    if Load(m).hadBackup && m.backup != Absent then
      var (conf, status) := Copy(tear, m.backup, m.conf, s.recoveryCopy);
      (m.(conf := conf), status)
    else (m, Done)
  }

  /** An interrupted transaction is undone from the backup; a failing copy goes unnoticed. */
  function Recover(tear: bool, s: Script, m: Machine): Progress {
    var st := Load(m);
    if !st.pending then Progress(m, st, NO_OUTCOME, On)
    else
      var (m1, copied) := RecoveryCopy(tear, s, m);
      var out := NO_OUTCOME.(recoveredPending := true);
      if copied.Crashed? then Progress(m1, st, out, Dead)
      else
        var clear := st.(pending := false);
        var (m2, saved) := Save(m1, clear, s.recoverySave);
        Progress(m2, clear, out, if saved.Crashed? then Dead else On)
  }

  /** A missing interface is brought up from the local file before any network access. */
  function RestoreLocal(lib: Library, s: Script, p: Progress): Progress {
    if p.m.iface.Some? || !Parses(lib, p.m.conf, s) then p
    else
      var (m, applied) := ApplyConf(lib, p.m, s, s.restoreApply);
      Progress(m, p.mem, if applied.Done? then p.out.(restoredLocal := true) else p.out,
               if applied.Crashed? then Dead else On)
  }

  // -------------------------------------------------------------------
  // The transaction
  // -------------------------------------------------------------------

  function CheckRoutes(s: Script, p: Progress): Progress {
    var q := p.(m := p.m.(calls := p.m.calls + [Checked]));
    match StatusOf(s.preflight)
    case Done => q
    case Failed => Stop(q, PreflightFailed)
    case Crashed => q.(flow := Dead)
  }

  /** Copy the current file to the backup, then persist the pending marker. */
  function BackUp(tear: bool, s: Script, p: Progress): Progress {
    if p.m.conf.Absent? then p
    else
      var (backup, status) := Copy(tear, p.m.conf, p.m.backup, s.backupCopy);
      var q := p.(m := p.m.(backup := backup));
      match status
      case Done => q
      case Failed => Stop(q, BackupFailed)
      case Crashed => q.(flow := Dead)
  }

  function MarkPending(s: Script, p: Progress): Progress {
    var mem := p.mem.(pending := true, hadBackup := !p.m.conf.Absent?);
    var (m, status) := Save(p.m, mem, s.pendingSave);
    var q := p.(m := m, mem := mem);
    match status
    case Done => q
    case Failed => Stop(q, PendingNotSaved)
    case Crashed => q.(flow := Dead)
  }

  function RemoveOld(s: Script, p: Progress): Progress {
    if p.m.iface.None? then p
    else
      var (m, status) := TakeDown(p.m, s.teardown);
      var q := p.(m := m);
      match status
      case Done => q
      case Failed => Stop(q, TeardownFailed)
      case Crashed => q.(flow := Dead)
  }

  function SaveRollback(s: Script, p: Progress): Progress {
    var (m, status) := Save(p.m, p.mem, s.rollbackSave);
    p.(m := m, flow := if status.Crashed? then Dead else Returned)
  }

  /** Back to the backup, if there is one; pending is cleared only once the old configuration is up again. */
  function RollBack(lib: Library, tear: bool, s: Script, p: Progress): Progress {
    var q := p.(out := p.out.(rollbackAttempted := true));
    if !p.mem.hadBackup then SaveRollback(s, q)
    else
      var (conf, copied) := Copy(tear, p.m.backup, p.m.conf, s.rollbackCopy);
      var q1 := q.(m := q.m.(conf := conf));
      match copied
      case Crashed => q1.(flow := Dead)
      case Failed => SaveRollback(s, q1)
      case Done =>
        var (m, applied) := ApplyConf(lib, q1.m, s, s.rollbackApply);
        var q2 := q1.(m := m);
        match applied
        case Crashed => q2.(flow := Dead)
        case Failed => SaveRollback(s, q2)
        case Done => SaveRollback(s, q2.(mem := q2.mem.(pending := false), out := q2.out.(rollbackSucceeded := true)))
  }

  function InstallFile(lib: Library, tear: bool, s: Script, bytes: string, p: Progress): Progress {
    var q := if Lands(s.install) then p.(m := p.m.(conf := Whole(bytes))) else p;
    match StatusOf(s.install)
    case Done => q
    case Failed => RollBack(lib, tear, s, q.(out := q.out.(error := Some(InstallFailed))))
    case Crashed => q.(flow := Dead)
  }

  function BringUp(lib: Library, tear: bool, s: Script, p: Progress): Progress {
    var (m, status) := ApplyConf(lib, p.m, s, s.apply);
    var q := p.(m := m);
    match status
    case Done => q
    case Failed => RollBack(lib, tear, s, q.(out := q.out.(error := Some(ApplyFailed))))
    case Crashed => q.(flow := Dead)
  }

  /** Record what is applied; a failing save is reported nowhere. */
  function Record(s: Script, host: string, d: Download, p: Progress): Progress {
    var mem := LocalState(host, Some(d.id), Some(d.digest), false, p.mem.hadBackup);
    var (m, status) := Save(p.m, mem, s.finalSave);
    Progress(m, mem, p.out.(applied := true), if status.Crashed? then Dead else Returned)
  }

  /** Everything up to the first change of the interface. */
  function Prepare(tear: bool, s: Script, p: Progress): Progress {
    var p1 := CheckRoutes(s, p);
    if !p1.flow.On? then p1
    else
      var p2 := BackUp(tear, s, p1);
      if !p2.flow.On? then p2 else MarkPending(s, p2)
  }

  function Switch(lib: Library, tear: bool, s: Script, host: string, d: Download, p: Progress): Progress {
    var p1 := RemoveOld(s, p);
    if !p1.flow.On? then p1
    else
      var p2 := InstallFile(lib, tear, s, d.bytes, p1);
      if !p2.flow.On? then p2
      else
        var p3 := BringUp(lib, tear, s, p2);
        if !p3.flow.On? then p3 else Record(s, host, d, p3)
  }

  function Transact(lib: Library, tear: bool, s: Script, host: string, d: Download, p: Progress): Progress {
    var p1 := Prepare(tear, s, p);
    if !p1.flow.On? then p1 else Switch(lib, tear, s, host, d, p1)
  }

  // -------------------------------------------------------------------
  // The pass
  // -------------------------------------------------------------------

  predicate NothingToDo(force: bool, d: Download, p: Progress) {
    !force && p.mem.digest == Some(d.digest) && p.m.iface.Some?
  }

  function Proceed(lib: Library, tear: bool, host: string, input: Input, p: Progress): Progress {
    match Decided(input.rounds, host)
    case Err(e) => Stop(p, DiscoveryFailed(e))
    case Ok(d) =>
      match Parse(lib, d.bytes)
      case Err(e) => Stop(p, InvalidDownload(e))
      case Ok(_) =>
        if NothingToDo(input.force, d, p) then p.(out := p.out.(noOp := true), flow := Returned)
        else Transact(lib, tear, input.script, host, d, p)
  }

  function Begin(lib: Library, tear: bool, s: Script, m: Machine): Progress {
    var p := Recover(tear, s, m);
    if p.flow.On? then RestoreLocal(lib, s, p) else p
  }

  function Pass(lib: Library, tear: bool, host: string, input: Input, m: Machine): Progress {
    var p := Begin(lib, tear, input.script, m);
    if p.flow.On? then Proceed(lib, tear, host, input, p) else p
  }
}
