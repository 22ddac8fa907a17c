/** The publication protocol as a state machine: one bucket, any number of `apply` jobs, a network
    that may delay, repeat or lose requests and replies, and jobs that may die at any point.

    Requests that were ever sent stay in `sent` and may reach the bucket any number of times, also
    after the job that sent them is gone. Replies are logged when a request lands; a job may read any
    logged reply to its own request, or none. */
module Protocol {
  import opened Outcomes
  import opened Discovery
  import Base32
  import Hostname

  type JobId = nat
  type Etag = nat
  type Time = nat

  const MAX_POINTER_RETRIES: nat := 5


  /** A node file. `job` is the one whose request created it. */
  datatype Object = Object(body: string, created: Time, job: JobId)

  datatype Stored = Stored(doc: CurrentJson, etag: Etag)

  datatype Request =
    | InitPointer(job: JobId, doc: CurrentJson)
    | PutPointer(job: JobId, doc: CurrentJson, etag: Etag)
    | PutNode(job: JobId, key: Key, body: string)
    | DeleteNode(job: JobId, key: Key)

  datatype Reply = Written(etag: Etag) | PreconditionFailed | Deleted

  datatype Logged = Logged(request: Request, reply: Reply)

  datatype Plan =
    | Refresh(intended: CurrentJson)
    | Publish(intended: CurrentJson, id: string, files: map<string, string>)

  datatype Phase =
    | Fetching
    | Probing
    | Initializing(doc: CurrentJson)
    | Planning
    | Uploading
    | Committing(attempt: nat)
    | Committed
    | Listed(entries: map<Key, Time>)
    | Cleaning(doomed: set<Key>)
    | Finished
    | Dead

  /** `landed` is the position in the history at which this job's pointer was installed. */
  datatype Job = Job(
    phase: Phase,
    grace: Time,
    baseline: Option<CurrentJson>,
    etag: Etag,
    start: Time,
    plan: Option<Plan>,
    confirmed: set<string>,
    landed: Option<nat>)

  datatype Install = Install(doc: CurrentJson, time: Time, job: JobId)

  /** Overlapping: any number of jobs at once, each cleaner reading its clock less than one grace period and
      `slack` after its own pointer was installed. Serialized: a job starts only when no other is running, with
      any grace. */
  datatype Regime = Overlapping(slack: Time) | Serialized

  /** The regimes in which closure holds: overlapping cleaners are less than one grace period late. */
  predicate IsTimely(r: Regime) {
    r.Overlapping? ==> r.slack == 0
  }

  datatype State = State(
    regime: Regime,
    clock: Time,
    pointer: Option<Stored>,
    nodes: map<Key, Object>,
    nextEtag: Etag,
    used: set<string>,
    jobs: map<JobId, Job>,
    sent: set<Request>,
    replies: set<Logged>,
    history: seq<Install>)

  datatype Step =
    | Tick
    | Rewrite
    | Start(job: JobId, grace: Time)
    | Fetch(job: JobId)
    | Probe(job: JobId, revision: string)
    | AdoptOwn(job: JobId, etag: Etag)
    | AdoptOther(job: JobId)
    | MakePlan(job: JobId, files: map<string, string>, id: string, revision: string)
    | SendPut(job: JobId, host: string)
    | Confirm(job: JobId, host: string, reply: Reply)
    | SendCommit(job: JobId)
    | Acknowledge(job: JobId, etag: Etag)
    | Reconcile(job: JobId)
    | ListNodes(job: JobId)
    | Classify(job: JobId)
    | SendDelete(job: JobId, key: Key)
    | Finish(job: JobId)
    | Die(job: JobId)
    | Land(request: Request)

  predicate Ended(p: Phase) {
    p.Finished? || p.Dead?
  }

  function Digests(files: map<string, string>): (d: map<string, Digest>)
    ensures d.Keys == files.Keys && forall h :: h in files ==> d[h] == Digest(files[h])
  {
    map h | h in files :: Digest(files[h])
  }

  predicate DesiredFiles(files: map<string, string>) {
    && 0 < |files| <= MAX_NODES && forall h | h in files :: Hostname.IsValid(h)
  }

  /** The publication is already what the desired files say. */
  predicate Unchanged(baseline: CurrentJson, files: map<string, string>) {
    baseline.current.Some? && baseline.current.value.nodes == Digests(files)
  }

  function PlanFor(baseline: CurrentJson, files: map<string, string>, id: string, revision: string): Plan {
    if Unchanged(baseline, files) then
      Refresh(CurrentJson(SCHEMA_VERSION, revision, baseline.current, baseline.previous))
    else
      Publish(CurrentJson(SCHEMA_VERSION, revision, Some(GenerationEntry(id, Digests(files))), baseline.current),
              id, files)
  }

  function Age(now: Time, created: Time): Time {
    if now >= created then now - created else 0
  }

  /** The listed keys that cleanup deletes. */
  function DoomedKeys(entries: map<Key, Time>, intended: CurrentJson, now: Time, grace: Time): set<Key> {
    set k | k in entries && k.id !in Retained(intended) && Age(now, entries[k]) >= grace
  }

  // -------------------------------------------------------------------
  // The steps of a job
  // -------------------------------------------------------------------

  function FileRequest(j: JobId, plan: Plan, h: string): Request
    requires plan.Publish? && h in plan.files
  {
    PutNode(j, Key(h, plan.id), plan.files[h])
  }

  function WithPhase(s: State, j: JobId, p: Phase): State
    requires j in s.jobs
  {
    s.(jobs := s.jobs[j := s.jobs[j].(phase := p)])
  }

  /** The job has read pointer `doc` under `etag`; from now on it may plan and upload. */
  function WithBaseline(s: State, j: JobId, doc: CurrentJson, etag: Etag): State
    requires j in s.jobs
  {
    if IsValid(doc) then
      s.(jobs := s.jobs[j := s.jobs[j].(phase := Planning, baseline := Some(doc), etag := etag, start := s.clock)])
    else WithPhase(s, j, Dead)
  }

  /** `GET current.json`: adopt what is there, or go on to look for orphaned generations. */
  predicate CanFetch(s: State, j: JobId) {
    j in s.jobs && s.jobs[j].phase.Fetching?
  }

  function AfterFetch(s: State, j: JobId): State
    requires CanFetch(s, j)
  {
    if s.pointer.Some? then WithBaseline(s, j, s.pointer.value.doc, s.pointer.value.etag)
    else WithPhase(s, j, Probing)
  }

  /** No pointer: refuse a bucket that has node files, otherwise try to create an empty pointer. */
  predicate CanProbe(s: State, j: JobId, rev: string) {
    j in s.jobs && s.jobs[j].phase.Probing? && rev !in s.used && Base32.IsCanonical(rev)
  }

  function AfterProbe(s: State, j: JobId, rev: string): State
    requires CanProbe(s, j, rev)
  {
    if |s.nodes| > 0 then WithPhase(s, j, Dead)
    else WithPhase(s, j, Initializing(Empty(rev))).(
           used := s.used + {rev}, sent := s.sent + {InitPointer(j, Empty(rev))})
  }

  predicate CanAdopt(s: State, j: JobId, reply: Reply) {
    && j in s.jobs && s.jobs[j].phase.Initializing?
    && Logged(InitPointer(j, s.jobs[j].phase.doc), reply) in s.replies
  }

  /** The empty pointer was written: it is the baseline. */
  function AfterAdoptOwn(s: State, j: JobId, etag: Etag): State
    requires CanAdopt(s, j, Written(etag))
  {
    WithBaseline(s, j, s.jobs[j].phase.doc, etag)
  }

  /** Someone else created the pointer: read theirs. */
  function AfterAdoptOther(s: State, j: JobId): State
    requires CanAdopt(s, j, PreconditionFailed)
  {
    if s.pointer.Some? then WithBaseline(s, j, s.pointer.value.doc, s.pointer.value.etag)
    else WithPhase(s, j, Dead)
  }

  predicate CanPlan(s: State, j: JobId, files: map<string, string>, id: string, rev: string) {
    && j in s.jobs && s.jobs[j].phase.Planning? && s.jobs[j].baseline.Some? && DesiredFiles(files)
    && id != rev && id !in s.used && rev !in s.used && Base32.IsCanonical(id) && Base32.IsCanonical(rev)
  }

  function AfterPlan(s: State, j: JobId, files: map<string, string>, id: string, rev: string): State
    requires CanPlan(s, j, files, id, rev)
  {
    s.(jobs := s.jobs[j := s.jobs[j].(phase := Uploading,
                                      plan := Some(PlanFor(s.jobs[j].baseline.value, files, id, rev)))],
       used := s.used + {id, rev})
  }

  predicate CanUpload(s: State, j: JobId, h: string) {
    && j in s.jobs && s.jobs[j].phase.Uploading?
    && s.jobs[j].plan.Some? && s.jobs[j].plan.value.Publish? && h in s.jobs[j].plan.value.files
  }

  function AfterSendPut(s: State, j: JobId, h: string): State
    requires CanUpload(s, j, h)
  {
    s.(sent := s.sent + {FileRequest(j, s.jobs[j].plan.value, h)})
  }

  predicate CanConfirm(s: State, j: JobId, h: string, reply: Reply) {
    && CanUpload(s, j, h)
    && (reply.Written? || reply.PreconditionFailed?)
    && Logged(FileRequest(j, s.jobs[j].plan.value, h), reply) in s.replies
  }

  /** A lost race for a node file is fine if the file there has the intended bytes. */
  function AfterConfirm(s: State, j: JobId, h: string, reply: Reply): State
    requires CanConfirm(s, j, h, reply)
  {
    var plan := s.jobs[j].plan.value;
    var k := Key(h, plan.id);
    if reply.Written? || (k in s.nodes && s.nodes[k].body == plan.files[h]) then
      s.(jobs := s.jobs[j := s.jobs[j].(confirmed := s.jobs[j].confirmed + {h})])
    else WithPhase(s, j, Dead)
  }

  /** The pointer is written only after every file of the generation is confirmed. */
  predicate CanSendCommit(s: State, j: JobId) {
    && j in s.jobs && s.jobs[j].phase.Uploading? && s.jobs[j].plan.Some?
    && (s.jobs[j].plan.value.Publish? ==> s.jobs[j].confirmed == s.jobs[j].plan.value.files.Keys)
  }

  function CommitRequest(s: State, j: JobId, etag: Etag): Request
    requires j in s.jobs && s.jobs[j].plan.Some?
  {
    PutPointer(j, s.jobs[j].plan.value.intended, etag)
  }

  function AfterSendCommit(s: State, j: JobId): State
    requires CanSendCommit(s, j)
  {
    WithPhase(s, j, Committing(1)).(sent := s.sent + {CommitRequest(s, j, s.jobs[j].etag)})
  }

  predicate CanSettle(s: State, j: JobId, reply: Reply) {
    && j in s.jobs && s.jobs[j].phase.Committing? && s.jobs[j].plan.Some? && s.jobs[j].baseline.Some?
    && Logged(CommitRequest(s, j, s.jobs[j].etag), reply) in s.replies
  }

  /** The precondition failed: success if the intended pointer is there (a lost response), another try
      if the pointer still has the baseline's revision, otherwise a conflict. */
  function AfterReconcile(s: State, j: JobId): State
    requires CanSettle(s, j, PreconditionFailed)
  {
    var job := s.jobs[j];
    if s.pointer.None? then WithPhase(s, j, Dead)
    else if s.pointer.value.doc == job.plan.value.intended then WithPhase(s, j, Committed)
    else if s.pointer.value.doc.revision == job.baseline.value.revision && job.phase.attempt < MAX_POINTER_RETRIES then
      Retried(s, j)
    else WithPhase(s, j, Dead)
  }

  function Retried(s: State, j: JobId): State
    requires j in s.jobs && s.jobs[j].phase.Committing? && s.jobs[j].plan.Some? && s.pointer.Some?
  {
    var etag := s.pointer.value.etag;
    s.(jobs := s.jobs[j := s.jobs[j].(phase := Committing(s.jobs[j].phase.attempt + 1), etag := etag)],
       sent := s.sent + {CommitRequest(s, j, etag)})
  }

  function Entries(s: State): map<Key, Time> {
    map k | k in s.nodes :: s.nodes[k].created
  }

  predicate CanList(s: State, j: JobId) {
    j in s.jobs && s.jobs[j].phase.Committed?
  }

  /** The clock is read after the listing; the regime says how late that may be. */
  predicate CanClassify(s: State, j: JobId) {
    && j in s.jobs && s.jobs[j].phase.Listed? && s.jobs[j].plan.Some? && s.jobs[j].landed.Some?
    && s.jobs[j].landed.value < |s.history|
    && (s.regime.Overlapping? ==>
          s.clock < s.history[s.jobs[j].landed.value].time + s.jobs[j].grace + s.regime.slack)
  }

  function AfterClassify(s: State, j: JobId): State
    requires CanClassify(s, j)
  {
    WithPhase(s, j, Cleaning(DoomedKeys(s.jobs[j].phase.entries, s.jobs[j].plan.value.intended, s.clock,
                                        s.jobs[j].grace)))
  }

  predicate CanDelete(s: State, j: JobId, k: Key) {
    j in s.jobs && s.jobs[j].phase.Cleaning? && k in s.jobs[j].phase.doomed
  }

  predicate CanFinish(s: State, j: JobId) {
    j in s.jobs && (s.jobs[j].phase.Committed? || s.jobs[j].phase.Listed? || s.jobs[j].phase.Cleaning?)
  }

  predicate CanStart(s: State, j: JobId) {
    j !in s.jobs && (s.regime.Serialized? ==> forall i | i in s.jobs :: Ended(s.jobs[i].phase))
  }

  function AfterStart(s: State, j: JobId, grace: Time): State {
    s.(jobs := s.jobs[j := Job(Fetching, grace, None, 0, s.clock, None, {}, None)])
  }

  /** The environment stores the same pointer again under a new etag. */
  function Rewritten(s: State): State
    requires s.pointer.Some?
  {
    s.(pointer := Some(Stored(s.pointer.value.doc, s.nextEtag)), nextEtag := s.nextEtag + 1)
  }

  predicate Enabled(s: State, step: Step) {
    match step
    case Tick => true
    case Rewrite => s.pointer.Some?
    case Land(r) => r in s.sent
    case Start(j, _) => CanStart(s, j)
    case Fetch(j) => CanFetch(s, j)
    case Probe(j, rev) => CanProbe(s, j, rev)
    case AdoptOwn(j, e) => CanAdopt(s, j, Written(e))
    case AdoptOther(j) => CanAdopt(s, j, PreconditionFailed)
    case MakePlan(j, files, id, rev) => CanPlan(s, j, files, id, rev)
    case SendPut(j, h) => CanUpload(s, j, h)
    case Confirm(j, h, reply) => CanConfirm(s, j, h, reply)
    case SendCommit(j) => CanSendCommit(s, j)
    case Acknowledge(j, e) => CanSettle(s, j, Written(e))
    case Reconcile(j) => CanSettle(s, j, PreconditionFailed)
    case ListNodes(j) => CanList(s, j)
    case Classify(j) => CanClassify(s, j)
    case SendDelete(j, k) => CanDelete(s, j, k)
    case Finish(j) => CanFinish(s, j)
    case Die(j) => j in s.jobs && !Ended(s.jobs[j].phase)
  }

  function Do(s: State, step: Step): State
    requires Enabled(s, step)
  {
    match step
    case Tick => s.(clock := s.clock + 1)
    case Rewrite => Rewritten(s)
    case Land(r) => Receive(s, r)
    case Start(j, grace) => AfterStart(s, j, grace)
    case Fetch(j) => AfterFetch(s, j)
    case Probe(j, rev) => AfterProbe(s, j, rev)
    case AdoptOwn(j, e) => AfterAdoptOwn(s, j, e)
    case AdoptOther(j) => AfterAdoptOther(s, j)
    case MakePlan(j, files, id, rev) => AfterPlan(s, j, files, id, rev)
    case SendPut(j, h) => AfterSendPut(s, j, h)
    case Confirm(j, h, reply) => AfterConfirm(s, j, h, reply)
    case SendCommit(j) => AfterSendCommit(s, j)
    case Acknowledge(j, _) => WithPhase(s, j, Committed)
    case Reconcile(j) => AfterReconcile(s, j)
    case ListNodes(j) => WithPhase(s, j, Listed(Entries(s)))
    case Classify(j) => AfterClassify(s, j)
    case SendDelete(j, k) => s.(sent := s.sent + {DeleteNode(j, k)})
    case Finish(j) => WithPhase(s, j, Finished)
    case Die(j) => WithPhase(s, j, Dead)
  }

  function Log(s: State, r: Request, reply: Reply): State {
    s.(replies := s.replies + {Logged(r, reply)})
  }

  function Installed(s: State, doc: CurrentJson, job: JobId): State {
    s.(pointer := Some(Stored(doc, s.nextEtag)), nextEtag := s.nextEtag + 1,
       history := s.history + [Install(doc, s.clock, job)])
  }

  /** What the bucket does with a request, and the reply it gives. */
  function Receive(s: State, r: Request): State {
    match r
    case InitPointer(j, doc) =>
      if s.pointer.Some? then Log(s, r, PreconditionFailed)
      else Log(Installed(s, doc, j), r, Written(s.nextEtag))
    case PutPointer(j, doc, etag) =>
      if s.pointer.Some? && s.pointer.value.etag == etag && j in s.jobs then
        var t := Log(Installed(s, doc, j), r, Written(s.nextEtag));
        t.(jobs := s.jobs[j := s.jobs[j].(landed := Some(|s.history|))])
      else Log(s, r, PreconditionFailed)
    case PutNode(j, k, body) =>
      if k in s.nodes then Log(s, r, PreconditionFailed)
      else Log(s.(nodes := s.nodes[k := Object(body, s.clock, j)], nextEtag := s.nextEtag + 1), r, Written(s.nextEtag))
    case DeleteNode(j, k) => Log(s.(nodes := s.nodes - {k}), r, Deleted)
  }

  function Initial(regime: Regime, clock: Time): State {
    State(regime, clock, None, map[], 0, {}, map[], {}, {}, [])
  }

  /** The states visited while performing `steps`. */
  ghost predicate Follows(run: seq<State>, steps: seq<Step>) {
    && |run| == |steps| + 1
    && forall i :: 0 <= i < |steps| ==> Enabled(run[i], steps[i]) && run[i + 1] == Do(run[i], steps[i])
  }

  /** A run of the protocol, in a timely regime. */
  ghost predicate IsRun(run: seq<State>, steps: seq<Step>) {
    Follows(run, steps) && exists regime, clock :: IsTimely(regime) && run[0] == Initial(regime, clock)
  }

  // -------------------------------------------------------------------
  // Properties of states
  // -------------------------------------------------------------------

  ghost predicate FilesPresent(nodes: map<Key, Object>, g: GenerationEntry) {
    forall h :: h in g.nodes ==> Key(h, g.id) in nodes && Digest(nodes[Key(h, g.id)].body) == g.nodes[h]
  }

  /** Every file of the pointer's current and previous generations exists with the recorded digest. */
  ghost predicate Closed(s: State) {
    s.pointer.Some? ==>
      && (s.pointer.value.doc.current.Some? ==> FilesPresent(s.nodes, s.pointer.value.doc.current.value))
      && (s.pointer.value.doc.previous.Some? ==> FilesPresent(s.nodes, s.pointer.value.doc.previous.value))
  }

  /** `doc` is a revision-only refresh of `before`, or publishes one new generation over it. */
  predicate Succeeds(before: CurrentJson, doc: CurrentJson) {
    || (doc.current == before.current && doc.previous == before.previous && doc.current.Some?)
    || (doc.current.Some? && doc.previous == before.current && doc.current.value.id !in Retained(before))
  }

  predicate Publishes(before: CurrentJson, doc: CurrentJson) {
    doc.current.Some? && IdOf(doc.current) != IdOf(before.current)
  }

  ghost predicate InHistory(s: State, doc: CurrentJson) {
    exists i :: 0 <= i < |s.history| && s.history[i].doc == doc
  }

  /** `doc` was installed no later than `time`. */
  ghost predicate InstalledBy(s: State, doc: CurrentJson, time: Time) {
    exists i :: 0 <= i < |s.history| && s.history[i].doc == doc && s.history[i].time <= time
  }

  /** The pointer is the last installed document, installs are linked, and revisions never repeat. */
  ghost predicate HistoryOk(s: State) {
    && (|s.history| == 0 <==> s.pointer.None?)
    && (s.pointer.Some? ==> s.pointer.value.doc == s.history[|s.history| - 1].doc && s.pointer.value.etag < s.nextEtag)
    && (|s.history| > 0 ==> s.history[0].doc.current.None? && s.history[0].doc.previous.None?)
    && (forall i :: 0 <= i < |s.history| ==> HistoryEntryOk(s, i))
    && (forall i, k :: 0 <= i < k < |s.history| ==>
          s.history[i].doc.revision != s.history[k].doc.revision && s.history[i].time <= s.history[k].time)
    && (forall i :: 0 < i < |s.history| ==> Succeeds(s.history[i - 1].doc, s.history[i].doc))
  }

  ghost predicate HistoryEntryOk(s: State, i: nat)
    requires i < |s.history|
  {
    && s.history[i].doc.revision in s.used && Retained(s.history[i].doc) <= s.used
    && IsValid(s.history[i].doc) && s.history[i].time <= s.clock
  }

  predicate Publishing(job: Job) {
    job.plan.Some? && job.plan.value.Publish?
  }

  /** The job has a plan and the pointer is still the document it was made from. */
  predicate Live(s: State, j: JobId)
    requires j in s.jobs
  {
    s.jobs[j].plan.Some? && s.pointer.Some? && s.jobs[j].baseline == Some(s.pointer.value.doc)
  }

  /** Generation `g` can never again be named by the pointer. */
  ghost predicate Gone(s: State, g: string) {
    && g in s.used
    && (s.pointer.Some? ==> g !in Retained(s.pointer.value.doc))
    && forall j :: j in s.jobs && Live(s, j) && Publishing(s.jobs[j]) ==> s.jobs[j].plan.value.id != g
  }

  /** Job `j` is the job that renders `body` as the file of `k`. */
  predicate Writes(s: State, j: JobId, k: Key, body: string) {
    && j in s.jobs && Publishing(s.jobs[j])
    && s.jobs[j].plan.value.id == k.id
    && k.host in s.jobs[j].plan.value.files && s.jobs[j].plan.value.files[k.host] == body
  }

  ghost predicate PlanOk(s: State, job: Job)
    requires job.plan.Some? && job.baseline.Some?
  {
    var plan, b := job.plan.value, job.baseline.value;
    && plan.intended.revision in s.used && Retained(plan.intended) <= s.used && IsValid(plan.intended)
    && Succeeds(b, plan.intended) && Retained(plan.intended) <= Retained(b) + IdOf(plan.intended.current)
    && (plan.Refresh? ==> Retained(plan.intended) == Retained(b)
                          && plan.intended.current == b.current && plan.intended.previous == b.previous)
    && (plan.Publish? ==> && plan.id in s.used && plan.intended.previous == b.current
                          && plan.intended.current == Some(GenerationEntry(plan.id, Digests(plan.files))))
  }

  /** The etag the job holds names its baseline, or nothing current. */
  predicate EtagOk(s: State, job: Job, etag: Etag) {
    && etag < s.nextEtag
    && (s.pointer.Some? && s.pointer.value.etag == etag ==> job.baseline == Some(s.pointer.value.doc))
  }

  predicate HasBaseline(p: Phase) {
    !p.Fetching? && !p.Probing? && !p.Initializing? && !p.Dead?
  }

  predicate AfterCommit(p: Phase) {
    p.Committed? || p.Listed? || p.Cleaning? || p.Finished?
  }

  ghost predicate LandedOk(s: State, j: JobId, job: Job)
    requires job.plan.Some? && job.baseline.Some?
  {
    && (job.landed.Some? ==>
          && 0 < job.landed.value < |s.history|
          && s.history[job.landed.value].doc == job.plan.value.intended
          && s.history[job.landed.value].job == j
          && s.history[job.landed.value - 1].doc == job.baseline.value)
    && (forall i :: 0 <= i < |s.history| && s.history[i].doc.revision == job.plan.value.intended.revision ==>
          job.landed == Some(i))
  }

  ghost predicate EntriesOk(s: State, entries: map<Key, Time>) {
    forall k :: k in entries ==>
      && k.id in s.used
      && forall i :: i in s.jobs && Publishing(s.jobs[i]) && s.jobs[i].plan.value.id == k.id ==>
           s.jobs[i].start <= entries[k]
  }

  ghost predicate UploadedOk(s: State, j: JobId)
    requires j in s.jobs
  {
    && (!Publishing(s.jobs[j]) ==> s.jobs[j].confirmed == {})
    && (Publishing(s.jobs[j]) ==> s.jobs[j].confirmed <= s.jobs[j].plan.value.files.Keys)
    && (Publishing(s.jobs[j]) && Live(s, j) ==>
          forall h :: h in s.jobs[j].confirmed ==> Key(h, s.jobs[j].plan.value.id) in s.nodes)
  }

  /** What holds of a job whatever its phase. */
  ghost predicate CoreOk(s: State, j: JobId)
    requires j in s.jobs
  {
    var job := s.jobs[j];
    && (job.plan.Some? ==> job.baseline.Some? && PlanOk(s, job) && LandedOk(s, j, job))
    && (job.plan.None? ==> job.landed.None?)
    && (job.baseline.Some? ==>
          InstalledBy(s, job.baseline.value, job.start) && EtagOk(s, job, job.etag) && job.start <= s.clock)
    && UploadedOk(s, j)
  }

  /** What a job's phase says about it. */
  ghost predicate PhaseOk(s: State, job: Job, p: Phase) {
    && (HasBaseline(p) ==> job.baseline.Some?)
    && (HasBaseline(p) && !p.Planning? ==> job.plan.Some?)
    && (p.Planning? ==> job.plan.None?)
    && (p.Initializing? ==> p.doc.revision in s.used && p.doc == Empty(p.doc.revision))
    && (!HasBaseline(p) && !p.Dead? ==> job.baseline.None? && job.plan.None?)
    && (AfterCommit(p) ==> job.landed.Some?)
    && (p.Listed? ==> EntriesOk(s, p.entries))
    && (p.Cleaning? ==> forall k :: k in p.doomed ==> Gone(s, k.id))
  }

  ghost predicate JobOk(s: State, j: JobId)
    requires j in s.jobs
  {
    CoreOk(s, j) && PhaseOk(s, s.jobs[j], s.jobs[j].phase)
  }

  ghost predicate JobsOk(s: State) {
    forall j :: j in s.jobs ==> JobOk(s, j)
  }

  /** No two plans share a revision or a generation id. */
  ghost predicate PlansDiffer(s: State) {
    forall i, j :: i in s.jobs && j in s.jobs && i != j && s.jobs[i].plan.Some? && s.jobs[j].plan.Some? ==>
      && s.jobs[i].plan.value.intended.revision != s.jobs[j].plan.value.intended.revision
      && (Publishing(s.jobs[i]) && Publishing(s.jobs[j]) ==> s.jobs[i].plan.value.id != s.jobs[j].plan.value.id)
  }

  ghost predicate NodesOk(s: State) {
    forall k :: k in s.nodes ==>
      && Writes(s, s.nodes[k].job, k, s.nodes[k].body)
      && s.jobs[s.nodes[k].job].start <= s.nodes[k].created <= s.clock
  }

  ghost predicate RequestOk(s: State, r: Request) {
    match r
    case InitPointer(_, doc) =>
      && doc == Empty(doc.revision) && doc.revision in s.used && IsValid(doc)
      && forall j :: j in s.jobs && s.jobs[j].plan.Some? ==> s.jobs[j].plan.value.intended.revision != doc.revision
    case PutPointer(j, doc, etag) =>
      && j in s.jobs && s.jobs[j].plan.Some? && doc == s.jobs[j].plan.value.intended
      && EtagOk(s, s.jobs[j], etag)
      && (Publishing(s.jobs[j]) ==> s.jobs[j].confirmed == s.jobs[j].plan.value.files.Keys)
    case PutNode(j, k, body) => Writes(s, j, k, body)
    case DeleteNode(_, k) => Gone(s, k.id)
  }

  ghost predicate SentOk(s: State) {
    forall r :: r in s.sent ==> RequestOk(s, r)
  }

  ghost predicate ReplyOk(s: State, l: Logged) {
    && l.request in s.sent
    && match l.request
       case InitPointer(_, doc) =>
         && s.pointer.Some?
         && (l.reply.Written? ==>
               && InHistory(s, doc) && l.reply.etag < s.nextEtag
               && (s.pointer.value.etag == l.reply.etag ==> s.pointer.value.doc == doc))
       case PutPointer(j, _, _) => l.reply.Written? ==> j in s.jobs && s.jobs[j].landed.Some?
       case PutNode(j, k, _) => j in s.jobs && (Live(s, j) ==> k in s.nodes)
       case DeleteNode(_, _) => true
  }

  ghost predicate RepliesOk(s: State) {
    forall l :: l in s.replies ==> ReplyOk(s, l)
  }

  /** Every generation in the pointer is kept by commit `c` or was uploaded after it landed. */
  ghost predicate Fenced(s: State, c: JobId)
    requires c in s.jobs
  {
    s.jobs[c].landed.Some? && s.jobs[c].landed.value < |s.history| && s.jobs[c].plan.Some? && s.pointer.Some? ==>
      forall j :: j in s.jobs && Publishing(s.jobs[j]) && s.jobs[j].plan.value.id in Retained(s.pointer.value.doc) ==>
        || s.jobs[j].plan.value.id in Retained(s.jobs[c].plan.value.intended)
        || s.history[s.jobs[c].landed.value].time <= s.jobs[j].start
  }

  ghost predicate FenceOk(s: State) {
    forall c :: c in s.jobs ==> Fenced(s, c)
  }

  /** The regime is timely, and if it is the serialized one, the running job's commit stays the pointer and nobody
      has read it. */
  ghost predicate SerialOk(s: State) {
    && IsTimely(s.regime)
    && (s.regime.Serialized? ==>
      && (forall i, j :: i in s.jobs && j in s.jobs && !Ended(s.jobs[i].phase) && !Ended(s.jobs[j].phase) ==> i == j)
      && forall c :: c in s.jobs && !Ended(s.jobs[c].phase) && s.jobs[c].landed.Some? && s.jobs[c].plan.Some? ==>
           && s.pointer.Some? && s.pointer.value.doc == s.jobs[c].plan.value.intended
           && forall j :: j in s.jobs ==> s.jobs[j].baseline != Some(s.jobs[c].plan.value.intended))
  }

  ghost predicate Inv(s: State) {
    && HistoryOk(s) && JobsOk(s) && PlansDiffer(s) && NodesOk(s) && SentOk(s) && RepliesOk(s)
    && Closed(s) && FenceOk(s) && SerialOk(s)
  }
}
