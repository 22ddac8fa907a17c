/** Planning, landing requests and rewriting the pointer keep the protocol invariant. */
module ProtocolLanding {
  import opened Outcomes
  import opened Discovery
  import opened Protocol
  import opened ProtocolFrame
  import opened ProtocolSteps
  import Base32

  // -------------------------------------------------------------------
  // Making a plan
  // -------------------------------------------------------------------

  lemma DigestsValid(files: map<string, string>, id: string)
    requires DesiredFiles(files) && Base32.IsCanonical(id)
    ensures ValidateEntry(GenerationEntry(id, Digests(files))).Ok?
  {
    assert |Digests(files)| == |Digests(files).Keys| == |files.Keys|;
  }

  lemma PublishedValid(baseline: CurrentJson, g: GenerationEntry, rev: string)
    requires IsValid(baseline) && ValidateEntry(g).Ok? && g.id !in Retained(baseline) && Base32.IsCanonical(rev)
    ensures IsValid(CurrentJson(SCHEMA_VERSION, rev, Some(g), baseline.current))
  {
    hide Base32.IsCanonical, ValidateEntry;
  }

  lemma RefreshedValid(baseline: CurrentJson, rev: string)
    requires IsValid(baseline) && Base32.IsCanonical(rev)
    ensures IsValid(CurrentJson(SCHEMA_VERSION, rev, baseline.current, baseline.previous))
  {
    hide Base32.IsCanonical, ValidateEntry;
  }

  lemma IntendedValid(baseline: CurrentJson, files: map<string, string>, id: string, rev: string)
    requires IsValid(baseline) && DesiredFiles(files) && id !in Retained(baseline)
    requires Base32.IsCanonical(id) && Base32.IsCanonical(rev)
    ensures IsValid(PlanFor(baseline, files, id, rev).intended)
  {
    hide IsValid, Base32.IsCanonical, ValidateEntry, Digests, Unchanged, DesiredFiles, Retained;
    DigestsValid(files, id);
    RefreshedValid(baseline, rev);
    PublishedValid(baseline, GenerationEntry(id, Digests(files)), rev);
  }

  /** A plan made from a valid baseline with fresh ids is in order. */
  lemma FreshPlanOk(s: State, t: State, job: Job, files: map<string, string>, id: string, rev: string)
    requires job.baseline.Some? && job.plan == Some(PlanFor(job.baseline.value, files, id, rev))
    requires IsValid(job.baseline.value) && Retained(job.baseline.value) <= s.used && DesiredFiles(files)
    requires id !in s.used && Base32.IsCanonical(id) && Base32.IsCanonical(rev)
    requires s.used + {id, rev} <= t.used
    ensures PlanOk(t, job)
  {
    hide IsValid, Digests, DesiredFiles, Base32.IsCanonical;
    IntendedValid(job.baseline.value, files, id, rev);
  }

  /** `t` is `s` after job `j` has made its plan with ids nobody has used. */
  ghost predicate Planned(s: State, t: State, j: JobId) {
    && j in s.jobs && t.jobs.Keys == s.jobs.Keys && (forall i :: i in s.jobs && i != j ==> t.jobs[i] == s.jobs[i])
    && t == s.(jobs := t.jobs, used := t.used) && s.used <= t.used
    && s.jobs[j].plan.None? && t.jobs[j].plan.Some?
    && t.jobs[j] == s.jobs[j].(plan := t.jobs[j].plan, phase := Uploading)
    && !Ended(s.jobs[j].phase)
    && t.jobs[j].plan.value.intended.revision !in s.used
    && (Publishing(t.jobs[j]) ==> t.jobs[j].plan.value.id !in s.used)
  }

  lemma PlannedGone(s: State, t: State, j: JobId, g: string)
    requires Planned(s, t, j) && Gone(s, g)
    ensures Gone(t, g)
  {
  }

  lemma PlannedHistory(s: State, t: State, j: JobId)
    requires Planned(s, t, j)
    ensures HistoryOk(s) ==> HistoryOk(t)
    ensures Closed(s) ==> Closed(t)
    ensures NodesOk(s) ==> NodesOk(t)
    ensures SerialOk(s) && CoreOk(s, j) ==> SerialOk(t)
  {
    if HistoryOk(s) {
      forall i | 0 <= i < |t.history| ensures HistoryEntryOk(t, i) {
        assert HistoryEntryOk(s, i);
      }
    }
  }

  lemma PlannedDiffer(s: State, t: State, j: JobId)
    requires Planned(s, t, j) && PlansDiffer(s)
    requires forall i :: i in s.jobs ==> CoreOk(s, i)
    ensures PlansDiffer(t)
  {
    hide Inv, JobsOk, HistoryOk, PhaseOk, NodesOk, SentOk, RepliesOk, Closed, FenceOk, SerialOk, RequestOk, ReplyOk,
      UploadedOk, BaselineOk, LocalStep, LandedOk, Gone, EntriesOk, Fenced, EtagOk, InstalledBy, InHistory, Writes,
      IsValid;
    assert forall i :: i in s.jobs ==> CoreOk(s, i);
  }

  lemma PlannedRequests(s: State, t: State, j: JobId)
    requires Planned(s, t, j) && SentOk(s) && RepliesOk(s)
    ensures SentOk(t) && RepliesOk(t)
  {
    forall r | r in t.sent ensures RequestOk(t, r) {
      assert RequestOk(s, r);
      if r.DeleteNode? {
        PlannedGone(s, t, j, r.key.id);
      }
    }
    forall l | l in t.replies ensures ReplyOk(t, l) {
      assert ReplyOk(s, l);
      assert RequestOk(s, l.request);
    }
  }

  lemma PlannedFence(s: State, t: State, j: JobId)
    requires Planned(s, t, j) && FenceOk(s) && CoreOk(s, j)
    requires s.pointer.Some? ==> Retained(s.pointer.value.doc) <= s.used
    ensures FenceOk(t)
  {
    forall c | c in t.jobs ensures Fenced(t, c) {
      assert Fenced(s, c);
    }
  }

  lemma PlannedOtherJob(s: State, t: State, j: JobId, i: JobId)
    requires Planned(s, t, j) && i in s.jobs && i != j && JobOk(s, i)
    ensures JobOk(t, i)
  {
    var job := s.jobs[i];
    if job.baseline.Some? {
      assert InstalledBy(t, job.baseline.value, job.start);
    }
    if job.plan.Some? {
      assert PlanOk(t, job);
      assert LandedOk(t, i, job);
    }
    if job.phase.Cleaning? {
      forall k | k in job.phase.doomed ensures Gone(t, k.id) {
        PlannedGone(s, t, j, k.id);
      }
    }
    if job.phase.Listed? {
      assert EntriesOk(t, job.phase.entries);
    }
    assert UploadedOk(t, i);
  }

  lemma PlannedJob(s: State, t: State, j: JobId)
    requires Planned(s, t, j) && CoreOk(s, j) && HistoryOk(s)
    requires t.jobs[j].baseline.Some? && PlanOk(t, t.jobs[j])
    ensures JobOk(t, j)
  {
    hide Inv, JobsOk, PlansDiffer, NodesOk, SentOk, RepliesOk, Closed, FenceOk, SerialOk, RequestOk, ReplyOk,
      BaselineOk, LocalStep, PlanOk, Gone, EntriesOk, Fenced, InstalledBy, InHistory, Writes, IsValid;
    var job := t.jobs[j];
    InstalledSame(s, t, job.baseline.value, job.start);
    forall i | 0 <= i < |t.history| ensures t.history[i].doc.revision != job.plan.value.intended.revision {
      assert HistoryEntryOk(s, i);
    }
  }

  lemma PlanStep(s: State, j: JobId, files: map<string, string>, id: string, rev: string)
    requires CanPlan(s, j, files, id, rev) && s.jobs[j].plan.None?
    ensures Planned(s, AfterPlan(s, j, files, id, rev), j)
  {
    hide Digests, Unchanged, DesiredFiles, Base32.IsCanonical;
  }

  lemma PlanInv(s: State, j: JobId, files: map<string, string>, id: string, rev: string)
    requires Inv(s) && CanPlan(s, j, files, id, rev)
    ensures Inv(AfterPlan(s, j, files, id, rev))
  {
    hide HistoryOk, CoreOk, PlansDiffer, NodesOk, SentOk, RepliesOk, Closed, FenceOk, SerialOk, RequestOk, ReplyOk,
      UploadedOk, BaselineOk, LocalStep, PlanOk, LandedOk, Gone, EntriesOk, Fenced, EtagOk, InstalledBy, InHistory,
      Writes, IsValid, Planned, PlanFor, DesiredFiles, Base32.IsCanonical;
    JobFacts(s, j);
    Parts(s);
    BaselineFacts(s, j);
    PlanStep(s, j, files, id, rev);
    var t := AfterPlan(s, j, files, id, rev);
    FreshPlanOk(s, t, t.jobs[j], files, id, rev);
    PlannedInv(s, t, j);
  }

  lemma BaselineFacts(s: State, j: JobId)
    requires Inv(s) && j in s.jobs && s.jobs[j].baseline.Some?
    ensures IsValid(s.jobs[j].baseline.value) && Retained(s.jobs[j].baseline.value) <= s.used
  {
    hide Inv, JobsOk, PhaseOk, PlansDiffer, NodesOk, SentOk, RepliesOk, Closed, FenceOk, SerialOk, RequestOk,
      ReplyOk, UploadedOk, BaselineOk, LocalStep, PlanOk, LandedOk, Gone, EntriesOk, Fenced, EtagOk, InHistory,
      Writes, IsValid;
    JobFacts(s, j);
    Parts(s);
    var i :| 0 <= i < |s.history| && s.history[i].doc == s.jobs[j].baseline.value && s.history[i].time <= s.jobs[j].start;
    assert HistoryEntryOk(s, i);
  }

  lemma PointerFacts(s: State)
    requires HistoryOk(s) && s.pointer.Some?
    ensures IsValid(s.pointer.value.doc) && Retained(s.pointer.value.doc) <= s.used
  {
    hide IsValid;
    assert HistoryEntryOk(s, |s.history| - 1);
  }

  lemma PlannedInv(s: State, t: State, j: JobId)
    requires Inv(s) && Planned(s, t, j) && t.jobs[j].baseline.Some? && PlanOk(t, t.jobs[j])
    ensures Inv(t)
  {
    hide HistoryOk, CoreOk, PhaseOk, PlansDiffer, NodesOk, SentOk, RepliesOk, Closed, FenceOk, SerialOk, RequestOk,
      ReplyOk, UploadedOk, BaselineOk, LocalStep, PlanOk, LandedOk, Gone, EntriesOk, Fenced, EtagOk, InstalledBy,
      InHistory, Writes, IsValid;
    Parts(s);
    forall i | i in s.jobs ensures CoreOk(s, i) && JobOk(s, i) {
      JobFacts(s, i);
    }
    PlannedHistory(s, t, j);
    PlannedDiffer(s, t, j);
    PlannedRequests(s, t, j);
    if s.pointer.Some? {
      PointerFacts(s);
    }
    PlannedFence(s, t, j);
    forall i | i in t.jobs ensures JobOk(t, i) {
      if i == j {
        PlannedJob(s, t, j);
      } else {
        PlannedOtherJob(s, t, j, i);
      }
    }
  }

  // -------------------------------------------------------------------
  // The pointer is replaced
  // -------------------------------------------------------------------

  /** `t` is `s` after job `j`'s pointer `doc` has replaced the baseline `j` made it from. */
  ghost predicate Replaced(s: State, t: State, j: JobId, doc: CurrentJson, reply: Logged) {
    && j in s.jobs && Live(s, j) && doc == s.jobs[j].plan.value.intended
    && (Publishing(s.jobs[j]) ==> s.jobs[j].confirmed == s.jobs[j].plan.value.files.Keys)
    && reply.request.PutPointer? && reply.request.job == j && reply.request in s.sent
    && reply.reply == Written(s.nextEtag)
    && t == Log(Installed(s, doc, j), reply.request, reply.reply).(
              jobs := s.jobs[j := s.jobs[j].(landed := Some(|s.history|))])
  }

  /** A pointer put lands only if the pointer is still the baseline: no lost update. */
  lemma LandsOnBaseline(s: State, r: Request)
    requires Inv(s) && r.PutPointer? && r in s.sent
    requires s.pointer.Some? && s.pointer.value.etag == r.etag && r.job in s.jobs
    ensures Replaced(s, Receive(s, r), r.job, r.doc, Logged(r, Written(s.nextEtag)))
  {
    hide Inv, JobsOk, HistoryOk, CoreOk, PhaseOk, PlansDiffer, NodesOk, RepliesOk, Closed, FenceOk, SerialOk,
      ReplyOk, UploadedOk, BaselineOk, LocalStep, PlanOk, LandedOk, Gone, EntriesOk, Fenced, InstalledBy, InHistory,
      Writes, IsValid;
    Parts(s);
    assert RequestOk(s, r);
  }

  /** The new revision is new, and this job had not landed before. */
  lemma NewRevision(s: State, j: JobId)
    requires Inv(s) && j in s.jobs && Live(s, j)
    ensures s.jobs[j].landed.None?
    ensures forall i :: 0 <= i < |s.history| ==> s.history[i].doc.revision != s.jobs[j].plan.value.intended.revision
  {
    hide Inv, JobsOk, PhaseOk, PlansDiffer, NodesOk, SentOk, RepliesOk, Closed, FenceOk, SerialOk, RequestOk,
      ReplyOk, UploadedOk, BaselineOk, LocalStep, PlanOk, Gone, EntriesOk, Fenced, EtagOk, InstalledBy, InHistory,
      Writes, IsValid;
    JobFacts(s, j);
    Parts(s);
  }

  /** Nobody has read the new pointer yet, so nobody can replace it. */
  lemma NobodyReadIt(s: State, t: State, j: JobId, doc: CurrentJson, reply: Logged, i: JobId)
    requires Inv(s) && Replaced(s, t, j, doc, reply) && i in s.jobs
    ensures t.jobs[i].baseline != Some(doc)
    ensures !Live(t, i)
  {
    hide Inv, JobsOk, HistoryOk, PhaseOk, PlansDiffer, NodesOk, SentOk, RepliesOk, Closed, FenceOk, SerialOk,
      RequestOk, ReplyOk, UploadedOk, BaselineOk, LocalStep, PlanOk, LandedOk, Gone, EntriesOk, Fenced, EtagOk,
      InHistory, Writes, IsValid;
    JobFacts(s, i);
    NewRevision(s, j);
  }

  lemma ReplacedHistory(s: State, t: State, j: JobId, doc: CurrentJson, reply: Logged)
    requires Inv(s) && Replaced(s, t, j, doc, reply)
    ensures HistoryOk(t)
  {
    hide Inv, JobsOk, PhaseOk, PlansDiffer, NodesOk, SentOk, RepliesOk, Closed, FenceOk, SerialOk, RequestOk,
      ReplyOk, UploadedOk, BaselineOk, LocalStep, LandedOk, Gone, EntriesOk, Fenced, EtagOk, InstalledBy, InHistory,
      Writes, IsValid;
    JobFacts(s, j);
    Parts(s);
    NewRevision(s, j);
    PointerFacts(s);
    forall i | 0 <= i < |t.history| ensures HistoryEntryOk(t, i) && t.history[i].time <= s.clock {
      if i < |s.history| {
        assert HistoryEntryOk(s, i);
        assert t.history[i] == s.history[i];
      }
    }
    assert t.history[..|s.history|] == s.history;
  }

  lemma ReplacedGone(s: State, t: State, j: JobId, doc: CurrentJson, reply: Logged, g: string)
    requires Inv(s) && Replaced(s, t, j, doc, reply) && Gone(s, g)
    ensures Gone(t, g)
  {
    hide Inv, JobsOk, HistoryOk, PhaseOk, PlansDiffer, NodesOk, SentOk, RepliesOk, Closed, FenceOk, SerialOk,
      RequestOk, ReplyOk, UploadedOk, BaselineOk, LocalStep, LandedOk, EntriesOk, Fenced, EtagOk, InstalledBy,
      InHistory, Writes, IsValid;
    JobFacts(s, j);
    forall i | i in t.jobs ensures !Live(t, i) {
      NobodyReadIt(s, t, j, doc, reply, i);
    }
  }

  lemma ReplacedCore(s: State, t: State, j: JobId, doc: CurrentJson, reply: Logged, i: JobId)
    requires Inv(s) && Replaced(s, t, j, doc, reply) && i in s.jobs
    ensures CoreOk(t, i)
  {
    hide Inv, JobsOk, HistoryOk, PhaseOk, PlansDiffer, NodesOk, SentOk, RepliesOk, Closed, FenceOk, SerialOk,
      RequestOk, ReplyOk, BaselineOk, LocalStep, PlanOk, LandedOk, Gone, EntriesOk, Fenced, InHistory, Writes,
      IsValid;
    JobFacts(s, i);
    NobodyReadIt(s, t, j, doc, reply, i);
    if s.jobs[i].baseline.Some? {
      var k :| 0 <= k < |s.history| && s.history[k].doc == s.jobs[i].baseline.value && s.history[k].time <= s.jobs[i].start;
      assert t.history[k] == s.history[k];
    }
    if s.jobs[i].plan.Some? {
      assert PlanOk(t, t.jobs[i]) by { PlanStays(s, t, s.jobs[i], t.jobs[i]); }
      ReplacedLanded(s, t, j, doc, reply, i);
    }
  }

  lemma PlanStays(s: State, t: State, a: Job, b: Job)
    requires s.used <= t.used && a.plan == b.plan && a.baseline == b.baseline
    requires a.plan.Some? && a.baseline.Some? && PlanOk(s, a)
    ensures PlanOk(t, b)
  {
  }

  lemma ReplacedLanded(s: State, t: State, j: JobId, doc: CurrentJson, reply: Logged, i: JobId)
    requires Inv(s) && Replaced(s, t, j, doc, reply) && i in s.jobs && s.jobs[i].plan.Some?
    ensures t.jobs[i].baseline.Some? && LandedOk(t, i, t.jobs[i])
  {
    hide Inv, JobsOk, PhaseOk, NodesOk, SentOk, RepliesOk, Closed, FenceOk, SerialOk, RequestOk, ReplyOk,
      UploadedOk, BaselineOk, LocalStep, PlanOk, Gone, EntriesOk, Fenced, EtagOk, InstalledBy, InHistory, Writes,
      IsValid;
    JobFacts(s, i);
    Parts(s);
    NewRevision(s, j);
    var n := |s.history|;
    assert forall k :: 0 <= k < n ==> t.history[k] == s.history[k];
    assert t.history[n].doc == doc;
    assert s.history[n - 1].doc == s.jobs[j].baseline.value;
  }

  lemma ReplacedPhase(s: State, t: State, j: JobId, doc: CurrentJson, reply: Logged, i: JobId)
    requires Inv(s) && Replaced(s, t, j, doc, reply) && i in s.jobs
    ensures PhaseOk(t, t.jobs[i], t.jobs[i].phase)
  {
    hide Inv, JobsOk, HistoryOk, CoreOk, PlansDiffer, NodesOk, SentOk, RepliesOk, Closed, FenceOk, SerialOk,
      RequestOk, ReplyOk, UploadedOk, BaselineOk, LocalStep, PlanOk, LandedOk, Gone, Fenced, EtagOk, InstalledBy,
      InHistory, Writes, IsValid;
    JobFacts(s, i);
    var p := s.jobs[i].phase;
    if p.Cleaning? {
      forall k | k in p.doomed ensures Gone(t, k.id) {
        ReplacedGone(s, t, j, doc, reply, k.id);
      }
    }
  }

  lemma ReplacedRequests(s: State, t: State, j: JobId, doc: CurrentJson, reply: Logged)
    requires Inv(s) && Replaced(s, t, j, doc, reply)
    ensures SentOk(t)
  {
    hide Inv, JobsOk, HistoryOk, CoreOk, PhaseOk, PlansDiffer, NodesOk, RepliesOk, Closed, FenceOk, SerialOk,
      ReplyOk, UploadedOk, BaselineOk, LocalStep, PlanOk, LandedOk, Gone, EntriesOk, Fenced, InstalledBy, InHistory,
      IsValid;
    Parts(s);
    forall r | r in t.sent ensures RequestOk(t, r) {
      assert RequestOk(s, r);
      if r.DeleteNode? {
        ReplacedGone(s, t, j, doc, reply, r.key.id);
      }
    }
  }

  lemma ReplacedReplies(s: State, t: State, j: JobId, doc: CurrentJson, reply: Logged)
    requires Inv(s) && Replaced(s, t, j, doc, reply)
    ensures RepliesOk(t)
  {
    hide Inv, JobsOk, HistoryOk, CoreOk, PhaseOk, PlansDiffer, NodesOk, SentOk, Closed, FenceOk, SerialOk,
      RequestOk, UploadedOk, BaselineOk, LocalStep, PlanOk, LandedOk, Gone, EntriesOk, Fenced, EtagOk, InstalledBy,
      InHistory, Writes, IsValid;
    Parts(s);
    forall l | l in t.replies ensures ReplyOk(t, l) {
      if l != reply {
        assert ReplyOk(s, l);
        HistoryGrows(s, t);
        if l.request.PutNode? {
          NobodyReadIt(s, t, j, doc, reply, l.request.job);
        }
      }
    }
  }

  lemma HistoryGrows(s: State, t: State)
    requires s.history <= t.history
    ensures forall d :: InHistory(s, d) ==> InHistory(t, d)
  {
    forall d | InHistory(s, d) ensures InHistory(t, d) {
      var k :| 0 <= k < |s.history| && s.history[k].doc == d;
      assert t.history[k].doc == d;
    }
  }

  /** The files of a published generation are all there at the moment its pointer lands. */
  lemma PublishedFilesPresent(s: State, j: JobId)
    requires Inv(s) && j in s.jobs && Live(s, j) && Publishing(s.jobs[j])
    requires s.jobs[j].confirmed == s.jobs[j].plan.value.files.Keys
    ensures FilesPresent(s.nodes, GenerationEntry(s.jobs[j].plan.value.id, Digests(s.jobs[j].plan.value.files)))
  {
    hide Inv, JobsOk, HistoryOk, PhaseOk, SentOk, RepliesOk, Closed, FenceOk, SerialOk, RequestOk, ReplyOk,
      BaselineOk, LocalStep, PlanOk, LandedOk, Gone, EntriesOk, Fenced, EtagOk, InstalledBy, InHistory, IsValid;
    JobFacts(s, j);
    Parts(s);
    var plan := s.jobs[j].plan.value;
    forall h | h in plan.files
      ensures Key(h, plan.id) in s.nodes && s.nodes[Key(h, plan.id)].body == plan.files[h]
    {
      assert s.nodes[Key(h, plan.id)].job == j;
    }
  }

  lemma ReplacedClosed(s: State, t: State, j: JobId, doc: CurrentJson, reply: Logged)
    requires Inv(s) && Replaced(s, t, j, doc, reply)
    ensures Closed(t)
  {
    hide Inv, JobsOk, HistoryOk, PhaseOk, PlansDiffer, NodesOk, SentOk, RepliesOk, FenceOk, SerialOk, RequestOk,
      ReplyOk, UploadedOk, BaselineOk, LocalStep, LandedOk, Gone, EntriesOk, Fenced, EtagOk, InstalledBy, InHistory,
      Writes, IsValid;
    JobFacts(s, j);
    Parts(s);
    if Publishing(s.jobs[j]) {
      PublishedFilesPresent(s, j);
    }
  }

  lemma ReplacedFence(s: State, t: State, j: JobId, doc: CurrentJson, reply: Logged)
    requires Inv(s) && Replaced(s, t, j, doc, reply)
    ensures FenceOk(t)
  {
    hide Inv, JobsOk, HistoryOk, CoreOk, PhaseOk, PlansDiffer, NodesOk, SentOk, RepliesOk, Closed, SerialOk,
      RequestOk, ReplyOk, UploadedOk, BaselineOk, LocalStep, PlanOk, LandedOk, Gone, EntriesOk, Fenced, EtagOk,
      InstalledBy, InHistory, Writes, IsValid;
    forall c | c in t.jobs ensures Fenced(t, c) {
      ReplacedFenced(s, t, j, doc, reply, c);
    }
  }

  lemma ReplacedFenced(s: State, t: State, j: JobId, doc: CurrentJson, reply: Logged, c: JobId)
    requires Inv(s) && Replaced(s, t, j, doc, reply) && c in s.jobs
    ensures Fenced(t, c)
  {
    hide Inv, JobsOk, HistoryOk, PhaseOk, NodesOk, SentOk, RepliesOk, Closed, SerialOk, RequestOk, ReplyOk,
      UploadedOk, BaselineOk, LocalStep, LandedOk, Gone, EntriesOk, EtagOk, InstalledBy, InHistory, Writes, IsValid;
    JobFacts(s, j);
    JobFacts(s, c);
    Parts(s);
    assert Fenced(s, c);
    if c != j && s.jobs[c].landed.Some? && s.jobs[c].landed.value < |s.history| {
      LiveStartedLate(s, j, s.jobs[c].landed.value);
    }
    if s.jobs[c].landed.Some? {
      LandedInRange(s, c);
    }
  }

  lemma LandedInRange(s: State, c: JobId)
    requires Inv(s) && c in s.jobs && s.jobs[c].landed.Some?
    ensures s.jobs[c].landed.value < |s.history|
  {
    hide Inv, JobsOk, HistoryOk, PhaseOk, PlansDiffer, NodesOk, SentOk, RepliesOk, Closed, FenceOk, SerialOk,
      RequestOk, ReplyOk, UploadedOk, BaselineOk, LocalStep, PlanOk, Gone, EntriesOk, Fenced, EtagOk, InstalledBy,
      InHistory, Writes, IsValid;
    JobFacts(s, c);
  }

  lemma ReplacedSerial(s: State, t: State, j: JobId, doc: CurrentJson, reply: Logged)
    requires Inv(s) && Replaced(s, t, j, doc, reply)
    ensures SerialOk(t)
  {
    hide Inv, JobsOk, HistoryOk, CoreOk, PhaseOk, PlansDiffer, NodesOk, SentOk, RepliesOk, Closed, FenceOk,
      RequestOk, ReplyOk, UploadedOk, BaselineOk, LocalStep, PlanOk, LandedOk, Gone, EntriesOk, Fenced, EtagOk,
      InstalledBy, InHistory, Writes, IsValid;
    Parts(s);
    forall i | i in s.jobs ensures t.jobs[i].baseline != Some(doc) {
      NobodyReadIt(s, t, j, doc, reply, i);
    }
  }

  lemma ReplacedInv(s: State, t: State, j: JobId, doc: CurrentJson, reply: Logged)
    requires Inv(s) && Replaced(s, t, j, doc, reply)
    ensures Inv(t)
  {
    hide HistoryOk, CoreOk, PhaseOk, SentOk, RepliesOk, Closed, FenceOk, SerialOk, RequestOk, ReplyOk, UploadedOk,
      BaselineOk, LocalStep, PlanOk, LandedOk, Gone, EntriesOk, Fenced, EtagOk, InstalledBy, InHistory, IsValid;
    Parts(s);
    ReplacedHistory(s, t, j, doc, reply);
    ReplacedRequests(s, t, j, doc, reply);
    ReplacedReplies(s, t, j, doc, reply);
    ReplacedClosed(s, t, j, doc, reply);
    ReplacedFence(s, t, j, doc, reply);
    ReplacedSerial(s, t, j, doc, reply);
    forall i | i in t.jobs ensures JobOk(t, i) {
      ReplacedCore(s, t, j, doc, reply, i);
      ReplacedPhase(s, t, j, doc, reply, i);
    }
  }
}
