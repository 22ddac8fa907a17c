/** The remaining effects of a request on the bucket, and the invariant of every run. */
module ProtocolInvariant {
  import opened Outcomes
  import opened Discovery
  import opened Protocol
  import opened ProtocolFrame
  import opened ProtocolSteps
  import opened ProtocolLanding

  // -------------------------------------------------------------------
  // The bucket changes under unchanged jobs
  // -------------------------------------------------------------------

  /** Only the bucket and the log change; `current.json` holds the same document or none. */
  ghost predicate BucketStep(s: State, t: State) {
    && t == s.(pointer := t.pointer, nodes := t.nodes, nextEtag := t.nextEtag, replies := t.replies)
    && s.nextEtag <= t.nextEtag
    && (s.pointer.None? <==> t.pointer.None?)
    && (s.pointer.Some? ==> && t.pointer.value.doc == s.pointer.value.doc && t.pointer.value.etag < t.nextEtag
                            && (t.pointer.value.etag == s.pointer.value.etag || t.pointer.value.etag >= s.nextEtag))
  }

  lemma BucketGone(s: State, t: State, g: string)
    requires BucketStep(s, t) && Gone(s, g)
    ensures Gone(t, g)
  {
  }

  lemma BucketHistory(s: State, t: State)
    requires BucketStep(s, t)
    ensures HistoryOk(s) ==> HistoryOk(t)
    ensures PlansDiffer(s) ==> PlansDiffer(t)
    ensures SerialOk(s) ==> SerialOk(t)
  {
    if HistoryOk(s) {
      forall i | 0 <= i < |t.history| ensures HistoryEntryOk(t, i) {
        assert HistoryEntryOk(s, i);
      }
    }
  }

  lemma BucketFence(s: State, t: State)
    requires BucketStep(s, t) && FenceOk(s)
    ensures FenceOk(t)
  {
    forall c | c in t.jobs ensures Fenced(t, c) {
      assert Fenced(s, c);
    }
  }

  lemma BucketJob(s: State, t: State, j: JobId)
    requires BucketStep(s, t) && j in s.jobs && JobOk(s, j) && UploadedOk(t, j)
    ensures JobOk(t, j)
  {
    var job := s.jobs[j];
    if job.baseline.Some? {
      assert InstalledBy(t, job.baseline.value, job.start);
    }
    if job.plan.Some? {
      assert PlanOk(t, job);
      assert LandedOk(t, j, job);
    }
    if job.phase.Cleaning? {
      forall k | k in job.phase.doomed ensures Gone(t, k.id) {
        BucketGone(s, t, k.id);
      }
    }
    if job.phase.Listed? {
      assert EntriesOk(t, job.phase.entries);
    }
  }

  lemma BucketRequests(s: State, t: State)
    requires BucketStep(s, t) && SentOk(s)
    ensures SentOk(t)
  {
    forall r | r in t.sent ensures RequestOk(t, r) {
      assert RequestOk(s, r);
      if r.DeleteNode? {
        BucketGone(s, t, r.key.id);
      }
    }
  }

  /** A logged reply stays true as long as the file it speaks of is still there. */
  lemma BucketReply(s: State, t: State, l: Logged)
    requires BucketStep(s, t) && ReplyOk(s, l)
    requires l.request.PutNode? && l.request.key in s.nodes && Live(s, l.request.job) ==> l.request.key in t.nodes
    ensures ReplyOk(t, l)
  {
    assert t.history <= t.history;
    HistoryGrows(s, t);
  }

  lemma BucketInv(s: State, t: State)
    requires Inv(s) && BucketStep(s, t)
    requires NodesOk(t) && Closed(t)
    requires forall j :: j in s.jobs ==> UploadedOk(t, j)
    requires forall l :: l in t.replies ==> ReplyOk(t, l)
    ensures Inv(t)
  {
    hide HistoryOk, CoreOk, PhaseOk, PlansDiffer, NodesOk, SentOk, Closed, FenceOk, SerialOk, RequestOk, ReplyOk,
      UploadedOk, BaselineOk, LocalStep, PlanOk, LandedOk, Gone, EntriesOk, Fenced, EtagOk, InstalledBy, InHistory,
      Writes, IsValid;
    Parts(s);
    BucketHistory(s, t);
    BucketFence(s, t);
    BucketRequests(s, t);
    forall j | j in t.jobs ensures JobOk(t, j) {
      JobFacts(s, j);
      BucketJob(s, t, j);
    }
  }

  // -------------------------------------------------------------------
  // One request at a time
  // -------------------------------------------------------------------

  lemma LogInv(s: State, r: Request, reply: Reply)
    requires Inv(s) && ReplyOk(s, Logged(r, reply))
    ensures Inv(Log(s, r, reply))
  {
    hide Inv, JobsOk, HistoryOk, PhaseOk, PlansDiffer, SentOk, FenceOk, SerialOk, RequestOk, ReplyOk, BaselineOk,
      LocalStep, PlanOk, LandedOk, Gone, EntriesOk, Fenced, EtagOk, InstalledBy, InHistory, IsValid;
    var t := Log(s, r, reply);
    LogStep(s, t);
    Parts(s);
    forall j | j in s.jobs ensures UploadedOk(t, j) {
      JobFacts(s, j);
    }
    forall l | l in t.replies ensures ReplyOk(t, l) {
      BucketReply(s, t, l);
    }
    BucketInv(s, t);
  }

  lemma LogStep(s: State, t: State)
    requires Inv(s) && t == s.(replies := t.replies)
    ensures BucketStep(s, t)
  {
    hide Inv, JobsOk, CoreOk, PhaseOk, PlansDiffer, NodesOk, SentOk, RepliesOk, Closed, FenceOk, SerialOk,
      RequestOk, ReplyOk, UploadedOk, BaselineOk, LocalStep, PlanOk, LandedOk, Gone, EntriesOk, Fenced, EtagOk,
      InstalledBy, InHistory, Writes, IsValid;
    Parts(s);
  }

  lemma RewriteInv(s: State)
    requires Inv(s) && s.pointer.Some?
    ensures Inv(Rewritten(s))
  {
    hide Inv, JobsOk, HistoryOk, PhaseOk, PlansDiffer, SentOk, FenceOk, SerialOk, RequestOk, ReplyOk, BaselineOk,
      LocalStep, PlanOk, LandedOk, Gone, EntriesOk, Fenced, EtagOk, InstalledBy, InHistory, IsValid;
    var t := Rewritten(s);
    Parts(s);
    forall j | j in s.jobs ensures UploadedOk(t, j) {
      JobFacts(s, j);
    }
    forall l | l in t.replies ensures ReplyOk(t, l) {
      BucketReply(s, t, l);
    }
    BucketInv(s, t);
  }

  lemma PutNodeInv(s: State, r: Request)
    requires Inv(s) && r.PutNode? && r in s.sent
    ensures Inv(Receive(s, r))
  {
    hide Inv, RequestOk, ReplyOk;
    if r.key in s.nodes {
      PutFailsOk(s, r);
      LogInv(s, r, PreconditionFailed);
    } else {
      PutLandsInv(s, r);
    }
  }

  lemma PutFailsOk(s: State, r: Request)
    requires Inv(s) && r.PutNode? && r in s.sent && r.key in s.nodes
    ensures ReplyOk(s, Logged(r, PreconditionFailed))
  {
    hide Inv, JobsOk, HistoryOk, CoreOk, PhaseOk, PlansDiffer, NodesOk, RepliesOk, Closed, FenceOk, SerialOk,
      UploadedOk, BaselineOk, LocalStep, PlanOk, LandedOk, Gone, EntriesOk, Fenced, EtagOk, InstalledBy, InHistory,
      IsValid;
    Parts(s);
    assert RequestOk(s, r);
  }

  lemma PutLandsInv(s: State, r: Request)
    requires Inv(s) && r.PutNode? && r in s.sent && r.key !in s.nodes
    ensures Inv(Log(s.(nodes := s.nodes[r.key := Object(r.body, s.clock, r.job)], nextEtag := s.nextEtag + 1),
                    r, Written(s.nextEtag)))
  {
    hide Inv, JobsOk, HistoryOk, PhaseOk, PlansDiffer, NodesOk, Closed, FenceOk, SerialOk, ReplyOk, BaselineOk,
      LocalStep, PlanOk, LandedOk, Gone, EntriesOk, Fenced, EtagOk, InstalledBy, InHistory, Writes, IsValid;
    var t := Log(s.(nodes := s.nodes[r.key := Object(r.body, s.clock, r.job)], nextEtag := s.nextEtag + 1),
                 r, Written(s.nextEtag));
    Parts(s);
    PutStep(s, t, r);
    assert RequestOk(s, r);
    PutNodes(s, t, r);
    forall j | j in s.jobs ensures UploadedOk(t, j) {
      JobFacts(s, j);
    }
    forall l | l in t.replies ensures ReplyOk(t, l) {
      if l in s.replies {
        BucketReply(s, t, l);
      } else {
        PutReply(s, t, r, l);
      }
    }
    BucketInv(s, t);
  }

  lemma PutStep(s: State, t: State, r: Request)
    requires Inv(s) && t == s.(nodes := t.nodes, nextEtag := s.nextEtag + 1, replies := t.replies)
    ensures BucketStep(s, t)
  {
    hide Inv, JobsOk, CoreOk, PhaseOk, PlansDiffer, NodesOk, SentOk, RepliesOk, Closed, FenceOk, SerialOk,
      RequestOk, ReplyOk, UploadedOk, BaselineOk, LocalStep, PlanOk, LandedOk, Gone, EntriesOk, Fenced, EtagOk,
      InstalledBy, InHistory, Writes, IsValid;
    Parts(s);
  }

  lemma PutReply(s: State, t: State, r: Request, l: Logged)
    requires r.PutNode? && r in t.sent && RequestOk(t, r) && r.key in t.nodes && l.request == r
    ensures ReplyOk(t, l)
  {
  }

  lemma PutNodes(s: State, t: State, r: Request)
    requires Inv(s) && r.PutNode? && Writes(s, r.job, r.key, r.body) && r.key !in s.nodes
    requires t == s.(nodes := s.nodes[r.key := Object(r.body, s.clock, r.job)], nextEtag := t.nextEtag,
                     replies := t.replies)
    ensures NodesOk(t) && Closed(t) && RequestOk(t, r)
  {
    hide Inv, JobsOk, HistoryOk, PhaseOk, PlansDiffer, SentOk, RepliesOk, FenceOk, SerialOk, ReplyOk, UploadedOk,
      BaselineOk, LocalStep, PlanOk, LandedOk, Gone, EntriesOk, Fenced, EtagOk, InstalledBy, InHistory, IsValid;
    Parts(s);
    JobFacts(s, r.job);
  }

  /** Deleting a file of a generation that is gone takes nothing from the pointer or a live job. */
  lemma DeleteInv(s: State, r: Request)
    requires Inv(s) && r.DeleteNode? && r in s.sent
    ensures Inv(Receive(s, r))
  {
    hide Inv, JobsOk, HistoryOk, PhaseOk, PlansDiffer, FenceOk, SerialOk, ReplyOk, BaselineOk, LocalStep, PlanOk,
      LandedOk, EntriesOk, Fenced, EtagOk, InstalledBy, InHistory, IsValid;
    var t := Receive(s, r);
    Parts(s);
    assert RequestOk(s, r);
    DeleteStep(s, t, r);
    forall j | j in s.jobs ensures UploadedOk(t, j) {
      JobFacts(s, j);
    }
    forall l | l in t.replies ensures ReplyOk(t, l) {
      if l in s.replies {
        RequestOfLive(s, l, r.key);
        BucketReply(s, t, l);
      } else {
        DeleteReply(t, l);
      }
    }
    BucketInv(s, t);
  }

  lemma DeleteStep(s: State, t: State, r: Request)
    requires r.DeleteNode? && Inv(s) && t == s.(nodes := s.nodes - {r.key}, replies := t.replies)
    ensures BucketStep(s, t)
  {
    hide Inv, JobsOk, CoreOk, PhaseOk, PlansDiffer, NodesOk, SentOk, RepliesOk, Closed, FenceOk, SerialOk,
      RequestOk, ReplyOk, UploadedOk, BaselineOk, LocalStep, PlanOk, LandedOk, Gone, EntriesOk, Fenced, EtagOk,
      InstalledBy, InHistory, Writes, IsValid;
    Parts(s);
  }

  lemma DeleteReply(t: State, l: Logged)
    requires l.request.DeleteNode? && l.request in t.sent
    ensures ReplyOk(t, l)
  {
  }

  lemma RequestOfLive(s: State, l: Logged, k: Key)
    requires Inv(s) && l in s.replies && Gone(s, k.id)
    ensures l.request.PutNode? && l.request.job in s.jobs && Live(s, l.request.job) ==> l.request.key != k
    ensures l.request.PutNode? ==> l.request.job in s.jobs
  {
    hide Inv, JobsOk, HistoryOk, CoreOk, PhaseOk, PlansDiffer, NodesOk, SentOk, RepliesOk, Closed, FenceOk,
      SerialOk, UploadedOk, BaselineOk, LocalStep, PlanOk, LandedOk, EntriesOk, Fenced, EtagOk, InstalledBy,
      InHistory, IsValid;
    ReplyFacts(s, l.request, l.reply);
  }

  lemma PutPointerInv(s: State, r: Request)
    requires Inv(s) && r.PutPointer? && r in s.sent
    ensures Inv(Receive(s, r))
  {
    hide Inv, JobsOk, HistoryOk, CoreOk, PhaseOk, PlansDiffer, NodesOk, SentOk, RepliesOk, Closed, FenceOk,
      SerialOk, RequestOk, UploadedOk, BaselineOk, LocalStep, PlanOk, LandedOk, Gone, EntriesOk, Fenced, EtagOk,
      InstalledBy, InHistory, Writes, IsValid;
    if s.pointer.Some? && s.pointer.value.etag == r.etag && r.job in s.jobs {
      LandsOnBaseline(s, r);
      ReplacedInv(s, Receive(s, r), r.job, r.doc, Logged(r, Written(s.nextEtag)));
    } else {
      LogInv(s, r, PreconditionFailed);
    }
  }

  // -------------------------------------------------------------------
  // The first pointer
  // -------------------------------------------------------------------

  lemma InitInv(s: State, r: Request)
    requires Inv(s) && r.InitPointer? && r in s.sent
    ensures Inv(Receive(s, r))
  {
    if s.pointer.Some? {
    hide Inv, JobsOk, HistoryOk, CoreOk, PhaseOk, PlansDiffer, NodesOk, SentOk, RepliesOk, Closed, FenceOk,
      SerialOk, RequestOk, UploadedOk, BaselineOk, LocalStep, PlanOk, LandedOk, Gone, EntriesOk, Fenced, EtagOk,
      InstalledBy, InHistory, Writes, IsValid;
      LogInv(s, r, PreconditionFailed);
    } else {
      FirstPointerInv(s, r);
    }
  }

  /** Without a pointer nobody has a baseline. */
  lemma NoBaselines(s: State, j: JobId)
    requires Inv(s) && s.pointer.None? && j in s.jobs
    ensures s.jobs[j].baseline.None? && s.jobs[j].plan.None? && s.jobs[j].landed.None?
  {
    hide Inv, JobsOk, PhaseOk, PlansDiffer, NodesOk, SentOk, RepliesOk, Closed, FenceOk, SerialOk, RequestOk,
      ReplyOk, UploadedOk, BaselineOk, LocalStep, PlanOk, LandedOk, Gone, EntriesOk, Fenced, EtagOk, InHistory,
      Writes, IsValid;
    JobFacts(s, j);
    Parts(s);
  }

  lemma FirstPointerInv(s: State, r: Request)
    requires Inv(s) && r.InitPointer? && r in s.sent && s.pointer.None?
    ensures Inv(Log(Installed(s, r.doc, r.job), r, Written(s.nextEtag)))
  {
    hide HistoryOk, CoreOk, PhaseOk, SentOk, Closed, RequestOk, ReplyOk, UploadedOk, BaselineOk, LocalStep, PlanOk,
      LandedOk, Gone, EntriesOk, EtagOk, InstalledBy, InHistory, IsValid;
    var t := Log(Installed(s, r.doc, r.job), r, Written(s.nextEtag));
    Parts(s);
    forall j | j in s.jobs
      ensures s.jobs[j].plan.None? && s.jobs[j].landed.None? && s.jobs[j].baseline.None? && JobOk(t, j)
    {
      NoBaselines(s, j);
      JobFacts(s, j);
      FirstJob(s, t, j);
    }
    FirstHistory(s, t, r);
    FirstRequests(s, t);
    FirstReplies(s, t, r);
  }

  lemma FirstJob(s: State, t: State, j: JobId)
    requires t == s.(pointer := t.pointer, nextEtag := t.nextEtag, history := t.history, replies := t.replies)
    requires j in s.jobs && JobOk(s, j) && s.jobs[j].baseline.None? && s.jobs[j].plan.None?
    ensures JobOk(t, j)
  {
  }

  lemma FirstHistory(s: State, t: State, r: Request)
    requires Inv(s) && r.InitPointer? && r in s.sent && s.pointer.None?
    requires t == Log(Installed(s, r.doc, r.job), r, Written(s.nextEtag))
    ensures HistoryOk(t) && Closed(t) && Retained(r.doc) == {}
  {
    hide Inv, JobsOk, CoreOk, PhaseOk, PlansDiffer, NodesOk, RepliesOk, FenceOk, SerialOk, ReplyOk, UploadedOk,
      BaselineOk, LocalStep, PlanOk, LandedOk, Gone, EntriesOk, Fenced, EtagOk, InstalledBy, InHistory, Writes,
      IsValid;
    Parts(s);
    assert RequestOk(s, r);
    assert HistoryEntryOk(t, 0);
  }

  lemma FirstRequests(s: State, t: State)
    requires Inv(s) && s.pointer.None? && t.jobs == s.jobs && t.used == s.used && t.sent == s.sent
    requires t.pointer.Some? && Retained(t.pointer.value.doc) == {}
    ensures SentOk(t)
  {
    hide Inv, JobsOk, HistoryOk, CoreOk, PhaseOk, PlansDiffer, NodesOk, RepliesOk, Closed, FenceOk, SerialOk,
      ReplyOk, UploadedOk, BaselineOk, LocalStep, PlanOk, LandedOk, EntriesOk, Fenced, EtagOk, InstalledBy, InHistory,
      IsValid;
    Parts(s);
    forall r | r in t.sent ensures RequestOk(t, r) {
      assert RequestOk(s, r);
      if r.PutPointer? {
        NoBaselines(s, r.job);
      } else if r.PutNode? {
        NoBaselines(s, r.job);
      } else if r.DeleteNode? {
        forall j | j in s.jobs ensures s.jobs[j].plan.None? {
          NoBaselines(s, j);
        }
        NothingIsRevived(s, t, r);
      }
    }
  }

  /** The first pointer has no generation, so it revives nothing. */
  lemma NothingIsRevived(s: State, t: State, r: Request)
    requires r.DeleteNode? && t.jobs == s.jobs && t.used == s.used && Gone(s, r.key.id)
    requires t.pointer.Some? && Retained(t.pointer.value.doc) == {}
    requires forall j :: j in s.jobs ==> s.jobs[j].plan.None?
    ensures RequestOk(t, r)
  {
  }

  lemma FirstReplies(s: State, t: State, r: Request)
    requires Inv(s) && r.InitPointer? && r in s.sent && s.pointer.None?
    requires t == Log(Installed(s, r.doc, r.job), r, Written(s.nextEtag))
    ensures RepliesOk(t)
  {
    hide Inv, JobsOk, HistoryOk, CoreOk, PhaseOk, PlansDiffer, NodesOk, SentOk, Closed, FenceOk, SerialOk,
      RequestOk, UploadedOk, BaselineOk, LocalStep, PlanOk, LandedOk, Gone, EntriesOk, Fenced, EtagOk, InstalledBy,
      InHistory, Writes, IsValid;
    Parts(s);
    assert t.history[|s.history|].doc == r.doc;
    assert InHistory(t, r.doc) by { LastInHistory(t); }
    forall l | l in t.replies ensures ReplyOk(t, l) {
      if l in s.replies {
        assert ReplyOk(s, l);
        if l.request.PutNode? {
          NoBaselines(s, l.request.job);
        }
      }
    }
  }

  lemma LastInHistory(t: State)
    requires |t.history| > 0
    ensures InHistory(t, t.history[|t.history| - 1].doc)
  {
  }

  // -------------------------------------------------------------------
  // Every step, every run
  // -------------------------------------------------------------------

  lemma LandInv(s: State, r: Request)
    requires Inv(s) && r in s.sent
    ensures Inv(Receive(s, r))
  {
    hide Inv, Receive;
    match r
    case InitPointer(_, _) => InitInv(s, r);
    case PutPointer(_, _, _) => PutPointerInv(s, r);
    case PutNode(_, _, _) => PutNodeInv(s, r);
    case DeleteNode(_, _) => DeleteInv(s, r);
  }

  lemma StepInv(s: State, step: Step)
    requires Inv(s) && Enabled(s, step)
    ensures Inv(Do(s, step))
  {
    hide Inv, Receive, CanFetch, AfterFetch, CanProbe, AfterProbe, CanAdopt, AfterAdoptOwn, AfterAdoptOther,
      CanPlan, AfterPlan, CanUpload, AfterSendPut, CanConfirm, AfterConfirm, CanSendCommit, AfterSendCommit,
      CanSettle, AfterReconcile, Entries, CanList, CanClassify, AfterClassify, CanDelete, Rewritten, WithPhase;
    match step
    case Tick => TickInv(s);
    case Rewrite => RewriteInv(s);
    case Land(r) => LandInv(s, r);
    case Start(j, grace) => StartInv(s, j, grace);
    case Fetch(j) => FetchInv(s, j);
    case Probe(j, rev) => ProbeInv(s, j, rev);
    case AdoptOwn(j, etag) => AdoptOwnInv(s, j, etag);
    case AdoptOther(j) => AdoptOtherInv(s, j);
    case MakePlan(j, files, id, rev) => PlanInv(s, j, files, id, rev);
    case SendPut(j, h) => SendPutInv(s, j, h);
    case Confirm(j, h, reply) => ConfirmInv(s, j, h, reply);
    case SendCommit(j) => SendCommitInv(s, j);
    case Acknowledge(j, etag) => AcknowledgeInv(s, j, etag);
    case Reconcile(j) => ReconcileInv(s, j);
    case ListNodes(j) => ListInv(s, j);
    case Classify(j) => ClassifyInv(s, j);
    case SendDelete(j, k) => SendDeleteInv(s, j, k);
    case Finish(j) => EndInv(s, j);
    case Die(j) => EndInv(s, j);
  }

  lemma StartInv(s: State, j: JobId, grace: Time)
    requires Inv(s) && CanStart(s, j)
    ensures Inv(AfterStart(s, j, grace))
  {
    hide Inv;
    JoinedInv(s, AfterStart(s, j, grace), j);
  }

  lemma InitialInv(regime: Regime, clock: Time)
    requires IsTimely(regime)
    ensures Inv(Initial(regime, clock))
  {
  }

  lemma {:induction false} RunInv(run: seq<State>, steps: seq<Step>, i: nat)
    requires IsRun(run, steps) && i < |run|
    ensures Inv(run[i])
  {
    hide Inv, Enabled, Do, Initial;
    if i == 0 {
      var regime, clock :| IsTimely(regime) && run[0] == Initial(regime, clock);
      InitialInv(regime, clock);
    } else {
      RunInv(run, steps, i - 1);
      StepInv(run[i - 1], steps[i - 1]);
    }
  }
}
