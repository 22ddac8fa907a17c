/** Every step of a job keeps the protocol invariant. */
module ProtocolSteps {
  import opened Outcomes
  import opened Discovery
  import opened Protocol
  import opened ProtocolFrame
  import Base32

  lemma JobFacts(s: State, j: JobId)
    requires Inv(s) && j in s.jobs
    ensures CoreOk(s, j) && PhaseOk(s, s.jobs[j], s.jobs[j].phase)
  {
    hide HistoryOk, CoreOk, PhaseOk, PlansDiffer, NodesOk, SentOk, RepliesOk, Closed, FenceOk, SerialOk, RequestOk,
      ReplyOk, UploadedOk, BaselineOk, LocalStep, PlanOk, LandedOk, Gone, EntriesOk, Fenced, EtagOk, InstalledBy,
      InHistory, Writes, IsValid;
    assert JobOk(s, j);
  }

  lemma ReplyFacts(s: State, request: Request, reply: Reply)
    requires Inv(s) && Logged(request, reply) in s.replies
    ensures ReplyOk(s, Logged(request, reply)) && RequestOk(s, request)
  {
    hide JobsOk, HistoryOk, CoreOk, PhaseOk, PlansDiffer, NodesOk, Closed, FenceOk, SerialOk, RequestOk, ReplyOk,
      UploadedOk, BaselineOk, LocalStep, PlanOk, LandedOk, Gone, EntriesOk, Fenced, EtagOk, InstalledBy, InHistory,
      Writes, IsValid;
    assert ReplyOk(s, Logged(request, reply));
    assert request in s.sent by { RequestOfReply(s, Logged(request, reply)); }
  }

  lemma RequestOfReply(s: State, l: Logged)
    requires ReplyOk(s, l)
    ensures l.request in s.sent
  {
  }

  lemma Parts(s: State)
    requires Inv(s)
    ensures HistoryOk(s) && PlansDiffer(s) && NodesOk(s) && SentOk(s) && RepliesOk(s)
    ensures Closed(s) && FenceOk(s) && SerialOk(s)
  {
    hide JobsOk, HistoryOk, CoreOk, PhaseOk, PlansDiffer, NodesOk, SentOk, RepliesOk, Closed, FenceOk, SerialOk,
      RequestOk, ReplyOk, UploadedOk, BaselineOk, LocalStep, PlanOk, LandedOk, Gone, EntriesOk, Fenced, EtagOk,
      InstalledBy, InHistory, Writes, IsValid;
  }

  // -------------------------------------------------------------------
  // A new job
  // -------------------------------------------------------------------

  /** `t` is `s` with one more job that has done nothing yet. */
  ghost predicate Joined(s: State, t: State, j: JobId) {
    && j !in s.jobs && t.jobs.Keys == s.jobs.Keys + {j}
    && (forall i :: i in s.jobs ==> t.jobs[i] == s.jobs[i])
    && t.jobs[j].plan.None? && t.jobs[j].baseline.None? && t.jobs[j].landed.None?
    && t.jobs[j].confirmed == {} && t.jobs[j].phase.Fetching?
    && t == s.(jobs := t.jobs)
    && (s.regime.Serialized? ==> forall i :: i in s.jobs ==> Ended(s.jobs[i].phase))
  }

  lemma JoinedInv(s: State, t: State, j: JobId)
    requires Inv(s) && Joined(s, t, j)
    ensures Inv(t)
  {
    hide HistoryOk, CoreOk, PhaseOk, PlansDiffer, NodesOk, SentOk, RepliesOk, Closed, FenceOk, SerialOk, RequestOk,
      ReplyOk, UploadedOk, BaselineOk, LocalStep, PlanOk, LandedOk, Gone, EntriesOk, Fenced, EtagOk, InstalledBy,
      InHistory, Writes, IsValid;
    Parts(s);
    JoinedHistory(s, t, j);
    JoinedRequests(s, t, j);
    JoinedFence(s, t, j);
    JoinedKeys(s, t, j);
    forall i | i in t.jobs ensures JobOk(t, i) {
      if i != j {
        JobFacts(s, i);
        JoinedOtherJob(s, t, j, i);
      } else {
        JoinedNewJob(s, t, j);
      }
    }
  }

  lemma JoinedKeys(s: State, t: State, j: JobId)
    requires Joined(s, t, j)
    ensures t.jobs.Keys == s.jobs.Keys + {j}
  {
  }

  lemma JoinedNewJob(s: State, t: State, j: JobId)
    requires Joined(s, t, j)
    ensures JobOk(t, j)
  {
  }

  lemma JoinedHistory(s: State, t: State, j: JobId)
    requires Joined(s, t, j)
    ensures HistoryOk(s) ==> HistoryOk(t)
    ensures PlansDiffer(s) ==> PlansDiffer(t)
    ensures NodesOk(s) ==> NodesOk(t)
    ensures Closed(s) ==> Closed(t)
  {
    if HistoryOk(s) {
      forall i | 0 <= i < |t.history| ensures HistoryEntryOk(t, i) {
        assert HistoryEntryOk(s, i);
      }
    }
  }

  lemma JoinedGone(s: State, t: State, j: JobId, g: string)
    requires Joined(s, t, j) && Gone(s, g)
    ensures Gone(t, g)
  {
  }

  lemma JoinedOtherJob(s: State, t: State, j: JobId, i: JobId)
    requires Joined(s, t, j) && i in s.jobs && JobOk(s, i)
    ensures JobOk(t, i)
  {
    var job := s.jobs[i];
    if job.baseline.Some? {
      assert InstalledBy(t, job.baseline.value, job.start);
    }
    if job.plan.Some? {
      assert PlanOk(t, job);
      assert LandedOk(t, i, job);
    }
    if job.phase.Cleaning? {
      forall k | k in job.phase.doomed ensures Gone(t, k.id) {
        JoinedGone(s, t, j, k.id);
      }
    }
    if job.phase.Listed? {
      assert EntriesOk(t, job.phase.entries);
    }
    assert UploadedOk(t, i);
  }

  lemma JoinedRequests(s: State, t: State, j: JobId)
    requires Joined(s, t, j) && SentOk(s) && RepliesOk(s)
    ensures SentOk(t) && RepliesOk(t)
  {
    forall r | r in t.sent ensures RequestOk(t, r) {
      assert RequestOk(s, r);
      if r.DeleteNode? {
        JoinedGone(s, t, j, r.key.id);
      }
    }
    forall l | l in t.replies ensures ReplyOk(t, l) {
      assert ReplyOk(s, l);
    }
  }

  lemma JoinedFence(s: State, t: State, j: JobId)
    requires Joined(s, t, j)
    ensures FenceOk(s) ==> FenceOk(t)
    ensures SerialOk(s) ==> SerialOk(t)
  {
    if FenceOk(s) {
      forall c | c in t.jobs ensures Fenced(t, c) {
        if c in s.jobs { assert Fenced(s, c); }
      }
    }
  }

  // -------------------------------------------------------------------
  // Reading the baseline
  // -------------------------------------------------------------------

  lemma InstalledIsValid(s: State, doc: CurrentJson)
    requires HistoryOk(s) && InHistory(s, doc)
    ensures IsValid(doc) && InstalledBy(s, doc, s.clock)
  {
    hide IsValid;
    var i :| 0 <= i < |s.history| && s.history[i].doc == doc;
    assert HistoryEntryOk(s, i);
  }

  /** A job without a plan may adopt any installed document under an etag that names it. */
  lemma AdoptInv(s: State, j: JobId, doc: CurrentJson, etag: Etag)
    requires Inv(s) && j in s.jobs
    requires s.jobs[j].phase.Fetching? || s.jobs[j].phase.Initializing?
    requires InHistory(s, doc) && etag < s.nextEtag
    requires s.pointer.Some? && s.pointer.value.etag == etag ==> s.pointer.value.doc == doc
    ensures Inv(WithBaseline(s, j, doc, etag))
  {
    hide Inv, JobsOk, HistoryOk, PlansDiffer, NodesOk, SentOk, RepliesOk, Closed, FenceOk, SerialOk, RequestOk,
      ReplyOk, PlanOk, LandedOk, Gone, EntriesOk, Fenced, InstalledBy, InHistory, Writes, IsValid;
    var t := WithBaseline(s, j, doc, etag);
    JobFacts(s, j);
    Parts(s);
    InstalledIsValid(s, doc);
    assert InstalledBy(t, doc, t.clock) by { InstalledSame(s, t, doc, t.clock); }
    LocalInv(s, t, j);
  }

  lemma InstalledSame(s: State, t: State, doc: CurrentJson, time: Time)
    requires s.history == t.history
    ensures InstalledBy(s, doc, time) <==> InstalledBy(t, doc, time)
  {
  }

  lemma PointerInHistory(s: State)
    requires HistoryOk(s) && s.pointer.Some?
    ensures InHistory(s, s.pointer.value.doc) && s.pointer.value.etag < s.nextEtag
  {
    assert s.history[|s.history| - 1].doc == s.pointer.value.doc;
  }

  lemma FetchInv(s: State, j: JobId)
    requires Inv(s) && CanFetch(s, j)
    ensures Inv(AfterFetch(s, j))
  {
    assert j in s.jobs && s.jobs[j].phase.Fetching?;
    hide Inv, JobsOk, HistoryOk, CoreOk, PlansDiffer, NodesOk, SentOk, RepliesOk, Closed, FenceOk, SerialOk,
      RequestOk, ReplyOk, UploadedOk, BaselineOk, LocalStep, PlanOk, LandedOk, Gone, EntriesOk, Fenced, EtagOk,
      InstalledBy, InHistory, Writes, IsValid;
    if s.pointer.Some? {
      Parts(s);
      PointerInHistory(s);
      AdoptInv(s, j, s.pointer.value.doc, s.pointer.value.etag);
    } else {
      JobFacts(s, j);
      PhaseInv(s, j, Probing);
    }
  }

  lemma AdoptOwnInv(s: State, j: JobId, etag: Etag)
    requires Inv(s) && CanAdopt(s, j, Written(etag))
    ensures Inv(AfterAdoptOwn(s, j, etag))
  {
    var doc := s.jobs[j].phase.doc;
    hide Inv, JobsOk, HistoryOk, CoreOk, PhaseOk, PlansDiffer, NodesOk, SentOk, RepliesOk, Closed, FenceOk,
      SerialOk, RequestOk, UploadedOk, BaselineOk, LocalStep, PlanOk, LandedOk, Gone, EntriesOk, Fenced, EtagOk,
      InstalledBy, InHistory, Writes, IsValid;
    ReplyFacts(s, InitPointer(j, doc), Written(etag));
    AdoptInv(s, j, doc, etag);
  }

  /** Losing the initialization race means the pointer exists: the re-read cannot fail. */
  lemma LostRaceFindsPointer(s: State, j: JobId)
    requires Inv(s) && CanAdopt(s, j, PreconditionFailed)
    ensures s.pointer.Some?
  {
    var doc := s.jobs[j].phase.doc;
    hide Inv, JobsOk, HistoryOk, CoreOk, PhaseOk, PlansDiffer, NodesOk, SentOk, RepliesOk, Closed, FenceOk,
      SerialOk, RequestOk, UploadedOk, BaselineOk, LocalStep, PlanOk, LandedOk, Gone, EntriesOk, Fenced, EtagOk,
      InstalledBy, InHistory, Writes, IsValid;
    ReplyFacts(s, InitPointer(j, doc), PreconditionFailed);
  }

  lemma AdoptOtherInv(s: State, j: JobId)
    requires Inv(s) && CanAdopt(s, j, PreconditionFailed)
    ensures Inv(AfterAdoptOther(s, j))
  {
    LostRaceFindsPointer(s, j);
    assert j in s.jobs && s.jobs[j].phase.Initializing?;
    hide Inv, JobsOk, HistoryOk, CoreOk, PhaseOk, PlansDiffer, NodesOk, SentOk, RepliesOk, Closed, FenceOk,
      SerialOk, RequestOk, ReplyOk, UploadedOk, BaselineOk, LocalStep, PlanOk, LandedOk, Gone, EntriesOk, Fenced,
      EtagOk, InstalledBy, InHistory, Writes, IsValid;
    Parts(s);
    PointerInHistory(s);
    AdoptInv(s, j, s.pointer.value.doc, s.pointer.value.etag);
  }

  lemma ProbeInv(s: State, j: JobId, rev: string)
    requires Inv(s) && CanProbe(s, j, rev)
    ensures Inv(AfterProbe(s, j, rev))
  {
    hide Inv, JobsOk, HistoryOk, CoreOk, PlansDiffer, NodesOk, SentOk, RepliesOk, Closed, FenceOk, SerialOk,
      RequestOk, ReplyOk, UploadedOk, BaselineOk, LocalStep, PlanOk, LandedOk, Gone, EntriesOk, Fenced, EtagOk,
      InstalledBy, InHistory, Writes, IsValid;
    assert j in s.jobs && s.jobs[j].phase.Probing? && rev !in s.used && Base32.IsCanonical(rev);
    JobFacts(s, j);
    if |s.nodes| > 0 {
      PhaseInv(s, j, Dead);
    } else {
      InitializeInv(s, j, rev);
    }
  }

  lemma InitializingPhaseOk(s: State, job: Job, rev: string)
    requires rev in s.used && job.baseline.None? && job.plan.None?
    ensures PhaseOk(s, job, Initializing(Empty(rev)))
  {
  }

  lemma ProbingHasNothing(s: State, job: Job)
    ensures PhaseOk(s, job, job.phase) && job.phase.Probing? ==> job.baseline.None? && job.plan.None?
  {
  }

  lemma InitializeInv(s: State, j: JobId, rev: string)
    requires Inv(s) && j in s.jobs && s.jobs[j].phase.Probing? && rev !in s.used && Base32.IsCanonical(rev)
    ensures Inv(WithPhase(s, j, Initializing(Empty(rev))).(
                  used := s.used + {rev}, sent := s.sent + {InitPointer(j, Empty(rev))}))
  {
    hide Inv, JobsOk, HistoryOk, CoreOk, PhaseOk, PlansDiffer, NodesOk, SentOk, RepliesOk, Closed, FenceOk,
      SerialOk, RequestOk, ReplyOk, UploadedOk, BaselineOk, LocalStep, PlanOk, LandedOk, Gone, EntriesOk, Fenced,
      EtagOk, InstalledBy, InHistory, Writes, IsValid;
    var s1 := s.(used := s.used + {rev});
    JobFacts(s, j);
    ProbingHasNothing(s, s.jobs[j]);
    UsedInv(s, s1, j);
    InitializingPhaseOk(s1, s.jobs[j], rev);
    var s2 := WithPhase(s1, j, Initializing(Empty(rev)));
    PhaseInv(s1, j, Initializing(Empty(rev)));
    InitRequestOk(s, s2, j, rev);
    SentInv(s2, InitPointer(j, Empty(rev)));
  }

  lemma UsedInv(s: State, t: State, j: JobId)
    requires Inv(s) && j in s.jobs && s.used <= t.used && t == s.(used := t.used)
    ensures Inv(t)
  {
    hide Inv, JobsOk, HistoryOk, PhaseOk, PlansDiffer, NodesOk, SentOk, RepliesOk, Closed, FenceOk, SerialOk,
      RequestOk, ReplyOk, BaselineOk, PlanOk, LandedOk, Gone, EntriesOk, Fenced, EtagOk, InstalledBy, InHistory,
      Writes, IsValid;
    JobFacts(s, j);
    LocalInv(s, t, j);
  }

  lemma EmptyIsValid(rev: string)
    requires Base32.IsCanonical(rev)
    ensures IsValid(Empty(rev))
  {
  }

  lemma InitRequestOk(s: State, t: State, j: JobId, rev: string)
    requires Inv(s) && j in s.jobs && s.jobs[j].phase.Probing? && rev !in s.used && Base32.IsCanonical(rev)
    requires t == WithPhase(s.(used := s.used + {rev}), j, Initializing(Empty(rev)))
    ensures RequestOk(t, InitPointer(j, Empty(rev)))
  {
    hide Inv, JobsOk, HistoryOk, PhaseOk, PlansDiffer, NodesOk, SentOk, RepliesOk, Closed, FenceOk, SerialOk,
      ReplyOk, UploadedOk, BaselineOk, LocalStep, LandedOk, Gone, EntriesOk, Fenced, EtagOk, InstalledBy, InHistory,
      Writes, IsValid;
    EmptyIsValid(rev);
    forall i | i in t.jobs && t.jobs[i].plan.Some?
      ensures t.jobs[i].plan.value.intended.revision != rev
    {
      JobFacts(s, i);
    }
  }

  // -------------------------------------------------------------------
  // Uploading
  // -------------------------------------------------------------------

  lemma SendPutInv(s: State, j: JobId, h: string)
    requires Inv(s) && CanUpload(s, j, h)
    ensures Inv(AfterSendPut(s, j, h))
  {
    UploadIsInOrder(s, j, h);
    hide Inv, JobsOk, HistoryOk, CoreOk, PhaseOk, PlansDiffer, NodesOk, SentOk, RepliesOk, Closed, FenceOk,
      SerialOk, RequestOk, ReplyOk, UploadedOk, BaselineOk, LocalStep, PlanOk, LandedOk, Gone, EntriesOk, Fenced,
      EtagOk, InstalledBy, InHistory, Writes, IsValid;
    SentInv(s, FileRequest(j, s.jobs[j].plan.value, h));
  }

  lemma UploadIsInOrder(s: State, j: JobId, h: string)
    requires CanUpload(s, j, h)
    ensures RequestOk(s, FileRequest(j, s.jobs[j].plan.value, h))
  {
  }

  lemma ConfirmInv(s: State, j: JobId, h: string, reply: Reply)
    requires Inv(s) && CanConfirm(s, j, h, reply)
    ensures Inv(AfterConfirm(s, j, h, reply))
  {
    hide Inv, JobsOk, HistoryOk, CoreOk, PlansDiffer, NodesOk, SentOk, RepliesOk, Closed, FenceOk, SerialOk,
      RequestOk, ReplyOk, UploadedOk, BaselineOk, LocalStep, PlanOk, LandedOk, Gone, EntriesOk, Fenced, EtagOk,
      InstalledBy, InHistory, Writes, IsValid;
    var plan := s.jobs[j].plan.value;
    var r := FileRequest(j, plan, h);
    assert Logged(r, reply) in s.replies && Publishing(s.jobs[j]) && !Ended(s.jobs[j].phase);
    if reply.Written? || (Key(h, plan.id) in s.nodes && s.nodes[Key(h, plan.id)].body == plan.files[h]) {
      ConfirmedInv(s, j, h, reply);
    } else {
      JobFacts(s, j);
      PhaseInv(s, j, Dead);
    }
  }

  lemma ConfirmedInv(s: State, j: JobId, h: string, reply: Reply)
    requires Inv(s) && j in s.jobs && Publishing(s.jobs[j]) && h in s.jobs[j].plan.value.files
    requires Logged(FileRequest(j, s.jobs[j].plan.value, h), reply) in s.replies
    ensures Inv(s.(jobs := s.jobs[j := s.jobs[j].(confirmed := s.jobs[j].confirmed + {h})]))
  {
    hide Inv, JobsOk, HistoryOk, PlansDiffer, NodesOk, SentOk, RepliesOk, Closed, FenceOk, SerialOk, RequestOk,
      BaselineOk, PlanOk, LandedOk, Gone, EntriesOk, Fenced, EtagOk, InstalledBy, InHistory, Writes, IsValid;
    var t := s.(jobs := s.jobs[j := s.jobs[j].(confirmed := s.jobs[j].confirmed + {h})]);
    JobFacts(s, j);
    ReplyFacts(s, FileRequest(j, s.jobs[j].plan.value, h), reply);
    assert UploadedOk(t, j);
    LocalInv(s, t, j);
  }

  // -------------------------------------------------------------------
  // Committing
  // -------------------------------------------------------------------

  /** Any pointer request of a ready job is in order if it carries an etag that names the baseline. */
  lemma CommitRequestOk(s: State, j: JobId, etag: Etag)
    requires Inv(s) && j in s.jobs && s.jobs[j].plan.Some? && EtagOk(s, s.jobs[j], etag)
    requires Publishing(s.jobs[j]) ==> s.jobs[j].confirmed == s.jobs[j].plan.value.files.Keys
    ensures RequestOk(s, PutPointer(j, s.jobs[j].plan.value.intended, etag))
  {
    hide Inv, JobsOk, HistoryOk, CoreOk, PhaseOk, PlansDiffer, NodesOk, SentOk, RepliesOk, Closed, FenceOk,
      SerialOk, ReplyOk, UploadedOk, BaselineOk, LocalStep, PlanOk, LandedOk, Gone, EntriesOk, Fenced, EtagOk,
      InstalledBy, InHistory, Writes, IsValid;
  }

  lemma SendCommitInv(s: State, j: JobId)
    requires Inv(s) && CanSendCommit(s, j)
    ensures Inv(AfterSendCommit(s, j))
  {
    hide Inv, JobsOk, HistoryOk, PlansDiffer, NodesOk, SentOk, RepliesOk, Closed, FenceOk, SerialOk, RequestOk,
      ReplyOk, UploadedOk, BaselineOk, LocalStep, PlanOk, LandedOk, Gone, EntriesOk, Fenced, EtagOk, InstalledBy,
      InHistory, Writes, IsValid;
    assert j in s.jobs && s.jobs[j].plan.Some? && s.jobs[j].phase.Uploading?
        && (Publishing(s.jobs[j]) ==> s.jobs[j].confirmed == s.jobs[j].plan.value.files.Keys);
    JobFacts(s, j);
    var s1 := WithPhase(s, j, Committing(1));
    PhaseInv(s, j, Committing(1));
    JobFacts(s1, j);
    CommitRequestOk(s1, j, s.jobs[j].etag);
    SentInv(s1, PutPointer(j, s.jobs[j].plan.value.intended, s.jobs[j].etag));
  }

  lemma SettleFacts(s: State, j: JobId, reply: Reply)
    requires CanSettle(s, j, reply)
    ensures j in s.jobs && s.jobs[j].plan.Some? && s.jobs[j].baseline.Some? && s.jobs[j].phase.Committing?
    ensures Logged(PutPointer(j, s.jobs[j].plan.value.intended, s.jobs[j].etag), reply) in s.replies
  {
  }

  lemma CommittedPhaseOk(s: State, job: Job)
    requires job.baseline.Some? && job.plan.Some?
    ensures job.landed.Some? ==> PhaseOk(s, job, Committed)
    ensures PhaseOk(s, job, Dead)
  {
  }

  lemma WrittenMeansLanded(s: State, j: JobId, doc: CurrentJson, sentEtag: Etag, etag: Etag)
    requires ReplyOk(s, Logged(PutPointer(j, doc, sentEtag), Written(etag))) && j in s.jobs
    ensures s.jobs[j].landed.Some?
  {
  }

  lemma AcknowledgeInv(s: State, j: JobId, etag: Etag)
    requires Inv(s) && CanSettle(s, j, Written(etag))
    ensures Inv(WithPhase(s, j, Committed))
  {
    hide CanSettle, Inv, JobsOk, HistoryOk, CoreOk, PhaseOk, PlansDiffer, NodesOk, SentOk, RepliesOk, Closed,
      FenceOk, SerialOk, RequestOk, ReplyOk, UploadedOk, BaselineOk, LocalStep, PlanOk, LandedOk, Gone, EntriesOk,
      Fenced, EtagOk, InstalledBy, InHistory, Writes, IsValid;
    SettleFacts(s, j, Written(etag));
    var job := s.jobs[j];
    ReplyFacts(s, PutPointer(j, job.plan.value.intended, job.etag), Written(etag));
    WrittenMeansLanded(s, j, job.plan.value.intended, job.etag, etag);
    CommittedPhaseOk(s, job);
    PhaseInv(s, j, Committed);
  }

  /** Seeing the intended document in the bucket means it was installed by this job. */
  lemma SeenMeansLanded(s: State, j: JobId)
    requires Inv(s) && j in s.jobs && s.jobs[j].plan.Some? && s.pointer.Some?
    requires s.pointer.value.doc == s.jobs[j].plan.value.intended
    ensures s.jobs[j].landed == Some(|s.history| - 1)
  {
    hide Inv, JobsOk, PhaseOk, PlansDiffer, NodesOk, SentOk, RepliesOk, Closed, FenceOk, SerialOk, RequestOk,
      ReplyOk, UploadedOk, BaselineOk, LocalStep, PlanOk, Gone, EntriesOk, Fenced, EtagOk, InstalledBy, InHistory,
      Writes, IsValid;
    JobFacts(s, j);
    Parts(s);
    assert s.history[|s.history| - 1].doc.revision == s.jobs[j].plan.value.intended.revision;
  }

  /** A revision identifies an installed document. */
  lemma RevisionIdentifies(s: State, i: nat, k: nat)
    requires HistoryOk(s) && i < |s.history| && k < |s.history|
    requires s.history[i].doc.revision == s.history[k].doc.revision
    ensures i == k
  {
  }

  /** The baseline's revision is current iff the baseline is: the retry never overwrites a stranger. */
  lemma SameRevisionSameDoc(s: State, j: JobId)
    requires Inv(s) && j in s.jobs && s.jobs[j].baseline.Some? && s.pointer.Some?
    requires s.pointer.value.doc.revision == s.jobs[j].baseline.value.revision
    ensures s.pointer.value.doc == s.jobs[j].baseline.value
  {
    hide Inv, JobsOk, PhaseOk, PlansDiffer, NodesOk, SentOk, RepliesOk, Closed, FenceOk, SerialOk, RequestOk,
      ReplyOk, UploadedOk, BaselineOk, LocalStep, PlanOk, LandedOk, Gone, EntriesOk, Fenced, EtagOk, InHistory,
      Writes, IsValid;
    JobFacts(s, j);
    Parts(s);
    var i :| 0 <= i < |s.history| && s.history[i].doc == s.jobs[j].baseline.value && s.history[i].time <= s.jobs[j].start;
    RevisionIdentifies(s, i, |s.history| - 1);
  }

  lemma ReconcileInv(s: State, j: JobId)
    requires Inv(s) && CanSettle(s, j, PreconditionFailed)
    ensures Inv(AfterReconcile(s, j))
  {
    hide CanSettle, Inv, JobsOk, HistoryOk, CoreOk, PhaseOk, PlansDiffer, NodesOk, SentOk, RepliesOk, Closed,
      FenceOk, SerialOk, RequestOk, ReplyOk, UploadedOk, BaselineOk, LocalStep, PlanOk, LandedOk, Gone, EntriesOk,
      Fenced, EtagOk, InstalledBy, InHistory, Writes, IsValid;
    SettleFacts(s, j, PreconditionFailed);
    var job := s.jobs[j];
    CommittedPhaseOk(s, job);
    if s.pointer.None? {
      PhaseInv(s, j, Dead);
    } else if s.pointer.value.doc == job.plan.value.intended {
      SeenMeansLanded(s, j);
      PhaseInv(s, j, Committed);
    } else if s.pointer.value.doc.revision == job.baseline.value.revision && job.phase.attempt < MAX_POINTER_RETRIES {
      SameRevisionSameDoc(s, j);
      ReplyFacts(s, PutPointer(j, job.plan.value.intended, job.etag), PreconditionFailed);
      RetryInv(s, j);
    } else {
      PhaseInv(s, j, Dead);
    }
  }

  lemma RetryInv(s: State, j: JobId)
    requires Inv(s) && j in s.jobs && s.jobs[j].phase.Committing? && s.jobs[j].plan.Some?
    requires s.pointer.Some? && s.jobs[j].baseline == Some(s.pointer.value.doc)
    requires RequestOk(s, PutPointer(j, s.jobs[j].plan.value.intended, s.jobs[j].etag))
    ensures Inv(Retried(s, j))
  {
    hide Inv, JobsOk, HistoryOk, PlansDiffer, NodesOk, SentOk, RepliesOk, Closed, FenceOk, SerialOk, ReplyOk,
      PlanOk, LandedOk, Gone, EntriesOk, Fenced, InstalledBy, InHistory, Writes, IsValid;
    var s1 := s.(jobs := s.jobs[j := s.jobs[j].(phase := Committing(s.jobs[j].phase.attempt + 1),
                                                etag := s.pointer.value.etag)]);
    JobFacts(s, j);
    Parts(s);
    PointerInHistory(s);
    InstalledSame(s, s1, s.pointer.value.doc, s.jobs[j].start);
    LocalInv(s, s1, j);
    CommitRequestOk(s1, j, s.pointer.value.etag);
    SentInv(s1, PutPointer(j, s.jobs[j].plan.value.intended, s.pointer.value.etag));
  }

  // -------------------------------------------------------------------
  // Cleaning up
  // -------------------------------------------------------------------

  /** A listed object is no older than the job that renders its generation. */
  lemma ListedOk(s: State, entries: map<Key, Time>)
    requires Inv(s) && entries == Entries(s)
    ensures EntriesOk(s, entries)
  {
    hide Inv, JobsOk, HistoryOk, PhaseOk, SentOk, RepliesOk, Closed, FenceOk, SerialOk, RequestOk, ReplyOk,
      UploadedOk, BaselineOk, LocalStep, LandedOk, Gone, Fenced, EtagOk, InstalledBy, InHistory, IsValid;
    Parts(s);
    forall k | k in entries
      ensures k.id in s.used
      ensures forall i :: i in s.jobs && Publishing(s.jobs[i]) && s.jobs[i].plan.value.id == k.id ==>
                s.jobs[i].start <= entries[k]
    {
      JobFacts(s, s.nodes[k].job);
    }
  }

  lemma ListInv(s: State, j: JobId)
    requires Inv(s) && CanList(s, j)
    ensures Inv(WithPhase(s, j, Listed(Entries(s))))
  {
    assert j in s.jobs && s.jobs[j].phase.Committed?;
    hide Inv, JobsOk, HistoryOk, CoreOk, PlansDiffer, NodesOk, SentOk, RepliesOk, Closed, FenceOk, SerialOk,
      RequestOk, ReplyOk, UploadedOk, BaselineOk, LocalStep, PlanOk, LandedOk, Gone, EntriesOk, Fenced, EtagOk,
      InstalledBy, InHistory, Writes, IsValid;
    var entries := Entries(s);
    JobFacts(s, j);
    ListedOk(s, entries);
    PhaseInv(s, j, Listed(entries));
  }

  lemma ValidEntryHasNode(doc: CurrentJson, g: GenerationEntry)
    requires IsValid(doc) && (doc.current == Some(g) || doc.previous == Some(g))
    ensures exists h :: h in g.nodes
  {
    assert ValidateEntry(g).Ok?;
    assert |g.nodes.Keys| > 0;
  }

  /** A generation in the pointer has a file, so some job renders it. */
  lemma RetainedHasWriter(s: State, g: string) returns (j: JobId)
    requires Inv(s) && s.pointer.Some? && g in Retained(s.pointer.value.doc)
    ensures j in s.jobs && Publishing(s.jobs[j]) && s.jobs[j].plan.value.id == g
  {
    hide Inv, JobsOk, CoreOk, PhaseOk, PlansDiffer, SentOk, RepliesOk, FenceOk, SerialOk, RequestOk, ReplyOk,
      UploadedOk, BaselineOk, LocalStep, PlanOk, LandedOk, Gone, EntriesOk, Fenced, EtagOk, InstalledBy, InHistory,
      IsValid;
    Parts(s);
    var doc := s.pointer.value.doc;
    assert HistoryEntryOk(s, |s.history| - 1);
    var entry := if doc.current.Some? && doc.current.value.id == g then doc.current.value else doc.previous.value;
    ValidEntryHasNode(doc, entry);
    var h :| h in entry.nodes;
    assert FilesPresent(s.nodes, entry);
    j := s.nodes[Key(h, g)].job;
  }

  /** A job that is still live started after every commit so far. */
  lemma LiveStartedLate(s: State, j: JobId, i: nat)
    requires Inv(s) && j in s.jobs && Live(s, j) && i < |s.history|
    ensures s.history[i].time <= s.jobs[j].start
  {
    hide Inv, JobsOk, PhaseOk, PlansDiffer, NodesOk, SentOk, RepliesOk, Closed, FenceOk, SerialOk, RequestOk,
      ReplyOk, UploadedOk, BaselineOk, LocalStep, PlanOk, LandedOk, Gone, EntriesOk, Fenced, EtagOk, InHistory,
      Writes, IsValid;
    JobFacts(s, j);
    Parts(s);
    var doc := s.jobs[j].baseline.value;
    var k :| 0 <= k < |s.history| && s.history[k].doc == doc && s.history[k].time <= s.jobs[j].start;
    RevisionIdentifies(s, k, |s.history| - 1);
  }

  /** Overlapping jobs: what is old enough to delete was uploaded before the cleaner's own commit, so
      fencing has made it unreachable. */
  lemma OldIsGone(s: State, c: JobId, k: Key, time: Time)
    requires Inv(s) && c in s.jobs && s.jobs[c].landed.Some? && s.jobs[c].plan.Some?
    requires s.jobs[c].landed.value < |s.history| && time == s.history[s.jobs[c].landed.value].time
    requires k.id !in Retained(s.jobs[c].plan.value.intended) && k.id in s.used
    requires forall i :: i in s.jobs && Publishing(s.jobs[i]) && s.jobs[i].plan.value.id == k.id ==>
               s.jobs[i].start < time
    ensures Gone(s, k.id)
  {
    hide Inv, JobsOk, HistoryOk, CoreOk, PhaseOk, PlansDiffer, NodesOk, SentOk, RepliesOk, Closed, SerialOk,
      RequestOk, ReplyOk, UploadedOk, BaselineOk, LocalStep, PlanOk, LandedOk, EntriesOk, EtagOk, InstalledBy,
      InHistory, Writes, IsValid;
    Parts(s);
    assert Fenced(s, c);
    if s.pointer.Some? && k.id in Retained(s.pointer.value.doc) {
      var j := RetainedHasWriter(s, k.id);
    }
    forall j | j in s.jobs && Live(s, j) && Publishing(s.jobs[j]) ensures s.jobs[j].plan.value.id != k.id {
      LiveStartedLate(s, j, s.jobs[c].landed.value);
    }
  }

  /** Serialized jobs: while the cleaner runs its commit is the pointer and nobody else may publish. */
  lemma UnretainedIsGone(s: State, c: JobId, g: string)
    requires Inv(s) && s.regime.Serialized? && c in s.jobs && !Ended(s.jobs[c].phase)
    requires s.jobs[c].landed.Some? && s.jobs[c].plan.Some?
    requires g !in Retained(s.jobs[c].plan.value.intended) && g in s.used
    ensures Gone(s, g)
  {
    hide Inv, JobsOk, HistoryOk, CoreOk, PhaseOk, PlansDiffer, NodesOk, SentOk, RepliesOk, Closed, FenceOk,
      RequestOk, ReplyOk, UploadedOk, BaselineOk, LocalStep, PlanOk, LandedOk, EntriesOk, Fenced, EtagOk, InstalledBy,
      InHistory, Writes, IsValid;
    Parts(s);
  }

  lemma InstalledInPast(s: State, i: nat)
    requires HistoryOk(s) && i < |s.history|
    ensures s.history[i].time <= s.clock
  {
    assert HistoryEntryOk(s, i);
  }

  lemma RegimeIsTimely(s: State)
    requires Inv(s)
    ensures IsTimely(s.regime)
  {
    hide JobsOk, HistoryOk, PlansDiffer, NodesOk, SentOk, RepliesOk, Closed, FenceOk;
  }

  lemma ClassifyInv(s: State, c: JobId)
    requires Inv(s) && CanClassify(s, c)
    ensures Inv(AfterClassify(s, c))
  {
    hide Inv, JobsOk, HistoryOk, CoreOk, PlansDiffer, NodesOk, SentOk, RepliesOk, Closed, FenceOk, SerialOk,
      RequestOk, ReplyOk, UploadedOk, BaselineOk, LocalStep, PlanOk, LandedOk, Gone, Fenced, EtagOk, InstalledBy,
      InHistory, Writes, IsValid;
    var job := s.jobs[c];
    assert c in s.jobs && job.phase.Listed? && job.plan.Some? && job.landed.Some? && job.landed.value < |s.history|;
    var time := s.history[job.landed.value].time;
    RegimeIsTimely(s);
    assert s.regime.Overlapping? ==> s.clock < time + job.grace;
    JobFacts(s, c);
    var doomed := DoomedKeys(job.phase.entries, job.plan.value.intended, s.clock, job.grace);
    forall k | k in doomed ensures Gone(s, k.id) {
      if s.regime.Overlapping? {
        Parts(s);
        InstalledInPast(s, job.landed.value);
        assert job.phase.entries[k] < time;
        OldIsGone(s, c, k, time);
      } else {
        UnretainedIsGone(s, c, k.id);
      }
    }
    PhaseInv(s, c, Cleaning(doomed));
  }

  lemma SendDeleteInv(s: State, j: JobId, k: Key)
    requires Inv(s) && CanDelete(s, j, k)
    ensures Inv(s.(sent := s.sent + {DeleteNode(j, k)}))
  {
    assert j in s.jobs && s.jobs[j].phase.Cleaning? && k in s.jobs[j].phase.doomed;
    hide Inv, JobsOk, HistoryOk, CoreOk, PlansDiffer, NodesOk, SentOk, RepliesOk, Closed, FenceOk, SerialOk,
      ReplyOk, UploadedOk, BaselineOk, LocalStep, PlanOk, LandedOk, Gone, EntriesOk, Fenced, EtagOk, InstalledBy,
      InHistory, Writes, IsValid;
    JobFacts(s, j);
    SentInv(s, DeleteNode(j, k));
  }

  lemma EndInv(s: State, j: JobId)
    requires Inv(s) && j in s.jobs
    ensures s.jobs[j].phase.Committed? || s.jobs[j].phase.Listed? || s.jobs[j].phase.Cleaning? ==>
              Inv(WithPhase(s, j, Finished))
    ensures Inv(WithPhase(s, j, Dead))
  {
    hide Inv, JobsOk, HistoryOk, CoreOk, PlansDiffer, NodesOk, SentOk, RepliesOk, Closed, FenceOk, SerialOk,
      RequestOk, ReplyOk, UploadedOk, BaselineOk, LocalStep, PlanOk, LandedOk, Gone, EntriesOk, Fenced, EtagOk,
      InstalledBy, InHistory, Writes, IsValid;
    JobFacts(s, j);
    if s.jobs[j].phase.Committed? || s.jobs[j].phase.Listed? || s.jobs[j].phase.Cleaning? {
      PhaseInv(s, j, Finished);
    }
    PhaseInv(s, j, Dead);
  }
}
