/** Nothing that has happened in the bucket keeps a later job from publishing, and a commit whose precondition failed is
    settled by what the bucket says. */
module ProtocolProgress {
  import opened Outcomes
  import opened Discovery
  import opened Protocol
  import opened ProtocolSteps
  import opened ProtocolLanding
  import opened ProtocolInvariant
  import opened ProtocolTheorems
  import opened ProtocolRuns
  import Base32
  import Hostname

  // -------------------------------------------------------------------
  // Settling a commit
  // -------------------------------------------------------------------

  /** A job whose precondition failed: its own document there means success, the baseline there means another try with the
      etag that is there, up to five tries, and anything else means giving up. */
  lemma ReconcileExactly(s: State, j: JobId)
    requires CanSettle(s, j, PreconditionFailed) && s.pointer.Some?
    ensures var job, after := s.jobs[j], Do(s, Reconcile(j)).jobs[j];
            && (after.phase.Committed? <==> s.pointer.value.doc == job.plan.value.intended)
            && (after.phase.Committing? <==>
                  && s.pointer.value.doc != job.plan.value.intended
                  && s.pointer.value.doc.revision == job.baseline.value.revision && job.phase.attempt < 5)
            && (after.phase.Dead? <==> !after.phase.Committed? && !after.phase.Committing?)
            && (after.phase.Committing? ==> after.etag == s.pointer.value.etag)
  {
    hide CanFetch, AfterFetch, CanProbe, AfterProbe, CanAdopt, CanPlan, AfterPlan, CanUpload, CanConfirm, AfterConfirm,
      CanSendCommit, CanList, CanClassify, AfterClassify, CanDelete, Receive, Rewritten, CanStart;
  }

  /** A try with the etag that is there takes effect as soon as it arrives. */
  lemma RetryLands(s: State, j: JobId)
    requires CanSettle(s, j, PreconditionFailed) && s.pointer.Some?
    requires s.pointer.value.doc != s.jobs[j].plan.value.intended && s.jobs[j].phase.attempt < 5
    requires s.pointer.value.doc.revision == s.jobs[j].baseline.value.revision
    ensures var t := AfterReconcile(s, j);
            && CommitRequest(t, j, t.jobs[j].etag) in t.sent
            && var u := Receive(t, CommitRequest(t, j, t.jobs[j].etag));
               u.pointer.Some? && u.pointer.value.doc == s.jobs[j].plan.value.intended
               && u.jobs[j].landed == Some(|s.history|)
  {
  }

  // -------------------------------------------------------------------
  // Lost races
  // -------------------------------------------------------------------

  /** An upload that finds its file in the way, because an earlier copy of the request created it, is confirmed: in no
      reachable state is the file anything but the intended one. */
  lemma RepeatedUploadIsConfirmed(run: seq<State>, steps: seq<Step>, i: nat, j: JobId, h: string)
    requires IsRun(run, steps) && i < |run| && CanConfirm(run[i], j, h, PreconditionFailed)
    requires Key(h, run[i].jobs[j].plan.value.id) in run[i].nodes
    ensures var t := Do(run[i], Confirm(j, h, PreconditionFailed));
            t.jobs[j] == run[i].jobs[j].(confirmed := run[i].jobs[j].confirmed + {h})
  {
    hide IsRun, Inv;
    RunInv(run, steps, i);
    OwnFile(run[i], j, h);
  }

  lemma OwnFile(s: State, j: JobId, h: string)
    requires Inv(s) && CanUpload(s, j, h) && Key(h, s.jobs[j].plan.value.id) in s.nodes
    ensures s.nodes[Key(h, s.jobs[j].plan.value.id)].body == s.jobs[j].plan.value.files[h]
  {
    hide Inv, JobsOk, HistoryOk, PhaseOk, SentOk, RepliesOk, Closed, FenceOk, SerialOk, CoreOk;
    Parts(s);
  }

  /** An upload whose file is gone by the time it looks ends the job. */
  lemma MissingUploadEndsJob(s: State, j: JobId, h: string)
    requires CanConfirm(s, j, h, PreconditionFailed) && Key(h, s.jobs[j].plan.value.id) !in s.nodes
    ensures Do(s, Confirm(j, h, PreconditionFailed)).jobs[j].phase.Dead?
  {
    hide CanFetch, AfterFetch, CanProbe, AfterProbe, CanAdopt, CanPlan, AfterPlan, CanSendCommit, CanSettle, CanList,
      CanClassify, AfterClassify, CanDelete, Receive, Rewritten, CanStart;
  }

  /** A job that loses the race to initialize the bucket goes on from the pointer that won. */
  lemma LostInitializationAdopts(run: seq<State>, steps: seq<Step>, i: nat, j: JobId)
    requires IsRun(run, steps) && i < |run| && CanAdopt(run[i], j, PreconditionFailed)
    ensures var s, t := run[i], Do(run[i], AdoptOther(j));
            && s.pointer.Some? && t.jobs[j].phase.Planning?
            && t.jobs[j].baseline == Some(s.pointer.value.doc) && t.jobs[j].etag == s.pointer.value.etag
  {
    hide IsRun, Inv, IsValid;
    RunInv(run, steps, i);
    Parts(run[i]);
    ReplyFacts(run[i], InitPointer(j, run[i].jobs[j].phase.doc), PreconditionFailed);
    PointerFacts(run[i]);
  }

  // -------------------------------------------------------------------
  // A later job
  // -------------------------------------------------------------------

  /** Job `j` has read the pointer that is there and made its plan; the files in `done` are uploaded and confirmed, and
      nothing stands in the way of the others. */
  ghost predicate IsUploading(s: State, j: JobId, doc: CurrentJson, plan: Plan, done: set<string>) {
    && j in s.jobs && s.jobs[j].phase.Uploading? && s.jobs[j].plan == Some(plan)
    && s.jobs[j].baseline == Some(doc) && s.pointer == Some(Stored(doc, s.jobs[j].etag))
    && s.jobs[j].confirmed == done
    && (plan.Publish? ==> done <= plan.files.Keys
                          && forall h :: h in plan.files && h !in done ==> Key(h, plan.id) !in s.nodes)
  }

  lemma UploadOne(from: State, s: State, j: JobId, doc: CurrentJson, plan: Plan, done: set<string>, h: string)
    returns (t: State)
    requires Leads(from, s) && IsUploading(s, j, doc, plan, done) && plan.Publish? && h in plan.files && h !in done
    ensures Leads(from, t) && IsUploading(t, j, doc, plan, done + {h})
  {
    hide Leads;
    var r := FileRequest(j, plan, h);
    var sent := AfterSendPut(s, j, h);
    BySendPut(from, s, j, h, sent);
    var landed := Receive(sent, r);
    ByLand(from, sent, r, landed);
    t := AfterConfirm(landed, j, h, Written(s.nextEtag));
    ByConfirm(from, landed, j, h, Written(s.nextEtag), t);
  }

  lemma {:induction false} UploadAll(from: State, s: State, j: JobId, doc: CurrentJson, plan: Plan, done: set<string>)
    returns (t: State)
    requires Leads(from, s) && IsUploading(s, j, doc, plan, done) && plan.Publish?
    ensures Leads(from, t) && IsUploading(t, j, doc, plan, plan.files.Keys)
    decreases plan.files.Keys - done
  {
    hide Leads;
    var left := plan.files.Keys - done;
    if left == {} {
      assert forall h :: h in plan.files.Keys ==> h !in left ==> h in done;
      assert done == plan.files.Keys;
      t := s;
    } else {
      var h :| h in left;
      var u := UploadOne(from, s, j, doc, plan, done, h);
      assert plan.files.Keys - (done + {h}) < plan.files.Keys - done;
      t := UploadAll(from, u, j, doc, plan, done + {h});
    }
  }

  lemma CommitAll(from: State, s: State, j: JobId, doc: CurrentJson, plan: Plan, done: set<string>) returns (t: State)
    requires Leads(from, s) && IsUploading(s, j, doc, plan, done) && (plan.Publish? ==> done == plan.files.Keys)
    ensures Leads(from, t) && j in t.jobs && t.jobs[j].phase.Committed?
    ensures t.pointer.Some? && t.pointer.value.doc == plan.intended
  {
    hide Leads;
    var etag := s.jobs[j].etag;
    var sent := AfterSendCommit(s, j);
    BySendCommit(from, s, j, sent);
    var r := CommitRequest(s, j, etag);
    var landed := Receive(sent, r);
    ByLand(from, sent, r, landed);
    t := WithPhase(landed, j, Committed);
    ByAcknowledge(from, landed, j, s.nextEtag, t);
  }

  /** What a job needs of its random values. */
  predicate IsFreshFor(s: State, id: string, rev: string, first: string) {
    && id !in s.used && rev !in s.used && first !in s.used && id != rev && id != first && rev != first
    && Base32.IsCanonical(id) && Base32.IsCanonical(rev) && Base32.IsCanonical(first)
  }

  /** Job `j` has read the pointer. */
  ghost predicate IsPlanning(s: State, t: State, j: JobId, doc: CurrentJson) {
    && j in t.jobs && t.jobs[j].phase.Planning? && t.jobs[j].baseline == Some(doc) && t.jobs[j].confirmed == {}
    && t.pointer == Some(Stored(doc, t.jobs[j].etag)) && t.nodes == s.nodes && s.used <= t.used
  }

  lemma BeginWithPointer(s: State, j: JobId, grace: Time) returns (t: State)
    requires Inv(s) && CanStart(s, j) && s.pointer.Some?
    ensures Leads(s, t) && IsPlanning(s, t, j, s.pointer.value.doc) && t.used == s.used
    ensures IsValid(s.pointer.value.doc)
  {
    hide Leads, Inv, IsValid;
    Parts(s);
    PointerFacts(s);
    LeadsNowhere(s);
    var started := AfterStart(s, j, grace);
    ByStart(s, s, j, grace, started);
    t := AfterFetch(started, j);
    ByFetch(s, started, j, t);
  }

  /** Without a pointer there are no node files either, so an empty bucket is initialized. */
  lemma BeginEmpty(s: State, j: JobId, grace: Time, first: string) returns (t: State)
    requires Inv(s) && CanStart(s, j) && s.pointer.None? && first !in s.used && Base32.IsCanonical(first)
    ensures Leads(s, t) && IsPlanning(s, t, j, Empty(first)) && t.used == s.used + {first} && IsValid(Empty(first))
  {
    hide Leads, Inv, Base32.IsCanonical;
    NoOrphans(s);
    LeadsNowhere(s);
    var started := AfterStart(s, j, grace);
    ByStart(s, s, j, grace, started);
    var probing := AfterFetch(started, j);
    ByFetch(s, started, j, probing);
    var initializing := AfterProbe(probing, j, first);
    ByProbe(s, probing, j, first, initializing);
    var r := InitPointer(j, Empty(first));
    var landed := Receive(initializing, r);
    ByLand(s, initializing, r, landed);
    t := AfterAdoptOwn(landed, j, s.nextEtag);
    ByAdoptOwn(s, landed, j, s.nextEtag, t);
  }

  /** A reachable bucket without a pointer holds no node files: jobs are never refused for orphaned generations. */
  lemma NoOrphans(s: State)
    requires Inv(s) && s.pointer.None?
    ensures s.nodes == map[]
  {
    hide Inv, JobsOk, HistoryOk, PhaseOk, PlansDiffer, SentOk, RepliesOk, Closed, FenceOk, SerialOk, CoreOk;
    Parts(s);
    forall k | k in s.nodes ensures false {
      NoBaselines(s, s.nodes[k].job);
    }
  }

  lemma FreshKeyIsFree(s: State, id: string)
    requires Inv(s) && id !in s.used
    ensures forall h :: Key(h, id) !in s.nodes
  {
    hide Inv, JobsOk, HistoryOk, PhaseOk, PlansDiffer, SentOk, RepliesOk, Closed, FenceOk, SerialOk, LandedOk, UploadedOk,
      IsValid, InstalledBy, EtagOk;
    Parts(s);
    forall h ensures Key(h, id) !in s.nodes {
      if Key(h, id) in s.nodes {
        JobFacts(s, s.nodes[Key(h, id)].job);
      }
    }
  }

  lemma PlanNext(from: State, s: State, t: State, j: JobId, doc: CurrentJson, files: map<string, string>, id: string,
                 rev: string)
    returns (u: State)
    requires Inv(s) && Leads(from, t) && IsPlanning(s, t, j, doc) && DesiredFiles(files)
    requires id !in t.used && rev !in t.used && id != rev && Base32.IsCanonical(id) && Base32.IsCanonical(rev)
    ensures Leads(from, u) && IsUploading(u, j, doc, PlanFor(doc, files, id, rev), {})
  {
    hide Leads, Inv, Base32.IsCanonical, DesiredFiles, Digests, Unchanged;
    FreshKeyIsFree(s, id);
    u := AfterPlan(t, j, files, id, rev);
    ByPlan(from, t, j, files, id, rev, u);
  }

  /** From every reachable state, whatever jobs died or still run and whatever requests are still under way, a new job can
      publish any desired files: some run of it alone ends with its pointer installed and itself committed. */
  lemma EveryStateCanPublish(run: seq<State>, steps: seq<Step>, i: nat, j: JobId, grace: Time, files: map<string, string>,
                             id: string, rev: string, first: string)
    returns (t: State)
    requires IsRun(run, steps) && i < |run| && CanStart(run[i], j)
    requires DesiredFiles(files) && IsFreshFor(run[i], id, rev, first)
    ensures Leads(run[i], t) && j in t.jobs && t.jobs[j].phase.Committed?
    ensures t.pointer.Some? && t.pointer.value.doc.current.Some?
    ensures t.pointer.value.doc.current.value.nodes == Digests(files)
    ensures run[i].pointer.Some? && run[i].pointer.value.doc.current.Some?
              && run[i].pointer.value.doc.current.value.nodes != Digests(files) ==>
              t.pointer.value.doc.previous == run[i].pointer.value.doc.current
  {
    hide IsRun, Leads, Inv, DesiredFiles, Base32.IsCanonical, Digests, IsUploading, CanStart, IsValid;
    RunInv(run, steps, i);
    var s := run[i];
    var doc := if s.pointer.Some? then s.pointer.value.doc else Empty(first);
    var begun;
    if s.pointer.Some? {
      begun := BeginWithPointer(s, j, grace);
    } else {
      begun := BeginEmpty(s, j, grace, first);
    }
    var plan := PlanFor(doc, files, id, rev);
    var planned := PlanNext(s, s, begun, j, doc, files, id, rev);
    if plan.Publish? {
      var uploaded := UploadAll(s, planned, j, doc, plan, {});
      t := CommitAll(s, uploaded, j, doc, plan, plan.files.Keys);
    } else {
      t := CommitAll(s, planned, j, doc, plan, {});
    }
  }
}
