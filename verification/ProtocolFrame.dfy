/** Steps that change no more than one job's local state keep the protocol invariant. */
module ProtocolFrame {
  import opened Outcomes
  import opened Protocol

  /** The parts of a job that other parts of the invariant look at. */
  predicate SameView(a: Job, b: Job) {
    && a.plan == b.plan && a.landed == b.landed
    && (a.baseline == b.baseline || (a.plan.None? && !Ended(a.phase)))
    && (a.start == b.start || a.plan.None?)
    && (a.confirmed == b.confirmed
        || (a.confirmed <= b.confirmed && Publishing(b) && b.confirmed <= b.plan.value.files.Keys))
    && (Ended(a.phase) ==> Ended(b.phase))
  }

  /** `t` differs from `s` only in job `j`'s local state, the clock, and added ids and requests. */
  ghost predicate LocalStep(s: State, t: State, j: JobId) {
    && t.regime == s.regime && t.pointer == s.pointer && t.nodes == s.nodes && t.history == s.history
    && t.replies == s.replies && t.nextEtag == s.nextEtag
    && s.clock <= t.clock && s.used <= t.used && s.sent <= t.sent
    && t.jobs.Keys == s.jobs.Keys
    && (forall i :: i in s.jobs && i != j ==> t.jobs[i] == s.jobs[i])
    && (forall i :: i in s.jobs ==> SameView(s.jobs[i], t.jobs[i]))
  }

  lemma LocalGone(s: State, t: State, j: JobId, g: string)
    requires LocalStep(s, t, j) && Gone(s, g)
    ensures Gone(t, g)
  {
  }

  lemma LocalHistory(s: State, t: State, j: JobId)
    requires LocalStep(s, t, j) && HistoryOk(s)
    ensures HistoryOk(t)
  {
    forall i | 0 <= i < |t.history| ensures HistoryEntryOk(t, i) {
      assert HistoryEntryOk(s, i);
    }
  }

  predicate SameBaseline(a: Job, b: Job) {
    a.baseline == b.baseline && a.start == b.start && a.etag == b.etag
  }

  ghost predicate BaselineOk(s: State, job: Job) {
    job.baseline.Some? ==>
      InstalledBy(s, job.baseline.value, job.start) && EtagOk(s, job, job.etag) && job.start <= s.clock
  }

  lemma LocalCore(s: State, t: State, j: JobId, i: JobId)
    requires LocalStep(s, t, j) && i in s.jobs && CoreOk(s, i)
    requires SameBaseline(s.jobs[i], t.jobs[i]) || BaselineOk(t, t.jobs[i])
    requires t.jobs[i].confirmed != s.jobs[i].confirmed ==> UploadedOk(t, i)
    ensures CoreOk(t, i)
  {
    var job := t.jobs[i];
    assert BaselineOk(s, s.jobs[i]);
    if job.plan.Some? {
      assert PlanOk(t, job);
      assert LandedOk(t, i, job);
    }
    assert UploadedOk(t, i);
  }

  lemma LocalPhase(s: State, t: State, j: JobId, i: JobId, p: Phase)
    requires LocalStep(s, t, j) && i in s.jobs && PhaseOk(s, t.jobs[i], p)
    ensures PhaseOk(t, t.jobs[i], p)
  {
    if p.Cleaning? {
      forall k | k in p.doomed ensures Gone(t, k.id) {
        LocalGone(s, t, j, k.id);
      }
    }
    if p.Listed? {
      assert EntriesOk(t, p.entries);
    }
  }

  lemma LocalRequest(s: State, t: State, j: JobId, r: Request)
    requires LocalStep(s, t, j) && RequestOk(s, r)
    ensures RequestOk(t, r)
  {
    if r.DeleteNode? {
      LocalGone(s, t, j, r.key.id);
    }
  }

  lemma LocalReplies(s: State, t: State, j: JobId)
    requires LocalStep(s, t, j) && RepliesOk(s)
    ensures RepliesOk(t)
  {
    forall l | l in t.replies ensures ReplyOk(t, l) {
      assert ReplyOk(s, l);
    }
  }

  lemma LocalRest(s: State, t: State, j: JobId)
    requires LocalStep(s, t, j)
    ensures PlansDiffer(s) ==> PlansDiffer(t)
    ensures NodesOk(s) ==> NodesOk(t)
    ensures Closed(s) ==> Closed(t)
  {
  }

  lemma LocalFence(s: State, t: State, j: JobId)
    requires LocalStep(s, t, j) && FenceOk(s)
    ensures FenceOk(t)
  {
    forall c | c in t.jobs ensures Fenced(t, c) {
      assert Fenced(s, c);
    }
  }

  lemma LocalSerial(s: State, t: State, j: JobId)
    requires LocalStep(s, t, j) && SerialOk(s)
    ensures SerialOk(t)
  {
  }

  /** A local step keeps the invariant if the stepping job itself and its new requests are in order. */
  lemma LocalInv(s: State, t: State, j: JobId)
    requires Inv(s) && LocalStep(s, t, j)
    requires j in s.jobs ==> PhaseOk(s, t.jobs[j], t.jobs[j].phase)
    requires j in s.jobs && !SameBaseline(s.jobs[j], t.jobs[j]) ==> BaselineOk(t, t.jobs[j])
    requires j in s.jobs && t.jobs[j].confirmed != s.jobs[j].confirmed ==> UploadedOk(t, j)
    requires forall r :: r in t.sent && r !in s.sent ==> RequestOk(t, r)
    ensures Inv(t)
  {
    hide HistoryOk, PhaseOk, CoreOk, PlansDiffer, NodesOk, Closed, RepliesOk, FenceOk, SerialOk, RequestOk,
      UploadedOk, BaselineOk;
    LocalHistory(s, t, j);
    LocalReplies(s, t, j);
    LocalRest(s, t, j);
    LocalFence(s, t, j);
    LocalSerial(s, t, j);
    forall i | i in t.jobs ensures JobOk(t, i) {
      assert JobOk(s, i);
      LocalCore(s, t, j, i);
      LocalPhase(s, t, j, i, t.jobs[i].phase);
    }
    forall r | r in t.sent ensures RequestOk(t, r) {
      if r in s.sent {
        LocalRequest(s, t, j, r);
      }
    }
  }

  lemma PhaseStep(s: State, j: JobId, p: Phase)
    requires j in s.jobs
    requires Ended(s.jobs[j].phase) ==> Ended(p)
    ensures LocalStep(s, WithPhase(s, j, p), j)
  {
  }

  /** The stepping job only changes its phase. */
  lemma PhaseInv(s: State, j: JobId, p: Phase)
    requires Inv(s) && j in s.jobs
    requires Ended(s.jobs[j].phase) ==> Ended(p)
    requires PhaseOk(s, s.jobs[j], p)
    ensures Inv(WithPhase(s, j, p))
  {
    PhaseStep(s, j, p);
    hide Inv, UploadedOk, BaselineOk, RequestOk, LocalStep;
    LocalInv(s, WithPhase(s, j, p), j);
  }

  /** A new request in order is sent. */
  lemma SentInv(s: State, r: Request)
    requires Inv(s) && RequestOk(s, r)
    ensures Inv(s.(sent := s.sent + {r}))
  {
    hide Inv, CoreOk, PhaseOk, RequestOk, UploadedOk, BaselineOk;
    var t := s.(sent := s.sent + {r});
    var j: JobId := 0;
    AnyPhaseOk(s, j);
    assert LocalStep(s, t, j);
    LocalRequest(s, t, j, r);
    LocalInv(s, t, j);
  }

  lemma AnyPhaseOk(s: State, j: JobId)
    requires Inv(s)
    ensures j in s.jobs ==> PhaseOk(s, s.jobs[j], s.jobs[j].phase)
  {
    hide HistoryOk, CoreOk, PhaseOk, PlansDiffer, NodesOk, SentOk, Closed, RepliesOk, FenceOk, SerialOk;
    if j in s.jobs {
      assert JobOk(s, j);
    }
  }

  lemma TickInv(s: State)
    requires Inv(s)
    ensures Inv(s.(clock := s.clock + 1))
  {
    hide Inv, CoreOk, PhaseOk, RequestOk, UploadedOk, BaselineOk;
    var t := s.(clock := s.clock + 1);
    var j: JobId := 0;
    AnyPhaseOk(s, j);
    LocalInv(s, t, j);
  }
}
