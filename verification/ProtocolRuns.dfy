/** Runs from one state to another, one step at a time. */
module ProtocolRuns {
  import opened Outcomes
  import opened Discovery
  import opened Protocol
  import Base32

  /** Some sequence of steps leads from `s` to `t`. */
  ghost predicate Leads(s: State, t: State) {
    exists run, steps :: IsPath(s, run, steps, t)
  }

  ghost predicate IsPath(s: State, run: seq<State>, steps: seq<Step>, t: State) {
    Follows(run, steps) && run[0] == s && run[|steps|] == t
  }

  lemma LeadsNowhere(s: State)
    ensures Leads(s, s)
  {
    assert IsPath(s, [s], [], s);
  }

  lemma Extend(from: State, s: State, step: Step)
    requires Leads(from, s) && Enabled(s, step)
    ensures Leads(from, Do(s, step))
  {
    hide Enabled, Do;
    var run, steps :| IsPath(from, run, steps, s);
    var t := Do(s, step);
    assert IsPath(from, run + [t], steps + [step], t);
  }

  // One lemma per kind of step: what it takes, and what it makes.

  lemma ByStart(from: State, s: State, j: JobId, grace: Time, t: State)
    requires Leads(from, s) && CanStart(s, j) && t == AfterStart(s, j, grace)
    ensures Leads(from, t)
  {
    hide Leads, Base32.IsCanonical, IsValid, PlanFor, DesiredFiles;
    Extend(from, s, Start(j, grace));
  }

  lemma ByFetch(from: State, s: State, j: JobId, t: State)
    requires Leads(from, s) && CanFetch(s, j) && t == AfterFetch(s, j)
    ensures Leads(from, t)
  {
    hide Leads, Base32.IsCanonical, IsValid, PlanFor, DesiredFiles;
    Extend(from, s, Fetch(j));
  }

  lemma ByProbe(from: State, s: State, j: JobId, rev: string, t: State)
    requires Leads(from, s) && CanProbe(s, j, rev) && t == AfterProbe(s, j, rev)
    ensures Leads(from, t)
  {
    hide Leads, Base32.IsCanonical, IsValid, PlanFor, DesiredFiles;
    Extend(from, s, Probe(j, rev));
  }

  lemma ByAdoptOwn(from: State, s: State, j: JobId, etag: Etag, t: State)
    requires Leads(from, s) && CanAdopt(s, j, Written(etag)) && t == AfterAdoptOwn(s, j, etag)
    ensures Leads(from, t)
  {
    hide Leads, Base32.IsCanonical, IsValid, PlanFor, DesiredFiles;
    Extend(from, s, AdoptOwn(j, etag));
  }

  lemma ByPlan(from: State, s: State, j: JobId, files: map<string, string>, id: string, rev: string, t: State)
    requires Leads(from, s) && CanPlan(s, j, files, id, rev) && t == AfterPlan(s, j, files, id, rev)
    ensures Leads(from, t)
  {
    hide Leads, Base32.IsCanonical, IsValid, PlanFor, DesiredFiles;
    Extend(from, s, MakePlan(j, files, id, rev));
  }

  lemma BySendPut(from: State, s: State, j: JobId, h: string, t: State)
    requires Leads(from, s) && CanUpload(s, j, h) && t == AfterSendPut(s, j, h)
    ensures Leads(from, t)
  {
    hide Leads, Base32.IsCanonical, IsValid, PlanFor, DesiredFiles;
    Extend(from, s, SendPut(j, h));
  }

  lemma ByConfirm(from: State, s: State, j: JobId, h: string, reply: Reply, t: State)
    requires Leads(from, s) && CanConfirm(s, j, h, reply) && t == AfterConfirm(s, j, h, reply)
    ensures Leads(from, t)
  {
    hide Leads, Base32.IsCanonical, IsValid, PlanFor, DesiredFiles;
    Extend(from, s, Confirm(j, h, reply));
  }

  lemma BySendCommit(from: State, s: State, j: JobId, t: State)
    requires Leads(from, s) && CanSendCommit(s, j) && t == AfterSendCommit(s, j)
    ensures Leads(from, t)
  {
    hide Leads, Base32.IsCanonical, IsValid, PlanFor, DesiredFiles;
    Extend(from, s, SendCommit(j));
  }

  lemma ByAcknowledge(from: State, s: State, j: JobId, etag: Etag, t: State)
    requires Leads(from, s) && CanSettle(s, j, Written(etag)) && t == WithPhase(s, j, Committed)
    ensures Leads(from, t)
  {
    hide Leads, Base32.IsCanonical, IsValid, PlanFor, DesiredFiles;
    Extend(from, s, Acknowledge(j, etag));
  }

  lemma ByList(from: State, s: State, j: JobId, t: State)
    requires Leads(from, s) && CanList(s, j) && t == WithPhase(s, j, Listed(Entries(s)))
    ensures Leads(from, t)
  {
    hide Leads, Base32.IsCanonical, IsValid, PlanFor, DesiredFiles;
    Extend(from, s, ListNodes(j));
  }

  lemma ByClassify(from: State, s: State, j: JobId, t: State)
    requires Leads(from, s) && CanClassify(s, j) && t == AfterClassify(s, j)
    ensures Leads(from, t)
  {
    hide Leads, Base32.IsCanonical, IsValid, PlanFor, DesiredFiles;
    Extend(from, s, Classify(j));
  }

  lemma ByDelete(from: State, s: State, j: JobId, k: Key, t: State)
    requires Leads(from, s) && CanDelete(s, j, k) && t == s.(sent := s.sent + {DeleteNode(j, k)})
    ensures Leads(from, t)
  {
    hide Leads, Base32.IsCanonical, IsValid, PlanFor, DesiredFiles;
    Extend(from, s, SendDelete(j, k));
  }

  lemma ByLand(from: State, s: State, r: Request, t: State)
    requires Leads(from, s) && r in s.sent && t == Receive(s, r)
    ensures Leads(from, t)
  {
    hide Leads, Base32.IsCanonical, IsValid, PlanFor, DesiredFiles;
    Extend(from, s, Land(r));
  }
}
