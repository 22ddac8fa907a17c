/** The bound on how late a cleaner may read its clock is exact: with overlapping jobs, one moment more lets a
    cleanup delete a file of a generation that another job is about to publish. */
module ProtocolBound {
  import opened Outcomes
  import opened Discovery
  import opened Protocol
  import opened ProtocolTheorems
  import opened ProtocolRuns
  import ProtocolLanding
  import Base32
  import Hostname

  /** Some run in this regime reaches `s`. */
  ghost predicate Reaches(regime: Regime, s: State) {
    exists clock :: Leads(Initial(regime, clock), s)
  }

  // -------------------------------------------------------------------
  // The cast: two jobs, one host, five fresh identifiers
  // -------------------------------------------------------------------

  const HOST: string := "a"
  const FIRST: map<string, string> := map[HOST := "x"]
  const SECOND: map<string, string> := map[HOST := "y"]

  datatype Cast = Cast(r0: string, r1: string, r2: string, g1: string, g2: string, grace: Time, slack: Time)

  predicate CastOk(c: Cast) {
    && Base32.IsCanonical(c.r0) && Base32.IsCanonical(c.r1) && Base32.IsCanonical(c.r2)
    && Base32.IsCanonical(c.g1) && Base32.IsCanonical(c.g2)
    && c.r0 != c.r1 && c.r0 != c.r2 && c.r0 != c.g1 && c.r0 != c.g2 && c.r1 != c.r2
    && c.r1 != c.g1 && c.r1 != c.g2 && c.r2 != c.g1 && c.r2 != c.g2 && c.g1 != c.g2
    && c.slack > 0
  }

  function RegimeOf(c: Cast): Regime {
    Overlapping(c.slack)
  }

  function Origin(c: Cast): State {
    Initial(RegimeOf(c), 0)
  }

  function Doc0(c: Cast): CurrentJson {
    Empty(c.r0)
  }

  function Entry1(c: Cast): GenerationEntry {
    GenerationEntry(c.g1, Digests(FIRST))
  }

  function Entry2(c: Cast): GenerationEntry {
    GenerationEntry(c.g2, Digests(SECOND))
  }

  function Doc1(c: Cast): CurrentJson {
    CurrentJson(SCHEMA_VERSION, c.r1, Some(Entry1(c)), None)
  }

  function Doc2(c: Cast): CurrentJson {
    CurrentJson(SCHEMA_VERSION, c.r2, Some(Entry2(c)), Some(Entry1(c)))
  }

  function Job1(c: Cast, phase: Phase, confirmed: set<string>, landed: Option<nat>): Job {
    Job(phase, c.grace, Some(Doc0(c)), 0, 0, Some(Publish(Doc1(c), c.g1, FIRST)), confirmed, landed)
  }

  function Job2(c: Cast, phase: Phase, confirmed: set<string>, landed: Option<nat>): Job {
    Job(phase, c.grace, Some(Doc1(c)), 2, 0, Some(Publish(Doc2(c), c.g2, SECOND)), confirmed, landed)
  }

  function Init(c: Cast): Request {
    InitPointer(1, Doc0(c))
  }

  function Put1(c: Cast): Request {
    PutNode(1, Key(HOST, c.g1), "x")
  }

  function Commit1(c: Cast): Request {
    PutPointer(1, Doc1(c), 0)
  }

  function Put2(c: Cast): Request {
    PutNode(2, Key(HOST, c.g2), "y")
  }

  function Commit2(c: Cast): Request {
    PutPointer(2, Doc2(c), 2)
  }

  lemma CastFacts(c: Cast)
    requires CastOk(c)
    ensures IsValid(Doc0(c)) && IsValid(Doc1(c))
    ensures DesiredFiles(FIRST) && DesiredFiles(SECOND)
    ensures PlanFor(Doc0(c), FIRST, c.g1, c.r1) == Publish(Doc1(c), c.g1, FIRST)
    ensures PlanFor(Doc1(c), SECOND, c.g2, c.r2) == Publish(Doc2(c), c.g2, SECOND)
  {
    hide Base32.IsCanonical;
    assert Hostname.IsValid(HOST);
    assert |FIRST| == 1 && |SECOND| == 1;
    assert Digests(FIRST)[HOST] != Digests(SECOND)[HOST];
    ProtocolLanding.IntendedValid(Doc0(c), FIRST, c.g1, c.r1);
  }

  lemma IdsAreOk(c: Cast)
    requires CastOk(c)
    ensures Base32.IsCanonical(c.r0) && Base32.IsCanonical(c.r1) && Base32.IsCanonical(c.r2)
    ensures Base32.IsCanonical(c.g1) && Base32.IsCanonical(c.g2)
    ensures c.r1 != c.r0 && c.g1 != c.r0 && c.g1 != c.r1
    ensures c.r2 != c.r0 && c.r2 != c.r1 && c.r2 != c.g1
    ensures c.g2 != c.r0 && c.g2 != c.r1 && c.g2 != c.g1 && c.g2 != c.r2
    ensures c.slack > 0
  {
    hide Base32.IsCanonical;
  }

  // -------------------------------------------------------------------
  // The run
  // -------------------------------------------------------------------

  function Fresh(c: Cast, phase: Phase): Job {
    Job(phase, c.grace, None, 0, 0, None, {}, None)
  }

  function Probing1(c: Cast): State {
    Initial(RegimeOf(c), 0).(jobs := map[1 := Fresh(c, Probing)])
  }

  /** Job 1 has created the empty pointer. */
  function Initialized(c: Cast): State {
    State(RegimeOf(c), 0, Some(Stored(Doc0(c), 0)), map[], 1, {c.r0}, map[1 := Fresh(c, Initializing(Doc0(c)))],
          {Init(c)}, {Logged(Init(c), Written(0))}, [Install(Doc0(c), 0, 1)])
  }

  /** It has made its plan. */
  function Planned1(c: Cast): State {
    Initialized(c).(used := {c.r0, c.g1, c.r1}, jobs := map[1 := Job1(c, Uploading, {}, None)])
  }

  lemma ReachProbing1(c: Cast)
    ensures Leads(Origin(c), Probing1(c))
  {
    hide Leads, Enabled, Do, Base32.IsCanonical, IsValid, CastOk;
    var r, s := Origin(c), Origin(c);
    LeadsNowhere(s);
    var t := s.(jobs := map[1 := Fresh(c, Fetching)]);
    ByStart(r, s, 1, c.grace, t);
    ByFetch(r, t, 1, Probing1(c));
  }

  lemma ReachInitialized(c: Cast)
    requires CastOk(c)
    ensures Leads(Origin(c), Initialized(c))
  {
    hide Leads, Enabled, Do, Base32.IsCanonical, IsValid, CastOk;
    ReachProbing1(c);
    IdsAreOk(c);
    var r, s := Origin(c), Probing1(c);
    var t := s.(jobs := map[1 := Fresh(c, Initializing(Doc0(c)))], used := {c.r0}, sent := {Init(c)});
    ByProbe(r, s, 1, c.r0, t);
    ByLand(r, t, Init(c), Initialized(c));
  }

  lemma ReachPlanned1(c: Cast)
    requires CastOk(c)
    ensures Leads(Origin(c), Planned1(c))
  {
    hide Leads, Enabled, Do, Base32.IsCanonical, IsValid, PlanFor, DesiredFiles, FIRST, SECOND, Doc1, CastOk;
    ReachInitialized(c);
    IdsAreOk(c);
    CastFacts(c);
    var r, s := Origin(c), Initialized(c);
    var t := s.(jobs := map[1 := Fresh(c, Planning).(baseline := Some(Doc0(c)))]);
    ByAdoptOwn(r, s, 1, 0, t);
    ByPlan(r, t, 1, FIRST, c.g1, c.r1, Planned1(c));
  }

  /** Its file is there and confirmed. */
  function Uploaded1(c: Cast): State {
    Planned1(c).(nodes := map[Key(HOST, c.g1) := Object("x", 0, 1)], nextEtag := 2,
                 jobs := map[1 := Job1(c, Uploading, {HOST}, None)], sent := {Init(c), Put1(c)},
                 replies := {Logged(Init(c), Written(0)), Logged(Put1(c), Written(1))})
  }

  lemma ReachUploaded1(c: Cast)
    requires CastOk(c)
    ensures Leads(Origin(c), Uploaded1(c))
  {
    hide Leads, Enabled, Do, Base32.IsCanonical, IsValid, Doc1, Doc0, CastOk;
    ReachPlanned1(c);
    IdsAreOk(c);
    var r, s := Origin(c), Planned1(c);
    var t := s.(sent := {Init(c), Put1(c)});
    BySendPut(r, s, 1, HOST, t);
    var u := Uploaded1(c).(jobs := s.jobs);
    ByLand(r, t, Put1(c), u);
    assert {} + {HOST} == {HOST};
    ByConfirm(r, u, 1, HOST, Written(1), Uploaded1(c));
  }

  /** Its pointer is installed. */
  function Committed1(c: Cast): State {
    Uploaded1(c).(pointer := Some(Stored(Doc1(c), 2)), nextEtag := 3,
                  jobs := map[1 := Job1(c, Committed, {HOST}, Some(1))], sent := {Init(c), Put1(c), Commit1(c)},
                  replies := {Logged(Init(c), Written(0)), Logged(Put1(c), Written(1)), Logged(Commit1(c), Written(2))},
                  history := [Install(Doc0(c), 0, 1), Install(Doc1(c), 0, 1)])
  }

  lemma ReachCommitted1(c: Cast)
    requires CastOk(c)
    ensures Leads(Origin(c), Committed1(c))
  {
    hide Leads, Enabled, Do, Base32.IsCanonical, IsValid, Doc1, Doc0, CastOk;
    ReachUploaded1(c);
    IdsAreOk(c);
    var r, s := Origin(c), Uploaded1(c);
    var t := s.(jobs := map[1 := Job1(c, Committing(1), {HOST}, None)], sent := {Init(c), Put1(c), Commit1(c)});
    BySendCommit(r, s, 1, t);
    var u := Committed1(c).(jobs := map[1 := Job1(c, Committing(1), {HOST}, Some(1))]);
    ByLand(r, t, Commit1(c), u);
    ByAcknowledge(r, u, 1, 2, Committed1(c));
  }

  /** Job 2 has read that pointer, at the same moment, and made its plan. */
  function Planned2(c: Cast): State {
    var s := Committed1(c);
    s.(used := s.used + {c.g2, c.r2}, jobs := s.jobs[2 := Job2(c, Uploading, {}, None)])
  }

  lemma ReachPlanned2(c: Cast)
    requires CastOk(c)
    ensures Leads(Origin(c), Planned2(c))
  {
    hide Leads, Enabled, Do, Base32.IsCanonical, IsValid, PlanFor, DesiredFiles, FIRST, SECOND, Doc1, Doc0, Doc2, CastOk;
    ReachCommitted1(c);
    IdsAreOk(c);
    CastFacts(c);
    var r, s := Origin(c), Committed1(c);
    var t := s.(jobs := s.jobs[2 := Fresh(c, Fetching)]);
    ByStart(r, s, 2, c.grace, t);
    var u := s.(jobs := s.jobs[2 := Fresh(c, Planning).(baseline := Some(Doc1(c)), etag := 2)]);
    ByFetch(r, t, 2, u);
    ByPlan(r, u, 2, SECOND, c.g2, c.r2, Planned2(c));
  }

  /** Its file is there and confirmed, still at the same moment. */
  function Uploaded2(c: Cast): State {
    var s := Planned2(c);
    s.(nodes := s.nodes[Key(HOST, c.g2) := Object("y", 0, 2)], nextEtag := 4,
       jobs := s.jobs[2 := Job2(c, Uploading, {HOST}, None)], sent := s.sent + {Put2(c)},
       replies := s.replies + {Logged(Put2(c), Written(3))})
  }

  lemma ReachUploaded2(c: Cast)
    requires CastOk(c)
    ensures Leads(Origin(c), Uploaded2(c))
  {
    hide Leads, Enabled, Do, Base32.IsCanonical, IsValid, Doc0, Doc1, Doc2, CastOk;
    ReachPlanned2(c);
    IdsAreOk(c);
    var r, s := Origin(c), Planned2(c);
    var t := s.(sent := s.sent + {Put2(c)});
    BySendPut(r, s, 2, HOST, t);
    var u := Uploaded2(c).(jobs := s.jobs);
    ByLand(r, t, Put2(c), u);
    assert {} + {HOST} == {HOST};
    ByConfirm(r, u, 2, HOST, Written(3), Uploaded2(c));
  }

  /** Time passes. */
  lemma {:induction false} ReachLater(from: State, s: State, n: nat)
    requires Leads(from, s)
    ensures Leads(from, s.(clock := s.clock + n))
  {
    hide Leads;
    if n > 0 {
      ReachLater(from, s, n - 1);
      Extend(from, s.(clock := s.clock + (n - 1)), Tick);
    } else {
      assert s.(clock := s.clock + n) == s;
    }
  }

  /** One grace period later, job 1 takes the file of job 2 for an abandoned one. */
  function Doomed(c: Cast): State {
    var s := Uploaded2(c);
    s.(clock := c.grace, jobs := s.jobs[1 := Job1(c, Cleaning({Key(HOST, c.g2)}), {HOST}, Some(1))],
       sent := s.sent + {DeleteNode(1, Key(HOST, c.g2))})
  }

  lemma DoomedKey(c: Cast)
    requires CastOk(c)
    ensures DoomedKeys(Listing(c), Doc1(c), c.grace, c.grace) == {Key(HOST, c.g2)}
  {
    hide Base32.IsCanonical;
    assert Retained(Doc1(c)) == {c.g1};
  }

  function Listing(c: Cast): map<Key, Time> {
    map[Key(HOST, c.g1) := 0, Key(HOST, c.g2) := 0]
  }

  /** It has listed the bucket. */
  function Listed1(c: Cast): State {
    var s := Uploaded2(c);
    s.(clock := c.grace, jobs := s.jobs[1 := Job1(c, Listed(Listing(c)), {HOST}, Some(1))])
  }

  lemma ReachListed1(c: Cast)
    requires CastOk(c)
    ensures Leads(Origin(c), Listed1(c))
  {
    hide Leads, Enabled, Do, Base32.IsCanonical, IsValid, Doc0, Doc1, Doc2, CastOk;
    ReachUploaded2(c);
    ReachLater(Origin(c), Uploaded2(c), c.grace);
    var s := Uploaded2(c).(clock := c.grace);
    assert s == Uploaded2(c).(clock := Uploaded2(c).clock + c.grace);
    assert Entries(s) == Listing(c);
    ByList(Origin(c), s, 1, Listed1(c));
  }

  lemma ReachDoomed(c: Cast)
    requires CastOk(c)
    ensures Leads(Origin(c), Doomed(c))
  {
    hide Leads, Enabled, Do, Base32.IsCanonical, IsValid, Doc0, Doc1, Doc2, DoomedKeys, CastOk, Listing;
    ReachListed1(c);
    IdsAreOk(c);
    DoomedKey(c);
    var u := Doomed(c).(sent := Listed1(c).sent);
    ByClassify(Origin(c), Listed1(c), 1, u);
    ByDelete(Origin(c), u, 1, Key(HOST, c.g2), Doomed(c));
  }

  /** Job 2 commits. */
  function Committing2(c: Cast): State {
    var s := Doomed(c);
    s.(pointer := Some(Stored(Doc2(c), 4)), nextEtag := 5, jobs := s.jobs[2 := Job2(c, Committing(1), {HOST}, Some(2))],
       sent := s.sent + {Commit2(c)}, replies := s.replies + {Logged(Commit2(c), Written(4))},
       history := s.history + [Install(Doc2(c), c.grace, 2)])
  }

  /** Its write is on the way. */
  function Sent2(c: Cast): State {
    var s := Doomed(c);
    s.(jobs := s.jobs[2 := Job2(c, Committing(1), {HOST}, None)], sent := s.sent + {Commit2(c)})
  }

  lemma ReachSent2(c: Cast)
    requires CastOk(c)
    ensures Leads(Origin(c), Sent2(c))
  {
    hide Leads, Enabled, Do, Base32.IsCanonical, IsValid, Doc0, Doc1, Doc2, CastOk;
    ReachDoomed(c);
    BySendCommit(Origin(c), Doomed(c), 2, Sent2(c));
  }

  lemma ReachCommitting2(c: Cast)
    requires CastOk(c)
    ensures Leads(Origin(c), Committing2(c))
  {
    hide Leads, Enabled, Do, Base32.IsCanonical, IsValid, Doc0, Doc1, Doc2, CastOk;
    ReachSent2(c);
    ByLand(Origin(c), Sent2(c), Commit2(c), Committing2(c));
  }

  /** The delete arrives: the pointer's current generation has lost its file. */
  function Broken(c: Cast): State {
    var s := Committing2(c);
    s.(nodes := s.nodes - {Key(HOST, c.g2)},
       replies := s.replies + {Logged(DeleteNode(1, Key(HOST, c.g2)), Deleted)})
  }

  lemma ReachBroken(c: Cast)
    requires CastOk(c)
    ensures Leads(Origin(c), Broken(c)) && !Closed(Broken(c))
    ensures AllWait(Broken(c), c.grace)
  {
    hide Leads, Enabled, Do, Base32.IsCanonical, IsValid, CastOk;
    ReachCommitting2(c);
    ByLand(Origin(c), Committing2(c), DeleteNode(1, Key(HOST, c.g2)), Broken(c));
    assert HOST in Entry2(c).nodes && Key(HOST, c.g2) !in Broken(c).nodes;
    assert !FilesPresent(Broken(c).nodes, Entry2(c));
  }

  // -------------------------------------------------------------------
  // The bound is exact
  // -------------------------------------------------------------------

  /** Fifty-two zeros but for a one at place `k`. */
  function Id(k: nat): string {
    seq(52, i => if i == k then '1' else '0')
  }

  lemma IdIsCanonical(k: nat)
    ensures Base32.IsCanonical(Id(k))
  {
    Base32.AlphabetIsAsciiDigits('0');
    Base32.AlphabetIsAsciiDigits('1');
    hide Base32.IsDigit, Base32.DigitOf, Base32.InAlphabet;
    var s := Id(k);
    assert forall i :: 0 <= i < 52 ==> s[i] == '0' || s[i] == '1';
  }

  lemma IdsDiffer(j: nat, k: nat)
    requires j < k < 52
    ensures Id(j) != Id(k)
  {
    assert Id(j)[j] == '1' && Id(k)[j] == '0';
  }

  lemma SomeCast(grace: Time, slack: Time) returns (c: Cast)
    requires slack > 0
    ensures CastOk(c) && c.grace == grace && c.slack == slack
  {
    hide Base32.IsCanonical, Id;
    c := Cast(Id(0), Id(1), Id(2), Id(3), Id(4), grace, slack);
    forall k: nat ensures Base32.IsCanonical(Id(k)) {
      IdIsCanonical(k);
    }
    forall j: nat, k: nat | j < k < 5 ensures Id(j) != Id(k) {
      IdsDiffer(j, k);
    }
  }

  /** Every job of the run uses this grace period. */
  predicate AllWait(s: State, grace: Time) {
    forall j | j in s.jobs :: s.jobs[j].grace == grace
  }

  /** Whatever the grace period, a cleaner whose clock may be read one grace period after its own commit, or later,
      breaks the closure of the pointer in some run of two overlapping jobs. */
  lemma LateCleanerBreaksClosure(grace: Time, slack: Time)
    requires slack > 0
    ensures exists s :: Reaches(Overlapping(slack), s) && AllWait(s, grace) && !Closed(s)
  {
    hide Leads, Closed, CastOk, Broken, Initial;
    var c := SomeCast(grace, slack);
    ReachBroken(c);
    assert Reaches(Overlapping(slack), Broken(c));
  }

  lemma ReachedIsClosed(regime: Regime, s: State)
    requires IsTimely(regime) && Reaches(regime, s)
    ensures Closed(s)
  {
    hide Follows, Initial, Closed;
    var clock :| Leads(Initial(regime, clock), s);
    var run, steps :| IsPath(Initial(regime, clock), run, steps, s);
    FollowedSteps(run, steps);
    PointerClosure(run, steps, |steps|);
  }

  lemma FollowedSteps(run: seq<State>, steps: seq<Step>)
    ensures Follows(run, steps) ==> |run| == |steps| + 1
  {
    hide Enabled, Do;
  }

  /** With overlapping jobs, whatever their grace period, the pointer stays closed in every reachable state iff every
      cleaner reads its clock less than one grace period after its own commit. */
  lemma BoundIsExact(grace: Time, slack: Time)
    ensures (forall s :: Reaches(Overlapping(slack), s) && AllWait(s, grace) ==> Closed(s)) <==> slack == 0
  {
    hide Reaches, Closed, AllWait;
    if slack == 0 {
      forall s | Reaches(Overlapping(slack), s) ensures Closed(s) {
        ReachedIsClosed(Overlapping(slack), s);
      }
    } else {
      LateCleanerBreaksClosure(grace, slack);
    }
  }
}
