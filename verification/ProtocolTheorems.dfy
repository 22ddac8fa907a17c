/** What the publication protocol promises in every run, in both timely regimes. */
module ProtocolTheorems {
  import opened Outcomes
  import opened Discovery
  import opened Discover
  import opened Protocol
  import opened ProtocolSteps
  import opened ProtocolLanding
  import opened ProtocolInvariant

  // -------------------------------------------------------------------
  // Closure
  // -------------------------------------------------------------------

  /** In every reachable state every host file of the pointer's current and previous generations exists
      with the recorded digest: with overlapping jobs that respect the grace period, and with serialized
      jobs whatever the grace. */
  lemma PointerClosure(run: seq<State>, steps: seq<Step>, i: nat)
    requires IsRun(run, steps) && i < |run|
    ensures Closed(run[i])
  {
    hide IsRun, Closed;
    RunInv(run, steps, i);
    Parts(run[i]);
  }

  // -------------------------------------------------------------------
  // The history of pointers
  // -------------------------------------------------------------------

  /** Generations published so far, oldest first. */
  function Generations(history: seq<Install>): seq<GenerationEntry> {
    if |history| <= 1 then []
    else
      var before, doc := history[|history| - 2].doc, history[|history| - 1].doc;
      Generations(history[..|history| - 1])
      + (if Publishes(before, doc) && doc.current.Some? then [doc.current.value] else [])
  }

  function Publications(history: seq<Install>): nat {
    |Generations(history)|
  }

  function LastBut(s: seq<GenerationEntry>, k: nat): Option<GenerationEntry> {
    if |s| > k then Some(s[|s| - 1 - k]) else None
  }

  ghost predicate Linked(history: seq<Install>) {
    && (|history| > 0 ==> history[0].doc.current.None? && history[0].doc.previous.None?)
    && forall i :: 0 < i < |history| ==> Succeeds(history[i - 1].doc, history[i].doc)
  }

  /** `current` is the last generation published and `previous` the one before it. */
  lemma {:induction false} CurrentAndPrevious(history: seq<Install>)
    requires Linked(history) && |history| > 0
    ensures history[|history| - 1].doc.current == LastBut(Generations(history), 0)
    ensures history[|history| - 1].doc.previous == LastBut(Generations(history), 1)
  {
    if |history| > 1 {
      var shorter := history[..|history| - 1];
      CurrentAndPrevious(shorter);
      var before, doc := history[|history| - 2].doc, history[|history| - 1].doc;
      assert shorter[|shorter| - 1] == history[|history| - 2];
      assert Succeeds(before, doc);
    }
  }

  lemma HistoryLinked(s: State)
    requires HistoryOk(s)
    ensures Linked(s.history)
  {
  }

  /** The pointer is the last install; every install passes validation, has its own revision, and either
      refreshes its predecessor or publishes one new generation keeping the predecessor's as previous. */
  lemma LinearHistory(run: seq<State>, steps: seq<Step>, i: nat)
    requires IsRun(run, steps) && i < |run| && run[i].pointer.Some?
    ensures |run[i].history| > 0 && run[i].pointer.value.doc == run[i].history[|run[i].history| - 1].doc
    ensures Linked(run[i].history)
    ensures forall k :: 0 <= k < |run[i].history| ==> IsValid(run[i].history[k].doc)
    ensures forall k, m :: 0 <= k < m < |run[i].history| ==>
              run[i].history[k].doc.revision != run[i].history[m].doc.revision
    ensures run[i].pointer.value.doc.current == LastBut(Generations(run[i].history), 0)
    ensures run[i].pointer.value.doc.previous == LastBut(Generations(run[i].history), 1)
  {
    hide IsRun, IsValid, Generations, Linked;
    RunInv(run, steps, i);
    Parts(run[i]);
    HistoryLinked(run[i]);
    CurrentAndPrevious(run[i].history);
    forall k | 0 <= k < |run[i].history| ensures IsValid(run[i].history[k].doc) {
      assert HistoryEntryOk(run[i], k);
    }
  }

  /** A job that reports a commit has had its pointer installed, directly over the baseline it read. */
  lemma OkMeansInstalled(run: seq<State>, steps: seq<Step>, i: nat, j: JobId)
    requires IsRun(run, steps) && i < |run| && j in run[i].jobs && AfterCommit(run[i].jobs[j].phase)
    ensures run[i].jobs[j].plan.Some? && run[i].jobs[j].baseline.Some?
    ensures exists k :: 0 < k < |run[i].history| && run[i].history[k].job == j
              && run[i].history[k].doc == run[i].jobs[j].plan.value.intended
              && run[i].history[k - 1].doc == run[i].jobs[j].baseline.value
  {
    hide IsRun, Inv, PlanOk, UploadedOk, EntriesOk, Gone;
    RunInv(run, steps, i);
    JobFacts(run[i], j);
    var k := run[i].jobs[j].landed.value;
    assert run[i].history[k].job == j;
  }

  /** The same for every job whose request took effect, whatever the job was told: no lost update. */
  lemma NoLostUpdate(run: seq<State>, steps: seq<Step>, i: nat, j: JobId)
    requires IsRun(run, steps) && i < |run| && j in run[i].jobs && run[i].jobs[j].landed.Some?
    ensures run[i].jobs[j].plan.Some? && run[i].jobs[j].baseline.Some?
    ensures 0 < run[i].jobs[j].landed.value < |run[i].history|
    ensures run[i].history[run[i].jobs[j].landed.value].doc == run[i].jobs[j].plan.value.intended
    ensures run[i].history[run[i].jobs[j].landed.value - 1].doc == run[i].jobs[j].baseline.value
  {
    hide IsRun, Inv, PlanOk, UploadedOk, EntriesOk, Gone;
    RunInv(run, steps, i);
    JobFacts(run[i], j);
  }

  /** After losing the initialization race the pointer is there to be read. */
  lemma ExpectHolds(run: seq<State>, steps: seq<Step>, i: nat, j: JobId)
    requires IsRun(run, steps) && i < |run| && CanAdopt(run[i], j, PreconditionFailed)
    ensures run[i].pointer.Some?
  {
    hide IsRun, Inv;
    RunInv(run, steps, i);
    LostRaceFindsPointer(run[i], j);
  }

  lemma StepKeepsHistory(s: State, step: Step)
    requires Enabled(s, step)
    ensures s.history <= Do(s, step).history
    ensures s.pointer.Some? ==> Do(s, step).pointer.Some?
  {
    hide IsValid, DoomedKeys, Entries, PlanFor;
  }

  /** The pointer is never deleted and the history only grows. */
  lemma {:induction false} HistoryIsMonotone(run: seq<State>, steps: seq<Step>, a: nat, b: nat)
    requires IsRun(run, steps) && a <= b < |run|
    ensures run[a].history <= run[b].history
    ensures run[a].pointer.Some? ==> run[b].pointer.Some?
    decreases b
  {
    hide Enabled, Do, Initial;
    if a < b {
      HistoryIsMonotone(run, steps, a, b - 1);
      StepKeepsHistory(run[b - 1], steps[b - 1]);
    }
  }

  // -------------------------------------------------------------------
  // Reading clients
  // -------------------------------------------------------------------

  /** With fewer than two publications since, a generation is still current or previous. */
  lemma {:induction false} StillNamed(history: seq<Install>, m: nat)
    requires Linked(history) && m < |history|
    ensures Publications(history[..m + 1]) <= Publications(history)
    ensures Publications(history) == Publications(history[..m + 1]) ==>
              history[|history| - 1].doc.current == history[m].doc.current
    ensures Publications(history) == Publications(history[..m + 1]) + 1 ==>
              history[|history| - 1].doc.previous == history[m].doc.current
    decreases |history|
  {
    if m == |history| - 1 {
      assert history[..m + 1] == history;
    } else {
      var shorter := history[..|history| - 1];
      assert shorter[..m + 1] == history[..m + 1];
      StillNamed(shorter, m);
      assert shorter[m] == history[m];
      assert Succeeds(history[|history| - 2].doc, history[|history| - 1].doc);
    }
  }

  /** The client reads the pointer in state `a` and misses this host's file in state `b`. */
  ghost predicate Misses(a: State, b: State, host: string) {
    && a.pointer.Some? && a.pointer.value.doc.current.Some?
    && host in a.pointer.value.doc.current.value.nodes
    && Key(host, a.pointer.value.doc.current.value.id) !in b.nodes
  }

  /** A missing file means at least two publications since the pointer was read. */
  lemma MissMeansTwoPublications(run: seq<State>, steps: seq<Step>, a: nat, b: nat, host: string)
    requires IsRun(run, steps) && a <= b < |run| && Misses(run[a], run[b], host)
    ensures Publications(run[b].history) >= Publications(run[a].history) + 2
  {
    hide IsRun, IsValid, Generations, Linked;
    HistoryIsMonotone(run, steps, a, b);
    LinearHistory(run, steps, a);
    LinearHistory(run, steps, b);
    PointerClosure(run, steps, b);
    var m := |run[a].history| - 1;
    assert run[b].history[..m + 1] == run[a].history;
    StillNamed(run[b].history, m);
  }

  ghost predicate Ascending(times: seq<nat>, bound: nat) {
    (forall i, k :: 0 <= i < k < |times| ==> times[i] <= times[k]) && forall i :: 0 <= i < |times| ==> times[i] < bound
  }

  /** Three missed rounds in a row span at least six publications. */
  lemma ExhaustionMeansSixPublications(run: seq<State>, steps: seq<Step>, times: seq<nat>, host: string)
    requires IsRun(run, steps) && |times| == 2 * MAX_DISCOVERY_ROUNDS && Ascending(times, |run|)
    requires forall k :: 0 <= k < MAX_DISCOVERY_ROUNDS ==> Misses(run[times[2 * k]], run[times[2 * k + 1]], host)
    ensures Publications(run[times[5]].history) >= Publications(run[times[0]].history) + 6
  {
    hide IsRun, Misses, Publications;
    assert Misses(run[times[2 * 0]], run[times[2 * 0 + 1]], host);
    assert Misses(run[times[2 * 1]], run[times[2 * 1 + 1]], host);
    assert Misses(run[times[2 * 2]], run[times[2 * 2 + 1]], host);
    MissMeansTwoPublications(run, steps, times[0], times[1], host);
    MissMeansTwoPublications(run, steps, times[2], times[3], host);
    MissMeansTwoPublications(run, steps, times[4], times[5], host);
    PublicationsGrow(run, steps, times[1], times[2]);
    PublicationsGrow(run, steps, times[3], times[4]);
  }

  lemma PublicationsGrow(run: seq<State>, steps: seq<Step>, a: nat, b: nat)
    requires IsRun(run, steps) && a <= b < |run|
    ensures Publications(run[a].history) <= Publications(run[b].history)
  {
    hide IsRun, Generations;
    HistoryIsMonotone(run, steps, a, b);
    GenerationsGrow(run[a].history, run[b].history);
  }

  lemma {:induction false} GenerationsGrow(h: seq<Install>, longer: seq<Install>)
    requires h <= longer
    ensures Publications(h) <= Publications(longer)
    decreases |longer|
  {
    if |h| == |longer| {
      assert h == longer;
    } else if |h| == 0 {
    } else {
      GenerationsGrow(h, longer[..|longer| - 1]);
    }
  }

  /** The bucket answers one round of a client from state `a` (the pointer) and state `b` (the file). */
  ghost predicate AnsweredBy(answers: Answers, a: State, b: State, host: string) {
    && (answers.pointer.Ok? ==>
          answers.pointer.value == if a.pointer.Some? then Some(a.pointer.value.doc) else None)
    && forall k :: k in answers.file && answers.file[k].Ok? ==>
         answers.file[k].value == if k in b.nodes then Some(b.nodes[k].body) else None
  }

  ghost predicate AnsweredAlong(rounds: seq<Answers>, run: seq<State>, times: seq<nat>, host: string)
    requires |rounds| == MAX_DISCOVERY_ROUNDS && |times| == 2 * MAX_DISCOVERY_ROUNDS && Ascending(times, |run|)
  {
    forall k :: 0 <= k < MAX_DISCOVERY_ROUNDS ==>
      AnsweredBy(rounds[k], run[times[2 * k]], run[times[2 * k + 1]], host)
  }

  /** A client that runs out of rounds has been overtaken by at least six publications. */
  lemma DiscoveryGivesUpLate(run: seq<State>, steps: seq<Step>, times: seq<nat>, rounds: seq<Answers>, host: string)
    requires IsRun(run, steps) && |times| == 2 * MAX_DISCOVERY_ROUNDS && Ascending(times, |run|)
    requires |rounds| == MAX_DISCOVERY_ROUNDS && NeverExhausted(rounds) && AnsweredAlong(rounds, run, times, host)
    requires Decided(rounds, host) == Err(RoundsExhausted)
    ensures Publications(run[times[5]].history) >= Publications(run[times[0]].history) + 6
  {
    hide IsRun, Decided, Publications, NeverExhausted;
    ExhaustedMeansAllMissing(rounds, host);
    forall k | 0 <= k < MAX_DISCOVERY_ROUNDS ensures Misses(run[times[2 * k]], run[times[2 * k + 1]], host) {
      MissingRound(rounds[k], run[times[2 * k]], run[times[2 * k + 1]], host);
    }
    ExhaustionMeansSixPublications(run, steps, times, host);
  }

  lemma MissingRound(answers: Answers, a: State, b: State, host: string)
    requires AnsweredBy(answers, a, b, host) && Round(answers, host) == Ok(None)
    ensures Misses(a, b, host)
  {
    hide Validate;
  }

  /** A file in the bucket under a generation that `current.json` has referred to is exactly what an `apply` rendered,
      so its digest check succeeds: a client is never told of a mismatch. */
  lemma DownloadIsRendered(run: seq<State>, steps: seq<Step>, a: nat, b: nat, answers: Answers, host: string)
    requires IsRun(run, steps) && a <= b < |run| && AnsweredBy(answers, run[a], run[b], host)
    requires run[a].pointer.Some? && run[a].pointer.value.doc.current.Some?
    requires host in run[a].pointer.value.doc.current.value.nodes
    requires answers.pointer.Ok? && FileAnswer(answers, Key(host, run[a].pointer.value.doc.current.value.id)).Ok?
    ensures Round(answers, host).Ok?
    ensures Round(answers, host).value.Some? ==>
              exists j :: Writes(run[b], j, Key(host, Round(answers, host).value.value.id),
                                 Round(answers, host).value.value.bytes)
  {
    hide IsRun, Validate, Inv, Writes;
    RunInv(run, steps, a);
    RunInv(run, steps, b);
    Parts(run[a]);
    PointerFacts(run[a]);
    var entry := run[a].pointer.value.doc.current.value;
    var key := Key(host, entry.id);
    if key in run[b].nodes {
      RenderedBytes(run, steps, a, b, host);
      assert ValidatedOk(run[a].pointer.value.doc);
    }
  }

  ghost predicate ValidatedOk(doc: CurrentJson) {
    Validate(doc).Ok?
  }

  /** The recorded digest belongs to the only bytes ever stored under the key. */
  lemma RenderedBytes(run: seq<State>, steps: seq<Step>, a: nat, b: nat, host: string)
    requires IsRun(run, steps) && a <= b < |run| && Inv(run[a]) && Inv(run[b])
    requires run[a].pointer.Some? && run[a].pointer.value.doc.current.Some?
    requires host in run[a].pointer.value.doc.current.value.nodes
    requires Key(host, run[a].pointer.value.doc.current.value.id) in run[b].nodes
    ensures Digest(run[b].nodes[Key(host, run[a].pointer.value.doc.current.value.id)].body)
         == run[a].pointer.value.doc.current.value.nodes[host]
    ensures var key := Key(host, run[a].pointer.value.doc.current.value.id);
            Writes(run[b], run[b].nodes[key].job, key, run[b].nodes[key].body)
  {
    hide IsRun, Inv, Validate;
    Parts(run[a]);
    Parts(run[b]);
    var entry := run[a].pointer.value.doc.current.value;
    var key := Key(host, entry.id);
    assert FilesPresent(run[a].nodes, entry);
    var j := run[a].nodes[key].job;
    WriterIsPermanent(run, steps, a, b, j, key, run[a].nodes[key].body);
  }

  lemma ReceiveKeepsPlans(s: State, r: Request, j: JobId)
    requires j in s.jobs
    ensures j in Receive(s, r).jobs && Receive(s, r).jobs[j].plan == s.jobs[j].plan
  {
  }

  lemma PlanningHasNoPlan(s: State, j: JobId)
    requires Inv(s) && j in s.jobs
    ensures s.jobs[j].phase.Planning? ==> s.jobs[j].plan.None?
  {
    hide Inv, CoreOk;
    JobFacts(s, j);
  }

  lemma StepKeepsPlans(s: State, step: Step, j: JobId)
    requires Enabled(s, step) && j in s.jobs && s.jobs[j].plan.Some?
    requires s.jobs[j].phase.Planning? ==> s.jobs[j].plan.None?
    ensures j in Do(s, step).jobs && Do(s, step).jobs[j].plan == s.jobs[j].plan
  {
    hide IsValid, DoomedKeys, Entries, PlanFor, Receive, CanFetch, CanProbe, CanAdopt, CanUpload, CanConfirm,
      CanSendCommit, CanSettle, CanList, CanClassify, CanDelete, DesiredFiles;
    if step.Land? {
      ReceiveKeepsPlans(s, step.request, j);
    }
  }

  lemma {:induction false} WriterIsPermanent(
      run: seq<State>, steps: seq<Step>, a: nat, b: nat, j: JobId, key: Key, body: string)
    requires IsRun(run, steps) && a <= b < |run| && Writes(run[a], j, key, body)
    ensures Writes(run[b], j, key, body)
    decreases b
  {
    hide Enabled, Do, Initial, Inv;
    if a < b {
      WriterIsPermanent(run, steps, a, b - 1, j, key, body);
      RunInv(run, steps, b - 1);
      PlanningHasNoPlan(run[b - 1], j);
      StepKeepsPlans(run[b - 1], steps[b - 1], j);
    }
  }
}
