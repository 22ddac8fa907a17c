/** Servers and a client together: along one run of the publication protocol, whatever reaches a node's kernel
    is the node's own file or one that some `apply` rendered for that node. */
module EndToEnd {
  import opened Outcomes
  import opened Discovery
  import opened Discover
  import opened Lib
  import opened WgQuick
  import opened Client
  import opened ClientTheorems
  import Protocol
  import ProtocolTheorems

  /** Every round of a pass was answered by the bucket: the pointer at one moment, the file then or later. */
  ghost predicate IsServed(states: seq<Protocol.State>, rounds: seq<Answers>, host: string) {
    forall k :: 0 <= k < |rounds| ==> RoundIsServed(states, rounds[k], host)
  }

  ghost predicate RoundIsServed(states: seq<Protocol.State>, answers: Answers, host: string) {
    exists a, b :: 0 <= a <= b < |states| && ProtocolTheorems.AnsweredBy(answers, states[a], states[b], host)
  }

  ghost predicate AllServed(states: seq<Protocol.State>, run: seq<Episode>, host: string) {
    forall i :: 0 <= i < |run| ==> IsServed(states, run[i].input.rounds, host)
  }

  /** Some job of the protocol run rendered these bytes as a file of `host`. */
  ghost predicate IsRendered(states: seq<Protocol.State>, host: string, bytes: string) {
    |states| > 0 && HasRendered(states[|states| - 1], host, bytes)
  }

  ghost predicate HasRendered(s: Protocol.State, host: string, bytes: string) {
    exists j, id :: Protocol.Writes(s, j, Key(host, id), bytes)
  }

  /** The pointer offered these bytes to `host` at some moment. */
  ghost predicate WasCurrent(states: seq<Protocol.State>, host: string, d: Download) {
    exists a :: 0 <= a < |states| && Offers(states[a], host, d)
  }

  predicate Offers(s: Protocol.State, host: string, d: Download) {
    && s.pointer.Some? && s.pointer.value.doc.current.Some?
    && host in s.pointer.value.doc.current.value.nodes
    && d.id == s.pointer.value.doc.current.value.id && d.digest == s.pointer.value.doc.current.value.nodes[host]
  }

  lemma RoundOffers(answers: Answers, a: Protocol.State, b: Protocol.State, host: string)
    requires ProtocolTheorems.AnsweredBy(answers, a, b, host)
    requires Round(answers, host).Ok? && Round(answers, host).value.Some?
    ensures Offers(a, host, Round(answers, host).value.value)
    ensures answers.pointer.Ok? && FileAnswer(answers, Key(host, a.pointer.value.doc.current.value.id)).Ok?
  {
    hide Validate;
  }

  /** What a client downloads was published for it, and rendered by a job. */
  lemma DownloadIsPublished(states: seq<Protocol.State>, steps: seq<Protocol.Step>, rounds: seq<Answers>, host: string)
    requires Protocol.IsRun(states, steps) && IsServed(states, rounds, host) && Decided(rounds, host).Ok?
    ensures IsRendered(states, host, Decided(rounds, host).value.bytes)
    ensures WasCurrent(states, host, Decided(rounds, host).value)
  {
    hide Protocol.IsRun, Decided, Round, Protocol.Writes, ProtocolTheorems.AnsweredBy;
    DecidedByRound(rounds, host);
    var d := Decided(rounds, host).value;
    var k :| 0 <= k < |rounds| && Round(rounds[k], host) == Ok(Some(d));
    var a, b :| 0 <= a <= b < |states| && ProtocolTheorems.AnsweredBy(rounds[k], states[a], states[b], host);
    RoundOffers(rounds[k], states[a], states[b], host);
    ProtocolTheorems.DownloadIsRendered(states, steps, a, b, rounds[k], host);
    var j :| Protocol.Writes(states[b], j, Key(host, d.id), d.bytes);
    ProtocolTheorems.WriterIsPermanent(states, steps, b, |states| - 1, j, Key(host, d.id), d.bytes);
  }

  lemma {:induction false} LearnedIsRendered(lib: Library, states: seq<Protocol.State>, steps: seq<Protocol.Step>,
                                             host: string, run: seq<Episode>)
    requires Protocol.IsRun(states, steps) && AllServed(states, run, host)
    ensures forall bytes :: bytes in LearnedBy(lib, host, run) ==> IsRendered(states, host, bytes)
    decreases |run|
  {
    hide Protocol.IsRun, Decided, IsRendered, Parse, IsServed;
    if |run| > 0 {
      var input := run[|run| - 1].input;
      LearnedIsRendered(lib, states, steps, host, run[..|run| - 1]);
      if Accepted(lib, host, input) {
        DownloadIsPublished(states, steps, input.rounds, host);
      }
    }
  }

  /** The node's own file, or one rendered for it. */
  ghost predicate IsEntitled(states: seq<Protocol.State>, host: string, original: File, f: File) {
    f.Whole? && (f == original || IsRendered(states, host, f.bytes))
  }

  /** Whatever jobs and passes do, fail or crash at: every file ever handed to the node's kernel, and the one it
      runs, is complete, and is the node's own or rendered for that node by some `apply` of the same protocol run. */
  lemma KernelRunsRenderedFiles(lib: Library, tear: bool, host: string, states: seq<Protocol.State>,
                                steps: seq<Protocol.Step>, run: seq<Episode>, m: Machine)
    requires Protocol.IsRun(states, steps) && AllServed(states, run, host)
    requires IsOriginal(m) && AllSound(tear, run)
    ensures var end := After(lib, tear, host, run, m);
            && (end.iface.Some? ==> IsEntitled(states, host, m.conf, end.iface.value))
            && (forall i :: 0 <= i < |end.calls| && end.calls[i].Up? ==>
                  IsEntitled(states, host, m.conf, end.calls[i].file))
  {
    hide Protocol.IsRun, After, LearnedBy, IsRendered, AllServed, AllSound, IsOriginal;
    RunIsConsistent(lib, tear, host, run, m);
    LearnedIsRendered(lib, states, steps, host, run);
  }

  /** A pass without failures leaves the node with a file that the pointer offered it during the protocol run. */
  lemma NodeFollowsPointer(lib: Library, tear: bool, host: string, states: seq<Protocol.State>,
                           steps: seq<Protocol.Step>, run: seq<Episode>, last: Input, m: Machine)
    requires Protocol.IsRun(states, steps) && AllServed(states, run, host) && IsServed(states, last.rounds, host)
    requires IsOriginal(m) && AllSound(tear, run) && AllRecord(run)
    requires IsSmooth(last.script) && Accepted(lib, host, last)
    ensures var d, q := Decided(last.rounds, host).value, Pass(lib, tear, host, last, After(lib, tear, host, run, m)).m;
            && UpToDate(q, d) && q.iface == Some(q.conf)
            && WasCurrent(states, host, d) && IsRendered(states, host, d.bytes)
  {
    hide Protocol.IsRun, After, Pass, LearnedBy, IsRendered, AllServed, IsServed, AllSound, IsOriginal, WasCurrent, Decided,
      Parse, UpToDate, InStep, Consistent;
    DownloadIsPublished(states, steps, last.rounds, host);
    RunInStep(lib, tear, host, run, m);
    SmoothPassConverges(lib, tear, host, last, After(lib, tear, host, run, m), KnownIn(lib, host, run, m));
    SmoothIsSound(tear, last.script);
    PassInStep(lib, tear, host, last, After(lib, tear, host, run, m), KnownIn(lib, host, run, m));
    LevelWhenUpToDate(Pass(lib, tear, host, last, After(lib, tear, host, run, m)).m, Decided(last.rounds, host).value);
  }

  lemma SmoothIsSound(tear: bool, s: Script)
    requires IsSmooth(s)
    ensures Sound(tear, s) && Records(s)
  {
  }

  lemma LevelWhenUpToDate(m: Machine, d: Download)
    requires UpToDate(m, d) && InStep(m)
    ensures m.iface == Some(m.conf)
  {
  }
}
