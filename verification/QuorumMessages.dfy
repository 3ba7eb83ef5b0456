/** Which nodes the messages of an operation go to, and whose answers come back. */
module QuorumMessages {
  import opened Common
  import opened QuorumProtocol

  function NodesOf(contacts: seq<Contact>): seq<Node> {
    seq(|contacts|, i requires 0 <= i < |contacts| => contacts[i].node)
  }

  /** The messages a step sends: what it adds to the contacts that still have to answer. */
  function SentIn(cfg: Config, st: State, step: Step): seq<Contact>
    requires cfg.batchSize >= 1 && Enabled(cfg, st, step)
  {
    var after := Apply(cfg, st, step).outstanding;
    if |st.outstanding| <= |after| then after[|st.outstanding|..] else []
  }

  function Sent(cfg: Config, st: State, steps: seq<Step>): seq<Node>
    requires cfg.batchSize >= 1 && CanRun(cfg, st, steps)
    decreases |steps|
  {
    if steps == [] then []
    else NodesOf(SentIn(cfg, st, steps[0])) + Sent(cfg, Apply(cfg, st, steps[0]), steps[1..])
  }

  /** The nodes whose answers were recorded, in order. */
  function Answered(cfg: Config, st: State, steps: seq<Step>): seq<Node>
    requires cfg.batchSize >= 1 && CanRun(cfg, st, steps)
    decreases |steps|
  {
    if steps == [] then []
    else AnsweredIn(cfg, st, steps[0]) + Answered(cfg, Apply(cfg, st, steps[0]), steps[1..])
  }

  function AnsweredIn(cfg: Config, st: State, step: Step): seq<Node>
    requires Enabled(cfg, st, step)
  {
    if step.Record? then [st.outstanding[step.i].node] else []
  }

  /** A batch is sent to its nodes, one message each, in order. */
  lemma StepSends(cfg: Config, st: State, step: Step)
    requires cfg.batchSize >= 1 && Enabled(cfg, st, step)
    ensures var st' := Apply(cfg, st, step);
      && (step.Dispatch? ==> st'.outstanding == st.outstanding + SentIn(cfg, st, step))
      && (!step.Dispatch? ==> SentIn(cfg, st, step) == [])
      && ContactedNodes(st'.batches) == ContactedNodes(st.batches) + NodesOf(SentIn(cfg, st, step))
  {
    var st' := Apply(cfg, st, step);
    if step.Dispatch? {
      var leftover := st.schedules[step.j];
      var batch := Batch(CurrentBatch(cfg, leftover), |st.responses|, CountCompleted(st.responses));
      assert SentIn(cfg, st, step) == Contacts(batch.nodes, NextLeftover(cfg, leftover));
      hide CurrentBatch, NextLeftover, CountCompleted;
      assert NodesOf(SentIn(cfg, st, step)) == batch.nodes;
      assert st'.batches == st.batches + [batch];
      assert st'.batches[..|st.batches|] == st.batches;
    } else {
      assert ContactedNodes(st.batches) + [] == ContactedNodes(st.batches);
    }
  }

  lemma {:induction false} RunSends(cfg: Config, st: State, steps: seq<Step>)
    requires cfg.batchSize >= 1 && CanRun(cfg, st, steps)
    ensures ContactedNodes(Run(cfg, st, steps).batches) == ContactedNodes(st.batches) + Sent(cfg, st, steps)
    decreases |steps|
  {
    if steps != [] {
      StepSends(cfg, st, steps[0]);
      hide Apply, SentIn, NodesOf;
      RunSends(cfg, Apply(cfg, st, steps[0]), steps[1..]);
    }
  }

  /** In every run the messages went to the first found nodes, in order and one to each: batch by batch. */
  lemma MessagesArePrefix(cfg: Config, steps: seq<Step>)
    requires Admissible(cfg) && SoundRule(cfg) && CanRun(cfg, Init(cfg), steps)
    ensures Sent(cfg, Init(cfg), steps) == cfg.nodes[..Upto(cfg, |Run(cfg, Init(cfg), steps).batches|)]
  {
    BatchesAreSlices(cfg, steps);
    RunSends(cfg, Init(cfg), steps);
    hide Run, CanRun, Sent;
  }

  // ----- Answers -----

  lemma NodesRemoved(contacts: seq<Contact>, i: nat)
    requires i < |contacts|
    ensures multiset(NodesOf(contacts)) == multiset(NodesOf(Remove(contacts, i))) + multiset{contacts[i].node}
  {
    var nodes := NodesOf(contacts);
    assert NodesOf(Remove(contacts, i)) == Remove(nodes, i);
    assert nodes == nodes[..i] + [nodes[i]] + nodes[i + 1..];
  }

  lemma NodesAppended(a: seq<Contact>, b: seq<Contact>)
    ensures NodesOf(a + b) == NodesOf(a) + NodesOf(b)
  {
  }

  lemma StepAnswers(cfg: Config, st: State, step: Step)
    requires cfg.batchSize >= 1 && Enabled(cfg, st, step)
    ensures multiset(NodesOf(st.outstanding)) + multiset(NodesOf(SentIn(cfg, st, step)))
      == multiset(AnsweredIn(cfg, st, step)) + multiset(NodesOf(Apply(cfg, st, step).outstanding))
  {
    StepSends(cfg, st, step);
    match step
    case Record(i, status, answer) =>
      NodesRemoved(st.outstanding, i);
      assert RecordStep(st, i, status, answer).outstanding == Remove(st.outstanding, i);
      assert NodesOf([]) == [];
      hide RecordStep, SentIn, NodesOf;
    case Act(_) =>
      assert NodesOf([]) == [];
    case Dispatch(_) =>
      NodesAppended(st.outstanding, SentIn(cfg, st, step));
      hide Apply, SentIn, NodesOf;
  }

  /** Whoever was sent a message either answered or still has to: nobody answers twice, nobody is forgotten. */
  lemma {:induction false} SentAreAnsweredOrOutstanding(cfg: Config, st: State, steps: seq<Step>)
    requires cfg.batchSize >= 1 && CanRun(cfg, st, steps)
    ensures multiset(NodesOf(st.outstanding)) + multiset(Sent(cfg, st, steps))
      == multiset(Answered(cfg, st, steps)) + multiset(NodesOf(Run(cfg, st, steps).outstanding))
    decreases |steps|
  {
    hide Apply, SentIn, NodesOf, AnsweredIn;
    if steps != [] {
      var step, next := steps[0], Apply(cfg, st, steps[0]);
      StepAnswers(cfg, st, step);
      SentAreAnsweredOrOutstanding(cfg, next, steps[1..]);
      Balanced(NodesOf(st.outstanding), NodesOf(SentIn(cfg, st, step)), AnsweredIn(cfg, st, step),
               NodesOf(next.outstanding), Sent(cfg, next, steps[1..]), Answered(cfg, next, steps[1..]),
               NodesOf(Run(cfg, next, steps[1..]).outstanding));
    }
  }

  /** What is open, with what is sent, is what is answered, with what is open then: over one step and over the rest. */
  lemma Balanced(open0: seq<Node>, sent0: seq<Node>, answered0: seq<Node>, open1: seq<Node>,
                 sent1: seq<Node>, answered1: seq<Node>, open2: seq<Node>)
    requires multiset(open0) + multiset(sent0) == multiset(answered0) + multiset(open1)
    requires multiset(open1) + multiset(sent1) == multiset(answered1) + multiset(open2)
    ensures multiset(open0) + multiset(sent0 + sent1) == multiset(answered0 + answered1) + multiset(open2)
  {
    var m, a, b, c := multiset(open1), multiset(open0), multiset(sent0), multiset(answered0);
    forall n
      ensures a[n] + multiset(sent0 + sent1)[n] == multiset(answered0 + answered1)[n] + multiset(open2)[n]
    {
      assert (a + b)[n] == (c + m)[n];
      assert (m + multiset(sent1))[n] == (multiset(answered1) + multiset(open2))[n];
    }
  }

  /** In a settled run exactly the contacted nodes have answered, each once; and all found ones did if the quorum was
      missed. */
  lemma EveryContactAnswersOnce(cfg: Config, steps: seq<Step>)
    requires Admissible(cfg) && SoundRule(cfg) && CanRun(cfg, Init(cfg), steps)
    requires Quiescent(Run(cfg, Init(cfg), steps))
    ensures var st := Run(cfg, Init(cfg), steps);
      && |st.responses| <= |cfg.nodes|
      && multiset(Answered(cfg, Init(cfg), steps)) == multiset(cfg.nodes[..|st.responses|])
      && (CountCompleted(st.responses) < cfg.minAck ==> |st.responses| == |cfg.nodes|)
  {
    hide Run, CanRun, Sent, Answered, CountCompleted, Upto;
    MessagesArePrefix(cfg, steps);
    RespondedAll(cfg, steps);
    SentAreAnsweredOrOutstanding(cfg, Init(cfg), steps);
    assert Init(cfg).outstanding == [] && Run(cfg, Init(cfg), steps).outstanding == [];
    assert NodesOf([]) == [];
    assert multiset{} + multiset(Sent(cfg, Init(cfg), steps)) == multiset(Sent(cfg, Init(cfg), steps));
    assert multiset(Answered(cfg, Init(cfg), steps)) + multiset{} == multiset(Answered(cfg, Init(cfg), steps));
  }

  lemma RespondedAll(cfg: Config, steps: seq<Step>)
    requires Admissible(cfg) && SoundRule(cfg) && CanRun(cfg, Init(cfg), steps)
    requires Quiescent(Run(cfg, Init(cfg), steps))
    ensures var st := Run(cfg, Init(cfg), steps);
      && |st.responses| == Upto(cfg, |st.batches|) <= |cfg.nodes|
      && (CountCompleted(st.responses) < cfg.minAck ==> |st.responses| == |cfg.nodes|)
  {
    InitInv(cfg);
    RunKeepsInv(cfg, Init(cfg), steps);
    SettledOutcome(cfg, steps);
    AtMostOneMark(cfg, steps);
    var st := Run(cfg, Init(cfg), steps);
    UptoStep(cfg, |st.batches|);
    hide Run, CanRun, CountCompleted, QuorumAnswer;
  }
}
