/** The replication protocol behind publish, update and get.

    An operation contacts the found nodes batch by batch.  Every answer is recorded and counted under a mutex;
    the snapshot of the counts is acted on at any later time.  The model is a transition system over these steps. */
module QuorumProtocol {
  import opened Arithmetic
  import opened Common

  type Node = string
  type Answer = seq<string>

  datatype ResponseStatus = Completed | Failed

  /** `ReplicationQuorum` is the rule of publish and update, `FirstAnswer` the rule of get. */
  datatype Rule = ReplicationQuorum | FirstAnswer

  datatype Config = Config(nodes: seq<Node>, batchSize: nat, minAck: nat, rule: Rule)

  /** A node that was sent a message, with the `leftoverNodes` its command carries. */
  datatype Contact = Contact(node: Node, leftover: seq<Node>)

  datatype Response = Response(status: ResponseStatus, answer: Answer)

  /** What one call of `processResponse` holds after it left the mutex. */
  datatype Snapshot = Snapshot(status: ResponseStatus, completed: nat, failed: nat, leftover: seq<Node>, answer: Answer)
  {
    function Number(): nat { completed + failed }
  }

  /** One executed scheduling command: the nodes it contacted and what had been answered by then. */
  datatype Batch = Batch(nodes: seq<Node>, answeredBefore: nat, completedBefore: nat)

  datatype Decision = Complete | GiveUp | ScheduleNext | Ignore

  /** A terminal marking of the operation. */
  datatype Mark = QuorumReached(answer: Answer) | NodesExhausted

  datatype State = State(
    outstanding: seq<Contact>,
    responses: seq<Response>,
    snapshots: set<Snapshot>,
    schedules: seq<seq<Node>>,
    batches: seq<Batch>,
    marks: seq<Mark>)

  datatype Step =
    | Record(i: nat, status: ResponseStatus, answer: Answer)
    | Act(snapshot: Snapshot)
    | Dispatch(j: nat)

  // ----- Decisions -----

  function CountCompleted(rs: seq<Response>): nat {
    if rs == [] then 0
    else CountCompleted(rs[..|rs| - 1]) + if rs[|rs| - 1].status.Completed? then 1 else 0
  }

  /** Does this many answers end a batch or the whole set of found nodes? */
  predicate AtBoundary(cfg: Config, n: nat)
    requires cfg.batchSize >= 1
  {
    n == |cfg.nodes| || n % cfg.batchSize == 0
  }

  function QuorumDecision(cfg: Config, s: Snapshot): Decision
    requires cfg.batchSize >= 1
  {
    DecisionFor(cfg, s, s.Number())
  }

  /** The two branches of `processResponse`; `seen` is the count the batch test looks at. */
  function DecisionFor(cfg: Config, s: Snapshot, seen: nat): Decision
    requires cfg.batchSize >= 1
  {
    if s.status.Completed? && s.completed == cfg.minAck then Complete
    else if s.completed < cfg.minAck && AtBoundary(cfg, seen) then
      if s.leftover == [] then GiveUp else ScheduleNext
    else Ignore
  }

  /** What the code decides: get tests the failures only, publish and update all answers. */
  function Decide(cfg: Config, s: Snapshot): Decision
    requires cfg.batchSize >= 1
  {
    match cfg.rule
    case ReplicationQuorum => QuorumDecision(cfg, s)
    case FirstAnswer => DecisionFor(cfg, s, s.failed)
  }

  // ----- Transitions -----

  function Init(cfg: Config): State {
    State([], [], {}, [cfg.nodes], [], [])
  }

  predicate Enabled(cfg: Config, st: State, step: Step) {
    match step
    case Record(i, _, _) => i < |st.outstanding|
    case Act(s) => s in st.snapshots
    case Dispatch(j) => j < |st.schedules|
  }

  function TakeSnapshot(responses: seq<Response>, leftover: seq<Node>): Snapshot
    requires responses != []
    requires CountCompleted(responses) <= |responses|
  {
    var last := responses[|responses| - 1];
    var completed := CountCompleted(responses);
    Snapshot(last.status, completed, |responses| - completed, leftover, last.answer)
  }

  function RecordStep(st: State, i: nat, status: ResponseStatus, answer: Answer): State
    requires i < |st.outstanding|
  {
    var responses := st.responses + [Response(status, answer)];
    CountBound(responses);
    st.(outstanding := Remove(st.outstanding, i),
        responses := responses,
        snapshots := st.snapshots + {TakeSnapshot(responses, st.outstanding[i].leftover)})
  }

  function ActStep(cfg: Config, st: State, s: Snapshot): State
    requires cfg.batchSize >= 1
  {
    var after := st.(snapshots := st.snapshots - {s});
    match Decide(cfg, s)
    case Complete => after.(marks := st.marks + [QuorumReached(s.answer)])
    case GiveUp => after.(marks := st.marks + [NodesExhausted])
    case ScheduleNext => after.(schedules := st.schedules + [s.leftover])
    case Ignore => after
  }

  function CurrentBatch(cfg: Config, leftover: seq<Node>): seq<Node> {
    if cfg.batchSize < |leftover| then leftover[..cfg.batchSize] else leftover
  }

  function NextLeftover(cfg: Config, leftover: seq<Node>): seq<Node> {
    if cfg.batchSize < |leftover| then leftover[cfg.batchSize..] else []
  }

  function Contacts(nodes: seq<Node>, leftover: seq<Node>): seq<Contact> {
    seq(|nodes|, i requires 0 <= i < |nodes| => Contact(nodes[i], leftover))
  }

  function DispatchStep(cfg: Config, st: State, j: nat): State
    requires j < |st.schedules|
  {
    var leftover := st.schedules[j];
    var current := CurrentBatch(cfg, leftover);
    st.(schedules := Remove(st.schedules, j),
        outstanding := st.outstanding + Contacts(current, NextLeftover(cfg, leftover)),
        batches := st.batches + [Batch(current, |st.responses|, CountCompleted(st.responses))])
  }

  function Apply(cfg: Config, st: State, step: Step): State
    requires cfg.batchSize >= 1
    requires Enabled(cfg, st, step)
  {
    match step
    case Record(i, status, answer) => RecordStep(st, i, status, answer)
    case Act(s) => ActStep(cfg, st, s)
    case Dispatch(j) => DispatchStep(cfg, st, j)
  }

  predicate CanRun(cfg: Config, st: State, steps: seq<Step>)
    requires cfg.batchSize >= 1
    decreases |steps|
  {
    steps == [] || (Enabled(cfg, st, steps[0]) && CanRun(cfg, Apply(cfg, st, steps[0]), steps[1..]))
  }

  function Run(cfg: Config, st: State, steps: seq<Step>): State
    requires cfg.batchSize >= 1
    requires CanRun(cfg, st, steps)
    decreases |steps|
  {
    if steps == [] then st else Run(cfg, Apply(cfg, st, steps[0]), steps[1..])
  }

  /** Every contacted node answered, every snapshot was acted on and every scheduled batch was sent. */
  predicate Quiescent(st: State) {
    st.outstanding == [] && st.snapshots == {} && st.schedules == []
  }

  // ----- Counting -----

  lemma {:induction false} CountBound(rs: seq<Response>)
    ensures CountCompleted(rs) <= |rs|
  {
    if rs != [] {
      CountBound(rs[..|rs| - 1]);
    }
  }

  lemma CountAppend(rs: seq<Response>, x: Response)
    ensures CountCompleted(rs + [x]) == CountCompleted(rs) + if x.status.Completed? then 1 else 0
  {
    assert (rs + [x])[..|rs|] == rs;
  }

  lemma {:induction false} CountMonotone(rs: seq<Response>, a: nat, b: nat)
    requires a <= b <= |rs|
    ensures CountCompleted(rs[..a]) <= CountCompleted(rs[..b])
    ensures a < b && rs[b - 1].status.Completed? ==> CountCompleted(rs[..a]) < CountCompleted(rs[..b])
    decreases b
  {
    if a < b {
      CountMonotone(rs, a, b - 1);
      assert rs[..b][..b - 1] == rs[..b - 1];
    }
  }

  /** The answer carried by the response that made the count reach `m`. */
  function QuorumAnswer(rs: seq<Response>, m: nat): Answer {
    if rs == [] then []
    else
      var before := rs[..|rs| - 1];
      if CountCompleted(before) < m <= CountCompleted(rs) then rs[|rs| - 1].answer else QuorumAnswer(before, m)
  }

  lemma QuorumAnswerStable(rs: seq<Response>, x: Response, m: nat)
    requires CountCompleted(rs) >= m
    ensures QuorumAnswer(rs + [x], m) == QuorumAnswer(rs, m)
  {
    assert (rs + [x])[..|rs|] == rs;
  }

  /** `QuorumAnswer` picks the answer of the first response whose count is `m`. */
  lemma {:induction false} QuorumAnswerAt(rs: seq<Response>, n: nat, m: nat)
    requires 1 <= n <= |rs| && rs[n - 1].status.Completed? && CountCompleted(rs[..n]) == m
    ensures QuorumAnswer(rs, m) == rs[n - 1].answer
    decreases |rs|
  {
    var before := rs[..|rs| - 1];
    assert rs[..|rs|] == rs;
    if n == |rs| {
      assert rs[..n][..n - 1] == before;
    } else {
      assert before[..n] == rs[..n];
      CountMonotone(rs, n, |rs| - 1);
      QuorumAnswerAt(before, n, m);
    }
  }

  // ----- The invariant -----

  /** How many nodes the first `k` batches hold. */
  function Upto(cfg: Config, k: nat): nat {
    Min(k * cfg.batchSize, |cfg.nodes|)
  }

  ghost predicate Taken(cfg: Config, rs: seq<Response>, s: Snapshot)
    requires cfg.batchSize >= 1
  {
    var n := s.Number();
    && 1 <= n <= |rs|
    && s.status == rs[n - 1].status
    && s.answer == rs[n - 1].answer
    && s.completed == CountCompleted(rs[..n])
    && (AtBoundary(cfg, n) && n <= |cfg.nodes| ==> s.leftover == cfg.nodes[n..])
  }

  /** The batches are consecutive slices, each sent after all earlier nodes had answered and without a quorum. */
  ghost predicate BatchesInOrder(cfg: Config, st: State)
    requires cfg.batchSize >= 1
  {
    forall j :: 0 <= j < |st.batches| ==>
      && (j >= 1 ==> Upto(cfg, j) < |cfg.nodes|)
      && Upto(cfg, j) <= Upto(cfg, j + 1)
      && st.batches[j].nodes == cfg.nodes[Upto(cfg, j)..Upto(cfg, j + 1)]
      && st.batches[j].answeredBefore == Upto(cfg, j)
      && (j >= 1 ==> st.batches[j].completedBefore < cfg.minAck)
  }

  ghost predicate ContactsInv(cfg: Config, st: State)
    requires cfg.batchSize >= 1
  {
    var k, r := |st.batches|, |st.responses|;
    var c := Upto(cfg, k);
    && BatchesInOrder(cfg, st)
    && r + |st.outstanding| == c
    && (k >= 1 ==> Upto(cfg, k - 1) <= r)
    && (forall i :: 0 <= i < |st.outstanding| ==> st.outstanding[i].leftover == cfg.nodes[c..])
  }

  ghost predicate SnapshotsInv(cfg: Config, st: State)
    requires cfg.batchSize >= 1
  {
    && (forall s :: s in st.snapshots ==> Taken(cfg, st.responses, s))
    && (forall s, t :: s in st.snapshots && t in st.snapshots && s.Number() == t.Number() ==> s == t)
  }

  ghost predicate Pending(st: State, n: nat) {
    exists s :: s in st.snapshots && s.Number() == n
  }

  /** The last answer of a batch has been recorded without a quorum and more nodes are left. */
  ghost predicate NextBatchDue(cfg: Config, st: State)
    requires cfg.batchSize >= 1
  {
    var c := Upto(cfg, |st.batches|);
    |st.responses| == c < |cfg.nodes| && CountCompleted(st.responses) < cfg.minAck
  }

  ghost predicate SchedulesInv(cfg: Config, st: State)
    requires cfg.batchSize >= 1
  {
    var c := Upto(cfg, |st.batches|);
    && (st.batches == [] ==> st.schedules == [cfg.nodes])
    && (st.batches != [] ==> st.schedules != [] ==>
          st.schedules == [cfg.nodes[c..]] && NextBatchDue(cfg, st) && !Pending(st, c))
    && (st.batches != [] && NextBatchDue(cfg, st) ==> st.schedules != [] || Pending(st, c))
    && (forall s :: s in st.snapshots && QuorumDecision(cfg, s).ScheduleNext? ==> s.Number() == c)
  }

  ghost predicate MarksInv(cfg: Config, st: State)
    requires cfg.batchSize >= 1
  {
    var done := CountCompleted(st.responses) >= cfg.minAck;
    var failed := |st.responses| == |cfg.nodes| && |cfg.nodes| > 0 && !done;
    && (st.marks == [] || st.marks == [NodesExhausted]
        || st.marks == [QuorumReached(QuorumAnswer(st.responses, cfg.minAck))])
    && (st.marks != [] ==> if st.marks[0].QuorumReached? then done else failed)
    && (st.marks == [] && done ==> exists s :: s in st.snapshots && QuorumDecision(cfg, s).Complete?)
    && (st.marks == [] && failed ==> Pending(st, |cfg.nodes|))
    && (forall s :: s in st.snapshots && QuorumDecision(cfg, s).Complete? ==> st.marks == [])
    && (forall s :: s in st.snapshots && QuorumDecision(cfg, s).GiveUp? ==> st.marks == [] && s.Number() == |cfg.nodes|)
  }

  ghost predicate Inv(cfg: Config, st: State)
    requires cfg.batchSize >= 1
  {
    ContactsInv(cfg, st) && SnapshotsInv(cfg, st) && SchedulesInv(cfg, st) && MarksInv(cfg, st)
  }

  /** When does the test of get, which looks at the failures only, agree with the quorum rule? */
  predicate SoundRule(cfg: Config) {
    cfg.rule.ReplicationQuorum? || cfg.minAck == 1 || cfg.batchSize == 1 || |cfg.nodes| <= 1
  }

  predicate Admissible(cfg: Config) {
    cfg.batchSize >= 1 && cfg.minAck >= 1
  }

  lemma DecideIsQuorum(cfg: Config, st: State, s: Snapshot)
    requires Admissible(cfg) && SoundRule(cfg)
    requires s.completed + s.failed >= 1 && (s.status.Completed? ==> s.completed >= 1)
    requires s.Number() <= |cfg.nodes|
    ensures Decide(cfg, s) == QuorumDecision(cfg, s)
  {
    if cfg.rule.FirstAnswer? && cfg.minAck != 1 {
      if cfg.batchSize == 1 {
        assert s.failed % 1 == 0 && s.Number() % 1 == 0;
      } else {
        assert s.Number() == 1;
        assert s.failed == 0 || s.failed == 1;
      }
    }
  }

  lemma UptoStep(cfg: Config, k: nat)
    requires cfg.batchSize >= 1
    ensures Upto(cfg, k) <= Upto(cfg, k + 1) <= |cfg.nodes|
    ensures Upto(cfg, k + 1) == Min(Upto(cfg, k) + cfg.batchSize, |cfg.nodes|)
    ensures Upto(cfg, 0) == 0
  {
    assert (k + 1) * cfg.batchSize == k * cfg.batchSize + cfg.batchSize;
  }

  /** The only count inside a batch that ends a batch is the one of its last node. */
  lemma BoundaryInBatch(cfg: Config, k: nat, n: nat)
    requires cfg.batchSize >= 1
    requires Upto(cfg, k) < n <= Upto(cfg, k + 1)
    ensures AtBoundary(cfg, n) <==> n == Upto(cfg, k + 1)
  {
    var b := cfg.batchSize;
    UptoStep(cfg, k);
    assert k * b < |cfg.nodes|;
    assert Upto(cfg, k) == k * b;
    var d := n - k * b;
    assert 1 <= d <= b;
    MultipleInRange(k, b, d);
  }

  // ----- Every step keeps the invariant -----

  lemma InitInv(cfg: Config)
    requires Admissible(cfg)
    ensures Inv(cfg, Init(cfg))
  {
    assert cfg.nodes[0..] == cfg.nodes;
  }

  lemma RecordKeepsContacts(cfg: Config, st: State, i: nat, status: ResponseStatus, answer: Answer)
    requires Admissible(cfg) && ContactsInv(cfg, st) && i < |st.outstanding|
    ensures ContactsInv(cfg, RecordStep(st, i, status, answer))
    ensures 1 <= |st.batches| && |st.responses| < Upto(cfg, |st.batches|) <= |cfg.nodes|
    ensures AtBoundary(cfg, |st.responses| + 1) <==> |st.responses| + 1 == Upto(cfg, |st.batches|)
    ensures st.outstanding[i].leftover == cfg.nodes[Upto(cfg, |st.batches|)..]
  {
    hide BatchesInOrder;
    var k := |st.batches|;
    UptoStep(cfg, if k == 0 then 0 else k - 1);
    BoundaryInBatch(cfg, k - 1, |st.responses| + 1);
    var st' := RecordStep(st, i, status, answer);
    assert BatchesInOrder(cfg, st') by {
      SameBatches(cfg, st, st');
    }
  }

  lemma SameBatches(cfg: Config, st: State, st': State)
    requires cfg.batchSize >= 1 && BatchesInOrder(cfg, st) && st'.batches == st.batches
    ensures BatchesInOrder(cfg, st')
  {
  }

  lemma RecordKeepsSnapshots(cfg: Config, st: State, i: nat, status: ResponseStatus, answer: Answer)
    requires Admissible(cfg) && ContactsInv(cfg, st) && SnapshotsInv(cfg, st) && i < |st.outstanding|
    ensures SnapshotsInv(cfg, RecordStep(st, i, status, answer))
    ensures forall t :: t in st.snapshots ==> t.Number() <= |st.responses|
  {
    var st' := RecordStep(st, i, status, answer);
    var rs, rs' := st.responses, st'.responses;
    RecordKeepsContacts(cfg, st, i, status, answer);
    hide ContactsInv;
    CountBound(rs');
    assert rs'[..|rs| + 1] == rs';
    assert Taken(cfg, rs', TakeSnapshot(rs', st.outstanding[i].leftover));
    forall t | t in st.snapshots
      ensures Taken(cfg, rs', t) && t.Number() <= |rs|
    {
      assert Taken(cfg, rs, t);
      assert rs'[..t.Number()] == rs[..t.Number()];
    }
  }

  /** The snapshot that recording a response takes. */
  lemma RecordedSnapshot(cfg: Config, st: State, i: nat, status: ResponseStatus, answer: Answer) returns (s: Snapshot)
    requires Admissible(cfg) && i < |st.outstanding|
    ensures var st' := RecordStep(st, i, status, answer);
      && st'.snapshots == st.snapshots + {s}
      && s.Number() == |st'.responses| == |st.responses| + 1
      && s.status == status && s.leftover == st.outstanding[i].leftover
      && s.completed == CountCompleted(st'.responses)
      && s.completed == CountCompleted(st.responses) + if status.Completed? then 1 else 0
  {
    var rs' := RecordStep(st, i, status, answer).responses;
    CountBound(rs');
    CountAppend(st.responses, Response(status, answer));
    s := TakeSnapshot(rs', st.outstanding[i].leftover);
  }

  lemma RecordKeepsSchedules(cfg: Config, st: State, i: nat, status: ResponseStatus, answer: Answer)
    requires Admissible(cfg) && Inv(cfg, st) && i < |st.outstanding|
    ensures SchedulesInv(cfg, RecordStep(st, i, status, answer))
  {
    RecordKeepsContacts(cfg, st, i, status, answer);
    RecordKeepsSnapshots(cfg, st, i, status, answer);
    var s := RecordedSnapshot(cfg, st, i, status, answer);
    hide ContactsInv, SnapshotsInv, MarksInv, CountCompleted;
    var st' := RecordStep(st, i, status, answer);
    assert st'.schedules == st.schedules && st'.batches == st.batches && s in st'.snapshots;
  }

  lemma RecordKeepsMarks(cfg: Config, st: State, i: nat, status: ResponseStatus, answer: Answer)
    requires Admissible(cfg) && Inv(cfg, st) && i < |st.outstanding|
    ensures MarksInv(cfg, RecordStep(st, i, status, answer))
  {
    RecordKeepsContacts(cfg, st, i, status, answer);
    RecordKeepsSnapshots(cfg, st, i, status, answer);
    var s := RecordedSnapshot(cfg, st, i, status, answer);
    hide ContactsInv, SnapshotsInv, SchedulesInv, Upto;
    var st' := RecordStep(st, i, status, answer);
    assert st'.marks == st.marks && s in st'.snapshots;
    if CountCompleted(st.responses) >= cfg.minAck {
      QuorumAnswerStable(st.responses, Response(status, answer), cfg.minAck);
    }
    hide CountCompleted, QuorumAnswer;
  }

  lemma RecordKeepsInv(cfg: Config, st: State, i: nat, status: ResponseStatus, answer: Answer)
    requires Admissible(cfg) && Inv(cfg, st) && i < |st.outstanding|
    ensures Inv(cfg, RecordStep(st, i, status, answer))
  {
    hide ContactsInv, SnapshotsInv, SchedulesInv, MarksInv;
    RecordKeepsContacts(cfg, st, i, status, answer);
    RecordKeepsSnapshots(cfg, st, i, status, answer);
    RecordKeepsSchedules(cfg, st, i, status, answer);
    RecordKeepsMarks(cfg, st, i, status, answer);
  }

  lemma SnapshotFacts(cfg: Config, st: State, s: Snapshot)
    requires Admissible(cfg) && ContactsInv(cfg, st) && SnapshotsInv(cfg, st) && s in st.snapshots
    ensures 1 <= s.Number() <= |st.responses| <= Upto(cfg, |st.batches|) <= |cfg.nodes|
    ensures s.completed <= CountCompleted(st.responses)
    ensures s.status.Completed? ==> s.completed >= 1
    ensures s.Number() == |st.responses| ==> s.completed == CountCompleted(st.responses)
  {
    var rs, n := st.responses, s.Number();
    assert Taken(cfg, rs, s);
    CountMonotone(rs, n, |rs|);
    assert rs[..|rs|] == rs;
    CountMonotone(rs, 0, n);
  }

  /** While `s` waits to be acted on, the other snapshots cannot decide against it. */
  lemma OtherSnapshots(cfg: Config, st: State, s: Snapshot, t: Snapshot)
    requires Admissible(cfg) && ContactsInv(cfg, st) && SnapshotsInv(cfg, st)
    requires s in st.snapshots && t in st.snapshots && s != t
    ensures s.Number() != t.Number()
    ensures QuorumDecision(cfg, s).Complete? ==> !QuorumDecision(cfg, t).Complete?
    ensures QuorumDecision(cfg, s).Complete? && QuorumDecision(cfg, t).GiveUp? ==> t.Number() != |cfg.nodes|
  {
    SnapshotFacts(cfg, st, s);
    SnapshotFacts(cfg, st, t);
    assert Taken(cfg, st.responses, s) && Taken(cfg, st.responses, t);
    if s.Number() < t.Number() {
      CountMonotone(st.responses, s.Number(), t.Number());
    } else {
      CountMonotone(st.responses, t.Number(), s.Number());
    }
  }

  lemma LastBatchBoundary(cfg: Config, st: State)
    requires Admissible(cfg) && ContactsInv(cfg, st) && |st.responses| >= 1
    ensures st.batches != [] && AtBoundary(cfg, Upto(cfg, |st.batches|))
  {
    var k := |st.batches|;
    UptoStep(cfg, 0);
    assert k >= 2 ==> Upto(cfg, k - 1) < |cfg.nodes|;
    UptoStep(cfg, k - 1);
    BoundaryInBatch(cfg, k - 1, Upto(cfg, k));
  }

  lemma PendingAfterAct(cfg: Config, st: State, s: Snapshot, m: nat)
    requires Admissible(cfg) && SnapshotsInv(cfg, st) && s in st.snapshots
    ensures Pending(ActStep(cfg, st, s), m) <==> Pending(st, m) && m != s.Number()
  {
    var st' := ActStep(cfg, st, s);
    if Pending(st, m) && m != s.Number() {
      var t :| t in st.snapshots && t.Number() == m;
      assert t in st'.snapshots;
    }
  }

  lemma ActKeepsSchedules(cfg: Config, st: State, s: Snapshot)
    requires Admissible(cfg) && SoundRule(cfg) && Inv(cfg, st) && s in st.snapshots
    ensures SchedulesInv(cfg, ActStep(cfg, st, s))
  {
    var st' := ActStep(cfg, st, s);
    var n, c := s.Number(), Upto(cfg, |st.batches|);
    SnapshotFacts(cfg, st, s);
    DecideIsQuorum(cfg, st, s);
    LastBatchBoundary(cfg, st);
    PendingAfterAct(cfg, st, s, c);
    assert Taken(cfg, st.responses, s);
    hide ContactsInv, SnapshotsInv, MarksInv, CountCompleted;
    assert Pending(st, n);
    if NextBatchDue(cfg, st) && n == c {
      assert QuorumDecision(cfg, s).ScheduleNext?;
      assert st.schedules == [];
      assert st'.schedules == [cfg.nodes[c..]];
    }
  }

  lemma ActKeepsMarks(cfg: Config, st: State, s: Snapshot)
    requires Admissible(cfg) && SoundRule(cfg) && Inv(cfg, st) && s in st.snapshots
    ensures MarksInv(cfg, ActStep(cfg, st, s))
  {
    hide ContactsInv, SchedulesInv, CountCompleted;
    var st' := ActStep(cfg, st, s);
    var n := s.Number();
    SnapshotFacts(cfg, st, s);
    DecideIsQuorum(cfg, st, s);
    assert Taken(cfg, st.responses, s);
    forall t | t in st'.snapshots
      ensures t in st.snapshots
      ensures QuorumDecision(cfg, s).Complete? || QuorumDecision(cfg, s).GiveUp?
        ==> !QuorumDecision(cfg, t).Complete? && !QuorumDecision(cfg, t).GiveUp?
    {
      OtherSnapshots(cfg, st, s, t);
      OtherSnapshots(cfg, st, t, s);
    }
    if QuorumDecision(cfg, s).Complete? {
      QuorumAnswerAt(st.responses, n, cfg.minAck);
    } else if !QuorumDecision(cfg, s).GiveUp? {
      if CountCompleted(st.responses) >= cfg.minAck && st.marks == [] {
        var t :| t in st.snapshots && QuorumDecision(cfg, t).Complete?;
        assert t in st'.snapshots;
      } else if Pending(st, |cfg.nodes|) && CountCompleted(st.responses) < cfg.minAck {
        var t :| t in st.snapshots && t.Number() == |cfg.nodes|;
        SnapshotFacts(cfg, st, t);
        assert Taken(cfg, st.responses, t);
        assert QuorumDecision(cfg, t).GiveUp?;
        assert t in st'.snapshots;
      }
    }
  }

  lemma ActKeepsInv(cfg: Config, st: State, s: Snapshot)
    requires Admissible(cfg) && SoundRule(cfg) && Inv(cfg, st) && s in st.snapshots
    ensures Inv(cfg, ActStep(cfg, st, s))
  {
    hide SchedulesInv, MarksInv, CountCompleted, BatchesInOrder;
    ActKeepsSchedules(cfg, st, s);
    ActKeepsMarks(cfg, st, s);
    var st' := ActStep(cfg, st, s);
    SameBatches(cfg, st, st');
    assert ContactsInv(cfg, st');
    assert SnapshotsInv(cfg, st');
  }

  lemma NothingPendingAtDispatch(cfg: Config, st: State)
    requires Admissible(cfg) && Inv(cfg, st) && st.schedules != []
    ensures |st.responses| == Upto(cfg, |st.batches|) && st.outstanding == []
    ensures st.schedules == [cfg.nodes[Upto(cfg, |st.batches|)..]]
    ensures st.batches != [] ==> Upto(cfg, |st.batches|) < |cfg.nodes| && CountCompleted(st.responses) < cfg.minAck
    ensures forall s :: s in st.snapshots ==> !QuorumDecision(cfg, s).ScheduleNext?
  {
    UptoStep(cfg, 0);
    assert cfg.nodes[0..] == cfg.nodes;
  }

  lemma BatchAppended(cfg: Config, st: State, st': State, b: Batch)
    requires cfg.batchSize >= 1 && BatchesInOrder(cfg, st) && st'.batches == st.batches + [b]
    requires var k := |st.batches|;
      && (k >= 1 ==> Upto(cfg, k) < |cfg.nodes| && b.completedBefore < cfg.minAck)
      && b.answeredBefore == Upto(cfg, k) <= Upto(cfg, k + 1)
      && b.nodes == cfg.nodes[Upto(cfg, k)..Upto(cfg, k + 1)]
    ensures BatchesInOrder(cfg, st')
  {
    hide Upto;
    assert forall i :: 0 <= i < |st.batches| ==> st'.batches[i] == st.batches[i];
  }

  lemma SliceOfBatch(cfg: Config, k: nat)
    requires cfg.batchSize >= 1 && Upto(cfg, k) <= |cfg.nodes| && Upto(cfg, k + 1) <= |cfg.nodes|
    ensures CurrentBatch(cfg, cfg.nodes[Upto(cfg, k)..]) == cfg.nodes[Upto(cfg, k)..Upto(cfg, k + 1)]
    ensures NextLeftover(cfg, cfg.nodes[Upto(cfg, k)..]) == cfg.nodes[Upto(cfg, k + 1)..]
  {
    UptoStep(cfg, k);
    hide Upto;
  }

  lemma FreshContacts(nodes: seq<Node>, leftover: seq<Node>)
    ensures |Contacts(nodes, leftover)| == |nodes|
    ensures forall i :: 0 <= i < |nodes| ==> Contacts(nodes, leftover)[i].leftover == leftover
  {
  }

  /** What sending the next batch changes. */
  lemma Dispatched(cfg: Config, st: State, j: nat)
    requires Admissible(cfg) && Inv(cfg, st) && j < |st.schedules|
    ensures var st', c, c' := DispatchStep(cfg, st, j), Upto(cfg, |st.batches|), Upto(cfg, |st.batches| + 1);
      && c <= c' <= |cfg.nodes| && st'.schedules == [] && st'.responses == st.responses
      && st'.outstanding == Contacts(cfg.nodes[c..c'], cfg.nodes[c'..])
      && st'.batches == st.batches + [Batch(cfg.nodes[c..c'], c, CountCompleted(st.responses))]
  {
    NothingPendingAtDispatch(cfg, st);
    UptoStep(cfg, |st.batches|);
    SliceOfBatch(cfg, |st.batches|);
    hide Inv, CountCompleted, Upto, CurrentBatch, NextLeftover, Contacts;
  }

  lemma SentContacts(cfg: Config, st: State, st': State, c: nat, c': nat, b: Batch)
    requires cfg.batchSize >= 1 && BatchesInOrder(cfg, st') && st'.batches == st.batches + [b]
    requires c == Upto(cfg, |st.batches|) && c' == Upto(cfg, |st.batches| + 1) && c <= c' <= |cfg.nodes|
    requires |st'.responses| == c && st'.outstanding == Contacts(cfg.nodes[c..c'], cfg.nodes[c'..])
    ensures ContactsInv(cfg, st')
  {
    FreshContacts(cfg.nodes[c..c'], cfg.nodes[c'..]);
    hide Contacts, BatchesInOrder, Upto;
  }

  lemma DispatchKeepsContacts(cfg: Config, st: State, j: nat)
    requires Admissible(cfg) && Inv(cfg, st) && j < |st.schedules|
    ensures ContactsInv(cfg, DispatchStep(cfg, st, j))
    ensures DispatchStep(cfg, st, j).schedules == []
  {
    NothingPendingAtDispatch(cfg, st);
    Dispatched(cfg, st, j);
    assert BatchesInOrder(cfg, st);
    hide Inv, ContactsInv, CountCompleted, BatchesInOrder, Upto, DispatchStep, Contacts;
    var st', c, c' := DispatchStep(cfg, st, j), Upto(cfg, |st.batches|), Upto(cfg, |st.batches| + 1);
    var b := Batch(cfg.nodes[c..c'], c, CountCompleted(st.responses));
    BatchAppended(cfg, st, st', b);
    SentContacts(cfg, st, st', c, c', b);
  }

  lemma DispatchKeepsInv(cfg: Config, st: State, j: nat)
    requires Admissible(cfg) && Inv(cfg, st) && j < |st.schedules|
    ensures Inv(cfg, DispatchStep(cfg, st, j))
  {
    var st' := DispatchStep(cfg, st, j);
    DispatchKeepsContacts(cfg, st, j);
    NothingPendingAtDispatch(cfg, st);
    UptoStep(cfg, |st.batches|);
    assert SnapshotsInv(cfg, st');
    assert SchedulesInv(cfg, st') by {
      assert !NextBatchDue(cfg, st');
    }
    assert forall n :: Pending(st, n) ==> Pending(st', n);
    assert MarksInv(cfg, st');
  }

  lemma StepKeepsInv(cfg: Config, st: State, step: Step)
    requires Admissible(cfg) && SoundRule(cfg) && Inv(cfg, st) && Enabled(cfg, st, step)
    ensures Inv(cfg, Apply(cfg, st, step))
  {
    hide Inv;
    match step
    case Record(i, status, answer) => RecordKeepsInv(cfg, st, i, status, answer);
    case Act(s) => ActKeepsInv(cfg, st, s);
    case Dispatch(j) => DispatchKeepsInv(cfg, st, j);
  }

  lemma {:induction false} RunKeepsInv(cfg: Config, st: State, steps: seq<Step>)
    requires Admissible(cfg) && SoundRule(cfg) && Inv(cfg, st) && CanRun(cfg, st, steps)
    ensures Inv(cfg, Run(cfg, st, steps))
    decreases |steps|
  {
    hide Inv;
    if steps != [] {
      StepKeepsInv(cfg, st, steps[0]);
      RunKeepsInv(cfg, Apply(cfg, st, steps[0]), steps[1..]);
    }
  }

  // ----- Main results -----

  /** In every interleaving there is at most one terminal marking, and it is the right one. */
  lemma AtMostOneMark(cfg: Config, steps: seq<Step>)
    requires Admissible(cfg) && SoundRule(cfg) && CanRun(cfg, Init(cfg), steps)
    ensures var st := Run(cfg, Init(cfg), steps);
      && |st.marks| <= 1
      && (forall a :: QuorumReached(a) in st.marks ==>
            CountCompleted(st.responses) >= cfg.minAck && a == QuorumAnswer(st.responses, cfg.minAck))
      && (NodesExhausted in st.marks ==>
            && |st.responses| == |cfg.nodes| && st.outstanding == []
            && CountCompleted(st.responses) < cfg.minAck)
  {
    InitInv(cfg);
    RunKeepsInv(cfg, Init(cfg), steps);
    var st := Run(cfg, Init(cfg), steps);
    UptoStep(cfg, |st.batches|);
  }

  /** A run in which everything settled has exactly one marking as soon as a node was found; with no node it has
      none. */
  lemma SettledOutcome(cfg: Config, steps: seq<Step>)
    requires Admissible(cfg) && SoundRule(cfg) && CanRun(cfg, Init(cfg), steps)
    requires Quiescent(Run(cfg, Init(cfg), steps))
    ensures var st := Run(cfg, Init(cfg), steps);
      var reached := CountCompleted(st.responses) >= cfg.minAck;
      && (cfg.nodes == [] <==> st.marks == [])
      && (reached <==> st.marks == [QuorumReached(QuorumAnswer(st.responses, cfg.minAck))])
      && (|st.responses| == |cfg.nodes| > 0 && !reached <==> st.marks == [NodesExhausted])
  {
    InitInv(cfg);
    RunKeepsInv(cfg, Init(cfg), steps);
    var st := Run(cfg, Init(cfg), steps);
    UptoStep(cfg, |st.batches|);
    CountBound(st.responses);
    assert st.batches != [];
    assert !Pending(st, Upto(cfg, |st.batches|)) && !Pending(st, |cfg.nodes|);
    if CountCompleted(st.responses) < cfg.minAck {
      assert !NextBatchDue(cfg, st);
      assert |st.responses| == |cfg.nodes|;
    }
  }

  function ContactedNodes(batches: seq<Batch>): seq<Node> {
    if batches == [] then [] else ContactedNodes(batches[..|batches| - 1]) + batches[|batches| - 1].nodes
  }

  lemma {:induction false} ContactedIsPrefix(cfg: Config, st: State, k: nat)
    requires cfg.batchSize >= 1 && BatchesInOrder(cfg, st) && k <= |st.batches|
    ensures ContactedNodes(st.batches[..k]) == cfg.nodes[..Upto(cfg, k)]
  {
    UptoStep(cfg, 0);
    if k > 0 {
      ContactedIsPrefix(cfg, st, k - 1);
      assert st.batches[..k][..k - 1] == st.batches[..k - 1];
      assert st.batches[k - 1].nodes == cfg.nodes[Upto(cfg, k - 1)..Upto(cfg, k - 1 + 1)];
      assert cfg.nodes[..Upto(cfg, k)] == cfg.nodes[..Upto(cfg, k - 1)] + cfg.nodes[Upto(cfg, k - 1)..Upto(cfg, k)];
    }
  }

  /** Batches are consecutive slices that together form a prefix of the found nodes. */
  lemma BatchesAreSlices(cfg: Config, steps: seq<Step>)
    requires Admissible(cfg) && SoundRule(cfg) && CanRun(cfg, Init(cfg), steps)
    ensures var batches := Run(cfg, Init(cfg), steps).batches;
      && ContactedNodes(batches) == cfg.nodes[..Upto(cfg, |batches|)]
      && forall j :: 0 <= j < |batches| ==>
           Upto(cfg, j) <= Upto(cfg, j + 1) && batches[j].nodes == cfg.nodes[Upto(cfg, j)..Upto(cfg, j + 1)]
  {
    InitInv(cfg);
    RunKeepsInv(cfg, Init(cfg), steps);
    var st := Run(cfg, Init(cfg), steps);
    ContactedIsPrefix(cfg, st, |st.batches|);
    assert st.batches[..|st.batches|] == st.batches;
  }

  /** A later batch is sent when exactly the nodes of all earlier ones have answered, without a quorum.  At most one
      batch is waiting to be sent, and none once the quorum is reached. */
  lemma BatchesWaitForAnswers(cfg: Config, steps: seq<Step>)
    requires Admissible(cfg) && SoundRule(cfg) && CanRun(cfg, Init(cfg), steps)
    ensures var st := Run(cfg, Init(cfg), steps);
      && (forall j :: 1 <= j < |st.batches| ==>
            st.batches[j].answeredBefore == Upto(cfg, j) < |cfg.nodes| && st.batches[j].completedBefore < cfg.minAck)
      && |st.schedules| <= 1
      && (st.batches != [] && CountCompleted(st.responses) >= cfg.minAck ==> st.schedules == [])
      && (st.batches != [] && st.schedules != [] ==> st.outstanding == [] && |st.responses| == Upto(cfg, |st.batches|))
  {
    InitInv(cfg);
    RunKeepsInv(cfg, Init(cfg), steps);
  }

  function Measure(cfg: Config, st: State): int {
    3 * (|cfg.nodes| - |st.responses|) + 2 * |st.snapshots| + |st.schedules|
  }

  lemma StepDecreasesMeasure(cfg: Config, st: State, step: Step)
    requires cfg.batchSize >= 1 && Enabled(cfg, st, step)
    ensures Measure(cfg, Apply(cfg, st, step)) < Measure(cfg, st)
  {
    match step
    case Record(i, status, answer) =>
      var st' := RecordStep(st, i, status, answer);
      CountBound(st'.responses);
      var s := TakeSnapshot(st'.responses, st.outstanding[i].leftover);
      assert |st'.snapshots| <= |st.snapshots| + 1;
    case Act(s) =>
      assert |st.snapshots - {s}| == |st.snapshots| - 1;
    case Dispatch(_) =>
  }

  lemma {:induction false} RunIsBoundedFrom(cfg: Config, st: State, steps: seq<Step>)
    requires Admissible(cfg) && SoundRule(cfg) && Inv(cfg, st) && CanRun(cfg, st, steps)
    ensures |steps| <= Measure(cfg, st)
    decreases |steps|
  {
    if steps == [] {
      UptoStep(cfg, |st.batches|);
    } else {
      StepKeepsInv(cfg, st, steps[0]);
      StepDecreasesMeasure(cfg, st, steps[0]);
      RunIsBoundedFrom(cfg, Apply(cfg, st, steps[0]), steps[1..]);
    }
  }

  /** No interleaving can go on for ever. */
  lemma RunIsBounded(cfg: Config, steps: seq<Step>)
    requires Admissible(cfg) && SoundRule(cfg) && CanRun(cfg, Init(cfg), steps)
    ensures |steps| <= 3 * |cfg.nodes| + 1
  {
    InitInv(cfg);
    RunIsBoundedFrom(cfg, Init(cfg), steps);
  }

  // ----- When the rule of get is correct -----

  /** Nobody gives up, and no further batch is waiting, while an earlier node can still answer. */
  predicate Orderly(cfg: Config, st: State) {
    && (NodesExhausted in st.marks ==> |st.responses| == |cfg.nodes|)
    && (st.batches != [] && st.schedules != [] ==> st.outstanding == [])
  }

  lemma RunOneMore(cfg: Config, st: State, step: Step, rest: seq<Step>)
    requires cfg.batchSize >= 1 && Enabled(cfg, st, step) && CanRun(cfg, Apply(cfg, st, step), rest)
    ensures CanRun(cfg, st, [step] + rest)
    ensures Run(cfg, st, [step] + rest) == Run(cfg, Apply(cfg, st, step), rest)
  {
    assert ([step] + rest)[1..] == rest;
  }

  /** One success of the first batch makes an unsound get act as if that batch had failed. */
  lemma UnsoundGetRun(cfg: Config) returns (steps: seq<Step>)
    requires Admissible(cfg) && !SoundRule(cfg)
    ensures CanRun(cfg, Init(cfg), steps) && !Orderly(cfg, Run(cfg, Init(cfg), steps))
  {
    var st0 := Init(cfg);
    var st1 := Apply(cfg, st0, Dispatch(0));
    var st2 := Apply(cfg, st1, Record(0, Completed, []));
    var leftover := NextLeftover(cfg, cfg.nodes);
    assert st2.responses == [Response(Completed, [])];
    assert CountCompleted(st2.responses[..0]) == 0;
    CountAppend([], Response(Completed, []));
    assert [] + [Response(Completed, [])] == st2.responses;
    var s := Snapshot(Completed, 1, 0, leftover, []);
    assert s in st2.snapshots;
    assert Decide(cfg, s) == if leftover == [] then GiveUp else ScheduleNext;
    var st3 := Apply(cfg, st2, Act(s));
    steps := [Dispatch(0), Record(0, Completed, []), Act(s)];
    RunOneMore(cfg, st2, Act(s), []);
    RunOneMore(cfg, st1, Record(0, Completed, []), [Act(s)]);
    RunOneMore(cfg, st0, Dispatch(0), [Record(0, Completed, []), Act(s)]);
    assert |st3.outstanding| >= 1;
  }

  /** The failure test of get is correct exactly for the configurations in `SoundRule`. */
  lemma RuleIsSoundIff(cfg: Config)
    requires Admissible(cfg)
    ensures SoundRule(cfg) <==>
      forall steps :: CanRun(cfg, Init(cfg), steps) ==> Orderly(cfg, Run(cfg, Init(cfg), steps))
  {
    if SoundRule(cfg) {
      forall steps | CanRun(cfg, Init(cfg), steps)
        ensures Orderly(cfg, Run(cfg, Init(cfg), steps))
      {
        AtMostOneMark(cfg, steps);
        BatchesWaitForAnswers(cfg, steps);
      }
    } else {
      var steps := UnsoundGetRun(cfg);
    }
  }
}
