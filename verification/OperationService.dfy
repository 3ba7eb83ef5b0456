/** The publish, update and get services as objects over their database rows, refining `QuorumProtocol`. */
module OperationServices {
  import opened Common
  import opened QuorumProtocol

  datatype OperationStatus = InProgress | OperationCompleted | OperationFailed

  /** A row of the operation's response table. */
  datatype Row = Row(keyword: string, status: ResponseStatus)

  datatype Counts = Counts(completedNumber: nat, failedNumber: nat)

  /** What a get stores for its client. */
  datatype CachedData = CachedAssertion(nquads: Answer) | UnableToFind

  /** An update of the operation id, which the client watches. */
  datatype IdUpdate = Reached(status: string) | IdFailed(message: string, errorType: string)

  /** What a service tells its client: the status at the start of a batch, those of a completed operation, and the type
      of its errors. */
  datatype Statuses = Statuses(start: string, completed: seq<string>, errorType: string)

  function StatusOf(rule: Rule, mark: Mark): OperationStatus {
    if rule.ReplicationQuorum? && mark.NodesExhausted? then OperationFailed else OperationCompleted
  }

  /** The status writes the markings stand for, in order. */
  function StatusWrites(rule: Rule, marks: seq<Mark>): seq<OperationStatus> {
    seq(|marks|, i requires 0 <= i < |marks| => StatusOf(rule, marks[i]))
  }

  /** The cache writes the markings stand for: only a get passes response data on. */
  function CacheWrites(rule: Rule, marks: seq<Mark>): seq<CachedData> {
    if rule.ReplicationQuorum? then [] else seq(|marks|, i requires 0 <= i < |marks| => CacheWrite(marks[i]))
  }

  function CacheWrite(mark: Mark): CachedData {
    match mark
    case QuorumReached(answer) => CachedAssertion(answer)
    case NodesExhausted => UnableToFind
  }

  /** The updates of the operation id that one marking stands for. */
  function UpdatesOf(rule: Rule, statuses: Statuses, mark: Mark): seq<IdUpdate> {
    if StatusOf(rule, mark).OperationFailed? then [IdFailed("Not replicated to enough nodes!", statuses.errorType)]
    else AllReached(statuses.completed)
  }

  function AllReached(statuses: seq<string>): seq<IdUpdate> {
    seq(|statuses|, i requires 0 <= i < |statuses| => Reached(statuses[i]))
  }

  function IdUpdates(rule: Rule, statuses: Statuses, marks: seq<Mark>): seq<IdUpdate> {
    if marks == [] then []
    else IdUpdates(rule, statuses, marks[..|marks| - 1]) + UpdatesOf(rule, statuses, marks[|marks| - 1])
  }

  /** The updates of the operation id in one step of the protocol. */
  function UpdatesIn(cfg: Config, statuses: Statuses, step: Step): seq<IdUpdate>
    requires cfg.batchSize >= 1
  {
    match step
    case Record(_, _, _) => []
    case Act(s) =>
      (match Decide(cfg, s)
       case Complete => UpdatesOf(cfg.rule, statuses, QuorumReached(s.answer))
       case GiveUp => UpdatesOf(cfg.rule, statuses, NodesExhausted)
       case _ => [])
    case Dispatch(_) => [Reached(statuses.start)]
  }

  lemma IdUpdatesAppend(rule: Rule, statuses: Statuses, marks: seq<Mark>, mark: Mark)
    ensures IdUpdates(rule, statuses, marks + [mark])
      == IdUpdates(rule, statuses, marks) + UpdatesOf(rule, statuses, mark)
  {
    assert (marks + [mark])[..|marks|] == marks;
  }

  lemma CountPrefixes(rs: seq<Response>)
    ensures CountCompleted(rs[..0]) == 0
    ensures forall i :: 0 <= i < |rs| ==>
      CountCompleted(rs[..i + 1]) == CountCompleted(rs[..i]) + if rs[i].status.Completed? then 1 else 0
  {
    forall i | 0 <= i < |rs|
      ensures CountCompleted(rs[..i + 1]) == CountCompleted(rs[..i]) + if rs[i].status.Completed? then 1 else 0
    {
      assert rs[..i + 1] == rs[..i] + [rs[i]];
      CountAppend(rs[..i], rs[i]);
    }
  }

  lemma WritesAppend(rule: Rule, marks: seq<Mark>, mark: Mark)
    ensures StatusWrites(rule, marks + [mark]) == StatusWrites(rule, marks) + [StatusOf(rule, mark)]
    ensures CacheWrites(rule, marks + [mark]) == CacheWrites(rule, marks) + CacheWrites(rule, [mark])
  {
  }

  class OperationService {
    const cfg: Config
    const keyword: string
    const statuses: Statuses

    var rows: seq<Row>
    var outstanding: seq<Contact>
    var waiting: set<Snapshot>
    var queuedLeftovers: seq<seq<Node>>
    var statusWrites: seq<OperationStatus>
    var cacheWrites: seq<CachedData>
    var idUpdates: seq<IdUpdate>

    // history that the tables do not keep
    ghost var answers: seq<Answer>
    ghost var batches: seq<Batch>
    ghost var marks: seq<Mark>

    ghost predicate Valid()
      reads this
    {
      && cfg.batchSize >= 1
      && |answers| == |rows|
      && (forall i :: 0 <= i < |rows| ==> rows[i].keyword == keyword)
      && statusWrites == StatusWrites(cfg.rule, marks)
      && cacheWrites == CacheWrites(cfg.rule, marks)
    }

    ghost function Responses(): seq<Response>
      reads this
      requires |answers| == |rows|
    {
      seq(|rows|, i requires 0 <= i < |rows| reads this requires |answers| == |rows| =>
        Response(rows[i].status, answers[i]))
    }

    ghost function View(): State
      reads this
      requires Valid()
    {
      State(outstanding, Responses(), waiting, queuedLeftovers, batches, marks)
    }

    constructor (cfg: Config, keyword: string, statuses: Statuses)
      requires cfg.batchSize >= 1
      ensures Valid() && View() == Init(cfg) && idUpdates == []
      ensures this.cfg == cfg && this.keyword == keyword && this.statuses == statuses
    {
      this.cfg, this.keyword, this.statuses := cfg, keyword, statuses;
      rows, outstanding, waiting, queuedLeftovers := [], [], {}, [cfg.nodes];
      statusWrites, cacheWrites, idUpdates := [], [], [];
      answers, batches, marks := [], [], [];
    }

    /** The critical section: record the response, then count all rows by keyword. */
    method GetResponsesStatuses(status: ResponseStatus, ghost answer: Answer) returns (statuses: map<string, Counts>)
      requires Valid()
      modifies this`rows, this`answers
      ensures Valid()
      ensures rows == old(rows) + [Row(keyword, status)] && answers == old(answers) + [answer]
      ensures Responses() == old(Responses()) + [Response(status, answer)]
      ensures statuses.Keys == {keyword}
      ensures statuses[keyword].completedNumber == CountCompleted(Responses())
      ensures statuses[keyword].completedNumber + statuses[keyword].failedNumber == |rows|
    {
      rows := rows + [Row(keyword, status)];
      answers := answers + [answer];
      assert Responses() == old(Responses()) + [Response(status, answer)];
      hide StatusWrites, CacheWrites, CountCompleted;
      statuses := KeywordsStatuses(rows, keyword, Responses());
    }

    /** Counts the rows by keyword. */
    static method KeywordsStatuses(responses: seq<Row>, ghost keyword: string, ghost rs: seq<Response>)
      returns (statuses: map<string, Counts>)
      requires responses != [] && |rs| == |responses|
      requires forall i :: 0 <= i < |rs| ==> responses[i].keyword == keyword && responses[i].status == rs[i].status
      ensures statuses.Keys == {keyword}
      ensures statuses[keyword].completedNumber == CountCompleted(rs)
      ensures statuses[keyword].completedNumber + statuses[keyword].failedNumber == |rs|
    {
      CountPrefixes(rs);
      hide CountCompleted;
      statuses := map[];
      var i := 0;
      while i < |responses|
        invariant 0 <= i <= |responses|
        invariant statuses.Keys == if i == 0 then {} else {keyword}
        invariant i > 0 ==> statuses[keyword].completedNumber == CountCompleted(rs[..i])
        invariant i > 0 ==> statuses[keyword].completedNumber + statuses[keyword].failedNumber == i
      {
        var row := responses[i];
        if row.keyword !in statuses {
          statuses := statuses[row.keyword := Counts(0, 0)];
        }
        var counts := statuses[row.keyword];
        if row.status.Failed? {
          statuses := statuses[row.keyword := counts.(failedNumber := counts.failedNumber + 1)];
        } else {
          statuses := statuses[row.keyword := counts.(completedNumber := counts.completedNumber + 1)];
        }
        i := i + 1;
      }
      assert rs[..i] == rs;
    }

    /** First half of `processResponse`: one node answers and the snapshot of the counts is taken. */
    method RecordResponse(i: nat, status: ResponseStatus, answer: Answer)
      requires Valid() && i < |outstanding|
      modifies this
      ensures Valid() && View() == RecordStep(old(View()), i, status, answer) && idUpdates == old(idUpdates)
    {
      hide CountCompleted, StatusWrites, CacheWrites;
      var statuses := GetResponsesStatuses(status, answer);
      var counts := statuses[keyword];
      CountBound(Responses());
      var leftover := outstanding[i].leftover;
      waiting := waiting + {Snapshot(status, counts.completedNumber, counts.failedNumber, leftover, answer)};
      outstanding := Remove(outstanding, i);
    }

    method MarkOperationAsCompleted(data: seq<CachedData>, endStatuses: seq<string>, ghost mark: Mark)
      requires Valid() && StatusOf(cfg.rule, mark) == OperationCompleted
      requires data == CacheWrites(cfg.rule, [mark]) && endStatuses == statuses.completed
      modifies this`statusWrites, this`cacheWrites, this`idUpdates, this`marks
      ensures Valid() && marks == old(marks) + [mark]
      ensures statusWrites == old(statusWrites) + [OperationCompleted]
      ensures cacheWrites == old(cacheWrites) + data
      ensures idUpdates == old(idUpdates) + AllReached(endStatuses)
    {
      statusWrites := statusWrites + [OperationCompleted];
      cacheWrites := cacheWrites + data;
      ReachStatuses(endStatuses);
      WritesAppend(cfg.rule, marks, mark);
      hide StatusWrites, CacheWrites, AllReached;
      marks := marks + [mark];
    }

    method ReachStatuses(endStatuses: seq<string>)
      modifies this`idUpdates
      ensures idUpdates == old(idUpdates) + AllReached(endStatuses)
    {
      for i := 0 to |endStatuses|
        invariant idUpdates == old(idUpdates) + AllReached(endStatuses[..i])
      {
        assert AllReached(endStatuses[..i + 1]) == AllReached(endStatuses[..i]) + [Reached(endStatuses[i])];
        idUpdates := idUpdates + [Reached(endStatuses[i])];
      }
      assert endStatuses[..|endStatuses|] == endStatuses;
    }

    method MarkOperationAsFailed(message: string, errorType: string)
      requires Valid() && cfg.rule.ReplicationQuorum?
      requires message == "Not replicated to enough nodes!" && errorType == statuses.errorType
      modifies this`statusWrites, this`idUpdates, this`marks
      ensures Valid() && marks == old(marks) + [NodesExhausted]
      ensures statusWrites == old(statusWrites) + [OperationFailed]
      ensures idUpdates == old(idUpdates) + [IdFailed(message, errorType)]
    {
      statusWrites := statusWrites + [OperationFailed];
      idUpdates := idUpdates + [IdFailed(message, errorType)];
      WritesAppend(cfg.rule, marks, NodesExhausted);
      hide StatusWrites, CacheWrites;
      marks := marks + [NodesExhausted];
    }

    method ScheduleOperationForLeftoverNodes(leftoverNodes: seq<Node>)
      modifies this`queuedLeftovers
      ensures queuedLeftovers == old(queuedLeftovers) + [leftoverNodes]
    {
      queuedLeftovers := queuedLeftovers + [leftoverNodes];
    }

    /** Do all keywords that have an answer meet the quorum? */
    method AllCompleted(statuses: map<string, Counts>) returns (allCompleted: bool)
      ensures allCompleted <==> forall k :: k in statuses ==> statuses[k].completedNumber >= cfg.minAck
    {
      allCompleted := true;
      var keys := statuses.Keys;
      while keys != {}
        invariant keys <= statuses.Keys
        invariant forall k :: k in statuses.Keys - keys ==> statuses[k].completedNumber >= cfg.minAck
        decreases |keys|
      {
        var key :| key in keys;
        if statuses[key].completedNumber < cfg.minAck {
          allCompleted := false;
          break;
        }
        keys := keys - {key};
      }
    }

    /** Second half of `processResponse` for publish and update. */
    method ActForReplication(s: Snapshot)
      requires Valid() && cfg.rule.ReplicationQuorum? && s in waiting
      modifies this
      ensures Valid() && View() == ActStep(cfg, old(View()), s)
      ensures idUpdates == old(idUpdates) + UpdatesIn(cfg, statuses, Act(s))
    {
      waiting := waiting - {s};
      var numberOfResponses := s.completed + s.failed;
      if s.status.Completed? && s.completed == cfg.minAck {
        var allCompleted := AllCompleted(map[keyword := Counts(s.completed, s.failed)]);
        if allCompleted {
          MarkOperationAsCompleted([], statuses.completed, QuorumReached(s.answer));
        }
      } else if s.completed < cfg.minAck &&
                (|cfg.nodes| == numberOfResponses || numberOfResponses % cfg.batchSize == 0) {
        if |s.leftover| == 0 {
          MarkOperationAsFailed("Not replicated to enough nodes!", statuses.errorType);
        } else {
          ScheduleOperationForLeftoverNodes(s.leftover);
        }
      }
    }

    /** Second half of `processResponse` for get: two independent tests, the second one on the failures. */
    method ActForGet(s: Snapshot)
      requires Valid() && cfg.rule.FirstAnswer? && s in waiting
      modifies this
      ensures Valid() && View() == ActStep(cfg, old(View()), s)
      ensures idUpdates == old(idUpdates) + UpdatesIn(cfg, statuses, Act(s))
    {
      waiting := waiting - {s};
      if s.status.Completed? && s.completed == cfg.minAck {
        MarkOperationAsCompleted([CachedAssertion(s.answer)], statuses.completed, QuorumReached(s.answer));
      }
      if s.completed < cfg.minAck && (|cfg.nodes| == s.failed || s.failed % cfg.batchSize == 0) {
        if |s.leftover| == 0 {
          MarkOperationAsCompleted([UnableToFind], statuses.completed, NodesExhausted);
        } else {
          ScheduleOperationForLeftoverNodes(s.leftover);
        }
      }
    }

    /** The scheduling command tells the client that a batch starts and contacts its nodes; the command of every node
        carries what is left after the batch. */
    method ExecuteScheduleMessages(j: nat)
      requires Valid() && j < |queuedLeftovers|
      modifies this
      ensures Valid() && View() == DispatchStep(cfg, old(View()), j)
      ensures idUpdates == old(idUpdates) + UpdatesIn(cfg, statuses, Dispatch(j))
    {
      var leftoverNodes := queuedLeftovers[j];
      queuedLeftovers := Remove(queuedLeftovers, j);
      var currentBatchNodes :=
        if cfg.batchSize <= |leftoverNodes| then leftoverNodes[..cfg.batchSize] else leftoverNodes;
      var currentBatchLeftoverNodes :=
        if cfg.batchSize < |leftoverNodes| then leftoverNodes[cfg.batchSize..] else [];
      assert currentBatchNodes == CurrentBatch(cfg, leftoverNodes);
      idUpdates := idUpdates + [Reached(statuses.start)];
      var contacts := [];
      for i := 0 to |currentBatchNodes|
        invariant contacts == Contacts(currentBatchNodes[..i], currentBatchLeftoverNodes)
      {
        contacts := contacts + [Contact(currentBatchNodes[i], currentBatchLeftoverNodes)];
      }
      assert currentBatchNodes[..|currentBatchNodes|] == currentBatchNodes;
      outstanding := outstanding + contacts;
      assert Responses() == old(Responses());
      batches := batches + [Batch(currentBatchNodes, |rows|, CountCompleted(Responses()))];
      assert Responses() == old(Responses());
    }
  }

  // ----- What clients of the services see -----

  /** A settled publish or update over at least one node wrote exactly one status: completed or failed. */
  lemma ReplicationOutcome(cfg: Config, steps: seq<Step>)
    requires Admissible(cfg) && cfg.rule.ReplicationQuorum? && cfg.nodes != []
    requires CanRun(cfg, Init(cfg), steps) && Quiescent(Run(cfg, Init(cfg), steps))
    ensures var st := Run(cfg, Init(cfg), steps);
      && (StatusWrites(cfg.rule, st.marks) == [OperationCompleted] <==> CountCompleted(st.responses) >= cfg.minAck)
      && (StatusWrites(cfg.rule, st.marks) == [OperationFailed] <==> CountCompleted(st.responses) < cfg.minAck)
  {
    hide Run, CanRun, CountCompleted, QuorumAnswer;
    SettledOutcome(cfg, steps);
    AtMostOneMark(cfg, steps);
    var st := Run(cfg, Init(cfg), steps);
    assert |st.marks| == 1 && st.marks[0] in st.marks;
    assert StatusWrites(cfg.rule, st.marks) == [StatusOf(cfg.rule, st.marks[0])];
  }

  /** All updates of the operation id in a run. */
  function ClientUpdates(cfg: Config, statuses: Statuses, steps: seq<Step>): seq<IdUpdate>
    requires cfg.batchSize >= 1
  {
    if steps == [] then [] else UpdatesIn(cfg, statuses, steps[0]) + ClientUpdates(cfg, statuses, steps[1..])
  }

  function Starts(statuses: Statuses, k: nat): seq<IdUpdate> {
    seq(k, _ => Reached(statuses.start))
  }

  /** One start status per batch so far, and then the updates of the markings so far. */
  function ToldSoFar(cfg: Config, statuses: Statuses, st: State): seq<IdUpdate> {
    Starts(statuses, |st.batches|) + IdUpdates(cfg.rule, statuses, st.marks)
  }

  /** No batch is waiting to be sent once the operation is marked. */
  lemma NoBatchAfterMark(cfg: Config, st: State)
    requires Admissible(cfg) && Inv(cfg, st) && st.schedules != []
    ensures st.marks == []
  {
    NothingPendingAtDispatch(cfg, st);
    UptoStep(cfg, |st.batches|);
    if st.batches == [] {
      UptoStep(cfg, 0);
    }
  }

  lemma ActTells(cfg: Config, statuses: Statuses, st: State, s: Snapshot)
    requires cfg.batchSize >= 1
    ensures ToldSoFar(cfg, statuses, ActStep(cfg, st, s))
      == ToldSoFar(cfg, statuses, st) + UpdatesIn(cfg, statuses, Act(s))
  {
    IdUpdatesAppend(cfg.rule, statuses, st.marks, QuorumReached(s.answer));
    IdUpdatesAppend(cfg.rule, statuses, st.marks, NodesExhausted);
    hide IdUpdates, Starts, UpdatesOf, Decide;
  }

  lemma DispatchTells(cfg: Config, statuses: Statuses, st: State, j: nat)
    requires cfg.batchSize >= 1 && j < |st.schedules| && st.marks == []
    ensures ToldSoFar(cfg, statuses, DispatchStep(cfg, st, j))
      == ToldSoFar(cfg, statuses, st) + UpdatesIn(cfg, statuses, Dispatch(j))
  {
    assert Starts(statuses, |st.batches| + 1) == Starts(statuses, |st.batches|) + [Reached(statuses.start)];
  }

  lemma StepTells(cfg: Config, statuses: Statuses, st: State, step: Step)
    requires Admissible(cfg) && SoundRule(cfg) && Inv(cfg, st) && Enabled(cfg, st, step)
    ensures ToldSoFar(cfg, statuses, Apply(cfg, st, step))
      == ToldSoFar(cfg, statuses, st) + UpdatesIn(cfg, statuses, step)
  {
    hide Inv;
    match step
    case Record(_, _, _) =>
    case Act(s) =>
      ActTells(cfg, statuses, st, s);
    case Dispatch(j) =>
      NoBatchAfterMark(cfg, st);
      DispatchTells(cfg, statuses, st, j);
  }

  lemma {:induction false} RunTells(cfg: Config, statuses: Statuses, st: State, steps: seq<Step>)
    requires Admissible(cfg) && SoundRule(cfg) && Inv(cfg, st) && CanRun(cfg, st, steps)
    ensures ToldSoFar(cfg, statuses, Run(cfg, st, steps))
      == ToldSoFar(cfg, statuses, st) + ClientUpdates(cfg, statuses, steps)
    decreases |steps|
  {
    hide Inv, ToldSoFar, UpdatesIn;
    if steps != [] {
      StepKeepsInv(cfg, st, steps[0]);
      StepTells(cfg, statuses, st, steps[0]);
      hide Apply;
      RunTells(cfg, statuses, Apply(cfg, st, steps[0]), steps[1..]);
    }
  }

  /** In every interleaving the client sees one start status per batch, then at most once the end of the operation, and
      nothing after it. */
  lemma ClientSeesStartsThenEnd(cfg: Config, statuses: Statuses, steps: seq<Step>)
    requires Admissible(cfg) && SoundRule(cfg) && CanRun(cfg, Init(cfg), steps)
    ensures var st := Run(cfg, Init(cfg), steps);
      && ClientUpdates(cfg, statuses, steps)
        == Starts(statuses, |st.batches|) + IdUpdates(cfg.rule, statuses, st.marks)
      && |st.marks| <= 1
  {
    InitInv(cfg);
    AtMostOneMark(cfg, steps);
    RunTells(cfg, statuses, Init(cfg), steps);
    assert ToldSoFar(cfg, statuses, Init(cfg)) == [];
    hide Run, CanRun, IdUpdates, ClientUpdates;
  }

  /** The client of a settled operation over at least one node sees the start of every batch, and then once the end: the
      full list of end statuses, or for publish and update without a quorum the failure. */
  lemma ClientIsToldOnce(cfg: Config, statuses: Statuses, steps: seq<Step>)
    requires Admissible(cfg) && SoundRule(cfg) && cfg.nodes != []
    requires CanRun(cfg, Init(cfg), steps) && Quiescent(Run(cfg, Init(cfg), steps))
    ensures var st, told := Run(cfg, Init(cfg), steps), ClientUpdates(cfg, statuses, steps);
      var k, ends := |st.batches|, statuses.completed;
      && k <= |told| && (forall i :: 0 <= i < k ==> told[i] == Reached(statuses.start))
      && if cfg.rule.FirstAnswer? || CountCompleted(st.responses) >= cfg.minAck then
           |told| == k + |ends| && forall i :: 0 <= i < |ends| ==> told[k + i] == Reached(ends[i])
         else told[k..] == [IdFailed("Not replicated to enough nodes!", statuses.errorType)]
  {
    hide Run, CanRun, CountCompleted, QuorumAnswer, ClientUpdates;
    SettledOutcome(cfg, steps);
    AtMostOneMark(cfg, steps);
    ClientSeesStartsThenEnd(cfg, statuses, steps);
    var st := Run(cfg, Init(cfg), steps);
    assert |st.marks| == 1 && st.marks[0] in st.marks;
    OneMarkUpdates(cfg.rule, statuses, st.marks);
    hide IdUpdates;
  }

  lemma OneMarkUpdates(rule: Rule, statuses: Statuses, marks: seq<Mark>)
    requires |marks| == 1
    ensures IdUpdates(rule, statuses, marks) == UpdatesOf(rule, statuses, marks[0])
  {
    IdUpdatesAppend(rule, statuses, [], marks[0]);
    assert [] + [marks[0]] == marks;
    assert IdUpdates(rule, statuses, []) == [];
  }

  ghost predicate IsFirstCompleted(rs: seq<Response>, n: nat) {
    n < |rs| && rs[n].status.Completed? && forall m :: 0 <= m < n ==> rs[m].status.Failed?
  }

  /** `QuorumAnswer(rs, 1)` is the answer of the first completed response. */
  lemma {:induction false} FirstCompletedAnswer(rs: seq<Response>) returns (n: nat)
    requires CountCompleted(rs) >= 1
    ensures IsFirstCompleted(rs, n) && QuorumAnswer(rs, 1) == rs[n].answer
    decreases |rs|
  {
    var before := rs[..|rs| - 1];
    if CountCompleted(before) >= 1 {
      n := FirstCompletedAnswer(before);
    } else {
      n := |rs| - 1;
      NoneCompleted(before);
    }
  }

  lemma {:induction false} NoneCompleted(rs: seq<Response>)
    ensures CountCompleted(rs) == 0 <==> forall m :: 0 <= m < |rs| ==> rs[m].status.Failed?
  {
    if rs != [] {
      NoneCompleted(rs[..|rs| - 1]);
    }
  }

  /** The one marking of a settled get, in terms of its answers. */
  lemma OutcomeOfMarks(rs: seq<Response>, found: nat, marks: seq<Mark>)
    requires |marks| == 1 && (marks[0].QuorumReached? ==> CountCompleted(rs) >= 1)
    requires CountCompleted(rs) >= 1 <==> marks == [QuorumReached(QuorumAnswer(rs, 1))]
    requires |rs| == found && CountCompleted(rs) < 1 <==> marks == [NodesExhausted]
    ensures var cached := CacheWrites(FirstAnswer, marks);
      && |cached| == 1
      && (cached[0].CachedAssertion? <==> exists n :: 0 <= n < |rs| && rs[n].status.Completed?)
      && (cached[0].CachedAssertion? ==> exists n: nat :: IsFirstCompleted(rs, n) && cached[0].nquads == rs[n].answer)
      && (cached[0].UnableToFind? <==> |rs| == found && forall n :: 0 <= n < |rs| ==> rs[n].status.Failed?)
      && StatusWrites(FirstAnswer, marks) == [OperationCompleted]
  {
    hide CountCompleted, QuorumAnswer;
    NoneCompleted(rs);
    if CountCompleted(rs) >= 1 {
      var n := FirstCompletedAnswer(rs);
    }
  }

  /** A settled get over at least one node cached exactly one outcome: the first assertion that arrived, or
      "unable to find" when all found nodes were asked and failed. */
  lemma GetOutcome(cfg: Config, steps: seq<Step>)
    requires Admissible(cfg) && cfg.rule.FirstAnswer? && cfg.minAck == 1 && cfg.nodes != []
    requires CanRun(cfg, Init(cfg), steps) && Quiescent(Run(cfg, Init(cfg), steps))
    ensures var st := Run(cfg, Init(cfg), steps);
      var rs, cached := st.responses, CacheWrites(cfg.rule, st.marks);
      && |cached| == 1
      && (cached[0].CachedAssertion? <==> exists n :: 0 <= n < |rs| && rs[n].status.Completed?)
      && (cached[0].CachedAssertion? ==> exists n: nat :: IsFirstCompleted(rs, n) && cached[0].nquads == rs[n].answer)
      && (cached[0].UnableToFind? <==> |rs| == |cfg.nodes| && forall n :: 0 <= n < |rs| ==> rs[n].status.Failed?)
      && StatusWrites(cfg.rule, st.marks) == [OperationCompleted]
  {
    hide Run, CanRun, CountCompleted, QuorumAnswer;
    SettledOutcome(cfg, steps);
    AtMostOneMark(cfg, steps);
    var st := Run(cfg, Init(cfg), steps);
    assert |st.marks| == 1 && st.marks[0] in st.marks;
    OutcomeOfMarks(st.responses, |cfg.nodes|, st.marks);
  }
}
