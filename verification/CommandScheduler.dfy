/** The command executor as a transition system: database rows, waiting queue, timers and running commands.

    A token is an occurrence of a command in the queue, on a timer or in a worker.  What a handler does in one pass
    is an arbitrary `Reaction`. */
module CommandScheduler {
  import opened Common

  const MAX_COMMAND_DELAY := 14400 * 60 * 1000
  const DEFAULT_REPEAT_INTERVAL := 5000
  const QUEUE_PARALLELISM := 150

  datatype Status = Pending | Started | Repeating | Completed | Failed | Expired | Unknown
  {
    predicate Terminal() { Completed? || Failed? || Expired? || Unknown? }
  }

  /** A command known to the database; a deadline of 0 is no deadline. */
  datatype Command = Command(
    id: nat, name: string, readyAt: int, delay: int, deadlineAt: int, period: Option<int>,
    retries: int, transactional: bool, parentId: Option<nat>)

  /** A command that was not inserted yet.  It is not `insertable` if it has neither a name nor a sequence to take one
      from, or if packing its data throws. */
  datatype Template = Template(
    name: string, readyAt: Option<int>, delay: Option<int>, deadlineAt: int, period: Option<int>,
    retries: int, transactional: bool, insertable: bool)

  datatype Row = Row(status: Status, command: Command)

  datatype Timer = Timer(dueAt: int, command: Command)

  datatype State = State(
    rows: map<nat, Row>, queue: seq<Command>, timers: seq<Timer>, running: seq<Command>, nextId: nat, clock: int)

  datatype RunOutcome = RunThrows | AskRepeat | AskRetry | Commands(commands: seq<Template>)
  datatype ExpiredOutcome = ExpiredThrows | ExpiredCommands(commands: seq<Template>)
  datatype RecoverOutcome = RecoverThrows | RecoverRepeat | RecoverDone

  /** Everything the handler may contribute to one pass of `_execute`. */
  datatype Reaction = Reaction(
    resolved: bool, expired: ExpiredOutcome, run: RunOutcome, packThrows: bool, retryFinishedThrows: bool,
    recover: RecoverOutcome, recoverPackThrows: bool)

  /** What one pass does to its own command: the new row status (if written), the
      retries left (if written), the delay of its re-add
      (if any), the children that are inserted and added, and those inserted only. */
  datatype Pass = Pass(
    called: bool, status: Option<Status>, retries: Option<int>, readd: Option<int>,
    children: seq<Template>, lateChildren: seq<Template>, orphans: seq<Template>)

  // ----- One pass -----

  predicate TooLate(c: Command, now: int) {
    c.deadlineAt != 0 && now > c.deadlineAt
  }

  function WaitMs(c: Command, now: int): int {
    c.readyAt + c.delay - now
  }

  function Insertable(ts: seq<Template>): seq<Template> {
    if ts == [] then [] else (if ts[0].insertable then [ts[0]] else []) + Insertable(ts[1..])
  }

  predicate AllInsertable(ts: seq<Template>) {
    forall i :: 0 <= i < |ts| ==> ts[i].insertable
  }

  lemma {:induction false} AllAreInsertable(ts: seq<Template>)
    requires AllInsertable(ts)
    ensures Insertable(ts) == ts
  {
    if ts != [] {
      AllAreInsertable(ts[1..]);
    }
  }

  function RetryDelay(c: Command): int {
    c.period.GetOr(0) + c.delay
  }

  /** `status` is what the row holds (if the failed pass left a write) when the error is handled. */
  function ErrorPass(c: Command, o: Reaction, status: Option<Status>, orphans: seq<Template>): Pass {
    if c.retries > 0 then Pass(true, status, Some(c.retries - 1), Some(RetryDelay(c)), [], [], orphans)
    else if o.recover.RecoverRepeat? then
      if o.recoverPackThrows then Pass(true, Some(Repeating), None, None, [], [], orphans)
      else
        var period := if c.period.GetOr(0) == 0 then DEFAULT_REPEAT_INTERVAL else c.period.value;
        Pass(true, Some(Repeating), None, Some(period), [], [], orphans)
    else Pass(true, Some(Failed), None, None, [], [], orphans)
  }

  function CompletedPass(c: Command, children: seq<Template>): Pass {
    Pass(true, Some(Completed), None, None, children, [], [])
  }

  /** Does the body of the try statement throw? */
  predicate RunFails(c: Command, o: Reaction) {
    match o.run
    case RunThrows => true
    case AskRepeat => o.packThrows
    case AskRetry => if c.retries > 1 then o.packThrows else o.retryFinishedThrows
    case Commands(ts) => !AllInsertable(ts)
  }

  /** What a failed body leaves in the row; a transaction takes its writes back. */
  function KeptStatus(c: Command, o: Reaction): Option<Status> {
    if c.transactional then None else Some(if o.run.AskRepeat? then Repeating else Started)
  }

  function KeptOrphans(c: Command, o: Reaction): seq<Template> {
    if o.run.Commands? && !c.transactional then Insertable(o.run.commands) else []
  }

  function RunPass(c: Command, o: Reaction): Pass {
    if RunFails(c, o) then ErrorPass(c, o, KeptStatus(c, o), KeptOrphans(c, o))
    else
      match o.run
      case AskRepeat =>
        Pass(true, Some(Repeating), None, Some(c.period.GetOr(DEFAULT_REPEAT_INTERVAL)), [], [], [])
      case AskRetry =>
        if c.retries > 1 then Pass(true, Some(Pending), Some(c.retries - 1), Some(RetryDelay(c)), [], [], [])
        else CompletedPass(c, [])
      case Commands(ts) => CompletedPass(c, ts)
  }

  function PassOf(c: Command, now: int, o: Reaction): Pass {
    if !o.resolved then Pass(false, Some(Unknown), None, None, [], [], [])
    else if TooLate(c, now) then
      var late := if o.expired.ExpiredThrows? then [] else Insertable(o.expired.commands);
      Pass(false, Some(Expired), None, None, [], late, [])
    else if WaitMs(c, now) > 0 then
      Pass(false, None, None, Some(Min(WaitMs(c, now), MAX_COMMAND_DELAY)), [], [], [])
    else RunPass(c, o)
  }

  // ----- Effects on the state -----

  /** `add` of a command that is in the database: a delay above the maximum moves `readyAt`. */
  function Shifted(c: Command, delay: int): Command {
    if delay > MAX_COMMAND_DELAY then c.(readyAt := c.readyAt + delay) else c
  }

  function Park(st: State, c: Command, delay: int): State {
    if delay == 0 then st.(queue := st.queue + [c])
    else st.(timers := st.timers + [Timer(st.clock + Max(1, Min(delay, MAX_COMMAND_DELAY)), c)])
  }

  function AddExisting(st: State, c: Command, delay: int): State {
    Park(st, Shifted(c, delay), delay)
  }

  function Born(t: Template, id: nat, now: int, parentId: Option<nat>): Command {
    var readyAt := if t.readyAt.GetOr(0) == 0 then now else t.readyAt.value;
    Command(id, t.name, readyAt, t.delay.GetOr(0), t.deadlineAt, t.period, t.retries, t.transactional, parentId)
  }

  function Insert(st: State, t: Template, parentId: Option<nat>): State {
    st.(rows := st.rows[st.nextId := Row(Pending, Born(t, st.nextId, st.clock, parentId))], nextId := st.nextId + 1)
  }

  /** A child of a completed command: inserted first, then added with its own delay. */
  function AddChild(st: State, t: Template, parentId: nat): State {
    var c := Born(t, st.nextId, st.clock, Some(parentId));
    AddExisting(Insert(st, t, Some(parentId)), c, c.delay)
  }

  /** `add` of a new command: the delay is looked at before the insertion. */
  function AddNew(st: State, t: Template, addDelay: int): State {
    var t' := if addDelay > MAX_COMMAND_DELAY then t.(readyAt := Some(t.readyAt.GetOr(st.clock) + addDelay)) else t;
    Park(Insert(st, t', None), Born(t', st.nextId, st.clock, None), addDelay)
  }

  function AddChildren(st: State, ts: seq<Template>, parentId: nat): State
    decreases |ts|
  {
    if ts == [] then st else AddChildren(AddChild(st, ts[0], parentId), ts[1..], parentId)
  }

  function AddAllNew(st: State, ts: seq<Template>): State
    decreases |ts|
  {
    if ts == [] then st else AddAllNew(AddNew(st, ts[0], ts[0].delay.GetOr(0)), ts[1..])
  }

  function InsertAll(st: State, ts: seq<Template>, parentId: nat): State
    decreases |ts|
  {
    if ts == [] then st else InsertAll(Insert(st, ts[0], Some(parentId)), ts[1..], parentId)
  }

  function WriteRow(st: State, id: nat, status: Option<Status>, retries: Option<int>): State
    requires id in st.rows
  {
    var row := st.rows[id];
    var command := row.command.(retries := retries.GetOr(row.command.retries));
    st.(rows := st.rows[id := Row(status.GetOr(row.status), command)])
  }

  function ApplyPass(st: State, c: Command, p: Pass): State
    requires c.id in st.rows
  {
    AddAllNew(AddChildren(Handover(st, c, p), p.children, c.id), p.lateChildren)
  }

  /** The row, the orphans and the token of the command itself. */
  function Handover(st: State, c: Command, p: Pass): State
    requires c.id in st.rows
  {
    var st1 := InsertAll(WriteRow(st, c.id, p.status, p.retries), p.orphans, c.id);
    if p.readd.None? then st1 else AddExisting(st1, c.(retries := p.retries.GetOr(c.retries)), p.readd.value)
  }

  // ----- Transitions -----

  /** `Finish` is a whole pass of worker `i`; it read the clock at `now`, and its effects happen at its end. */
  datatype Step =
    | Submit(t: Template, addDelay: int)
    | Tick(elapsed: nat)
    | Fire(i: nat)
    | Start
    | Finish(i: nat, now: int, o: Reaction)

  predicate Enabled(st: State, step: Step) {
    match step
    case Submit(t, _) => t.insertable
    case Tick(_) => true
    case Fire(i) => i < |st.timers| && st.timers[i].dueAt <= st.clock
    case Start => st.queue != [] && |st.running| < QUEUE_PARALLELISM
    case Finish(i, now, _) => i < |st.running| && now <= st.clock && st.running[i].id in st.rows
  }

  function Apply(st: State, step: Step): State
    requires Enabled(st, step)
  {
    match step
    case Submit(t, addDelay) => AddNew(st, t, addDelay)
    case Tick(elapsed) => st.(clock := st.clock + elapsed)
    case Fire(i) => st.(timers := Remove(st.timers, i), queue := st.queue + [st.timers[i].command])
    case Start => st.(queue := st.queue[1..], running := st.running + [st.queue[0]])
    case Finish(i, now, o) =>
      var c := st.running[i];
      ApplyPass(st.(running := Remove(st.running, i)), c, PassOf(c, now, o))
  }

  predicate CanRun(st: State, steps: seq<Step>)
    decreases |steps|
  {
    steps == [] || (Enabled(st, steps[0]) && CanRun(Apply(st, steps[0]), steps[1..]))
  }

  function Run(st: State, steps: seq<Step>): State
    requires CanRun(st, steps)
    decreases |steps|
  {
    if steps == [] then st else Run(Apply(st, steps[0]), steps[1..])
  }

  function Empty(clock: int): State {
    State(map[], [], [], [], 0, clock)
  }

  // ----- Tokens -----

  function Ids(cs: seq<Command>): seq<nat> {
    seq(|cs|, i requires 0 <= i < |cs| => cs[i].id)
  }

  function TimerIds(ts: seq<Timer>): seq<nat> {
    seq(|ts|, i requires 0 <= i < |ts| => ts[i].command.id)
  }

  function Tokens(st: State): multiset<nat> {
    multiset(Ids(st.queue)) + multiset(TimerIds(st.timers)) + multiset(Ids(st.running))
  }

  predicate Unfinished(st: State, id: nat) {
    id in st.rows && !st.rows[id].status.Terminal()
  }

  /** An unfinished row that is not lost has exactly one token, any other id has none. */
  ghost predicate Balanced(st: State, lost: set<nat>, id: nat) {
    Tokens(st)[id] == if Unfinished(st, id) && id !in lost then 1 else 0
  }

  ghost predicate Tracked(st: State, lost: set<nat>) {
    && (forall id: nat :: Balanced(st, lost, id))
    && (forall id :: id in st.rows ==> id < st.nextId)
    && (forall id :: id in lost ==> Unfinished(st, id))
  }

  ghost predicate Conserved(st: State) {
    Tracked(st, {})
  }

  /** The same while the token of `held` is with the pass that is being executed. */
  ghost predicate TrackedBut(st: State, lost: set<nat>, held: nat) {
    && Unfinished(st, held) && Tokens(st)[held] == 0 && held !in lost
    && (forall id: nat :: id != held ==> Balanced(st, lost, id))
    && (forall id :: id in st.rows ==> id < st.nextId)
    && (forall id :: id in lost ==> Unfinished(st, id))
  }

  lemma ParkAddsToken(st: State, c: Command, delay: int)
    ensures Tokens(Park(st, c, delay)) == Tokens(st) + multiset{c.id}
    ensures Park(st, c, delay).rows == st.rows && Park(st, c, delay).nextId == st.nextId
    ensures Park(st, c, delay).clock == st.clock && Park(st, c, delay).running == st.running
  {
    if delay == 0 {
      assert Ids(st.queue + [c]) == Ids(st.queue) + [c.id];
    } else {
      var timer := Timer(st.clock + Max(1, Min(delay, MAX_COMMAND_DELAY)), c);
      assert TimerIds(st.timers + [timer]) == TimerIds(st.timers) + [c.id];
    }
  }

  lemma RemoveId(s: seq<nat>, i: nat)
    requires i < |s|
    ensures multiset(s) == multiset(Remove(s, i)) + multiset{s[i]}
  {
    assert s == s[..i] + [s[i]] + s[i + 1..];
  }

  lemma SameTokens(st: State, st': State)
    requires st'.queue == st.queue && st'.timers == st.timers && st'.running == st.running
    ensures Tokens(st') == Tokens(st)
  {
  }

  // ----- Inserting new commands leaves all older ids alone -----

  /** `st'` has `k` more ids, each with a pending row and `held` tokens. */
  ghost predicate Grown(st: State, st': State, k: nat, held: nat) {
    && st'.nextId == st.nextId + k && st'.clock == st.clock && st'.running == st.running
    && (forall id: nat :: id < st.nextId ==> Tokens(st')[id] == Tokens(st)[id])
    && (forall id: nat :: id < st.nextId ==> (id in st'.rows <==> id in st.rows))
    && (forall id: nat :: id < st.nextId && id in st.rows ==> st'.rows[id] == st.rows[id])
    && (forall id: nat :: st.nextId <= id < st'.nextId ==>
          Tokens(st')[id] == held && id in st'.rows && st'.rows[id].status == Pending)
    && FreshIds(st')
  }

  ghost predicate FreshIds(st: State) {
    && (forall id: nat :: st.nextId <= id ==> Tokens(st)[id] == 0)
    && (forall id :: id in st.rows ==> id < st.nextId)
  }

  lemma GrownTransitive(a: State, b: State, c: State, j: nat, k: nat, held: nat)
    requires Grown(a, b, j, held) && Grown(b, c, k, held)
    ensures Grown(a, c, j + k, held)
  {
  }

  lemma AddChildGrows(st: State, t: Template, parentId: nat)
    requires FreshIds(st)
    ensures Grown(st, AddChild(st, t, parentId), 1, 1)
  {
    hide Tokens, Park;
    var c := Born(t, st.nextId, st.clock, Some(parentId));
    var inserted := Insert(st, t, Some(parentId));
    SameTokens(st, inserted);
    ParkAddsToken(Insert(st, t, Some(parentId)), Shifted(c, c.delay), c.delay);
  }

  lemma AddNewGrows(st: State, t: Template, addDelay: int)
    requires FreshIds(st)
    ensures Grown(st, AddNew(st, t, addDelay), 1, 1)
  {
    hide Tokens, Park;
    var t' := if addDelay > MAX_COMMAND_DELAY then t.(readyAt := Some(t.readyAt.GetOr(st.clock) + addDelay)) else t;
    SameTokens(st, Insert(st, t', None));
    ParkAddsToken(Insert(st, t', None), Born(t', st.nextId, st.clock, None), addDelay);
  }

  lemma {:induction false} AddChildrenGrows(st: State, ts: seq<Template>, parentId: nat)
    requires FreshIds(st)
    ensures Grown(st, AddChildren(st, ts, parentId), |ts|, 1)
    decreases |ts|
  {
    hide Tokens, AddChild;
    if ts != [] {
      var next := AddChild(st, ts[0], parentId);
      AddChildGrows(st, ts[0], parentId);
      AddChildrenGrows(next, ts[1..], parentId);
      GrownTransitive(st, next, AddChildren(next, ts[1..], parentId), 1, |ts[1..]|, 1);
    }
  }

  lemma {:induction false} AddAllNewGrows(st: State, ts: seq<Template>)
    requires FreshIds(st)
    ensures Grown(st, AddAllNew(st, ts), |ts|, 1)
    decreases |ts|
  {
    hide Tokens, AddNew;
    if ts != [] {
      var next := AddNew(st, ts[0], ts[0].delay.GetOr(0));
      AddNewGrows(st, ts[0], ts[0].delay.GetOr(0));
      AddAllNewGrows(next, ts[1..]);
      GrownTransitive(st, next, AddAllNew(next, ts[1..]), 1, |ts[1..]|, 1);
    }
  }

  lemma {:induction false} InsertAllGrows(st: State, ts: seq<Template>, parentId: nat)
    requires FreshIds(st)
    ensures Grown(st, InsertAll(st, ts, parentId), |ts|, 0)
    decreases |ts|
  {
    hide Tokens;
    if ts != [] {
      var next := Insert(st, ts[0], Some(parentId));
      SameTokens(st, next);
      InsertAllGrows(next, ts[1..], parentId);
      GrownTransitive(st, next, InsertAll(next, ts[1..], parentId), 1, |ts[1..]|, 0);
    }
  }
}
