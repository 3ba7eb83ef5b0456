/** The waiting queue and its workers over any run: first in, first out, and never too many at once; and what is held in
    memory agrees with the database. */
module CommandQueue {
  import opened CommandScheduler
  import opened TokenConservation
  import opened CommandLifetime
  import opened CommandHistory
  import opened Common

  // ----- Workers -----

  lemma StepKeepsWorkers(st: State, lost: set<nat>, step: Step)
    requires Tracked(st, lost) && Enabled(st, step) && |st.running| <= 150
    ensures |Apply(st, step).running| <= 150
  {
    match step
    case Submit(t, addDelay) =>
      TrackedMeansFresh(st, lost);
      AddNewGrows(st, t, addDelay);
    case Finish(i, now, o) =>
      var c, p := st.running[i], PassOf(st.running[i], now, o);
      TakeTokenFromWorker(st, lost, i);
      RunningIsUnfinished(st, lost, i);
      PassSettlesIff(c, now, o, st.rows[c.id].status);
      PassKeepsClock(st.(running := Remove(st.running, i)), lost, c, p);
    case _ =>
  }

  lemma {:induction false} WorkersFrom(st: State, lost: set<nat>, steps: seq<Step>)
    requires Tracked(st, lost) && CanRun(st, steps) && |st.running| <= 150
    ensures |Run(st, steps).running| <= 150
    decreases |steps|
  {
    hide Tracked, Apply, LostIn;
    if steps != [] {
      StepKeepsWorkers(st, lost, steps[0]);
      StepTracks(st, lost, steps[0]);
      WorkersFrom(Apply(st, steps[0]), lost + LostIn(st, steps[0]), steps[1..]);
    }
  }

  /** No more than 150 commands are executed at the same time. */
  lemma WorkersAreBounded(clock: int, steps: seq<Step>)
    requires CanRun(Empty(clock), steps)
    ensures |Run(Empty(clock), steps).running| <= 150
  {
    EmptyIsTracked(clock);
    WorkersFrom(Empty(clock), {}, steps);
  }

  // ----- Order -----

  /** `b` is `a` with more at its end. */
  predicate Extends(a: seq<Command>, b: seq<Command>) {
    |a| <= |b| && b[..|a|] == a
  }

  lemma ParkExtends(st: State, c: Command, delay: int)
    ensures Extends(st.queue, Park(st, c, delay).queue)
  {
  }

  lemma {:induction false} AddChildrenExtends(st: State, ts: seq<Template>, parentId: nat)
    ensures Extends(st.queue, AddChildren(st, ts, parentId).queue)
    decreases |ts|
  {
    if ts != [] {
      var c := Born(ts[0], st.nextId, st.clock, Some(parentId));
      ParkExtends(Insert(st, ts[0], Some(parentId)), Shifted(c, c.delay), c.delay);
      AddChildrenExtends(AddChild(st, ts[0], parentId), ts[1..], parentId);
    }
  }

  lemma {:induction false} AddAllNewExtends(st: State, ts: seq<Template>)
    ensures Extends(st.queue, AddAllNew(st, ts).queue)
    decreases |ts|
  {
    if ts != [] {
      AddAllNewExtends(AddNew(st, ts[0], ts[0].delay.GetOr(0)), ts[1..]);
    }
  }

  lemma PassExtends(st: State, c: Command, p: Pass)
    requires c.id in st.rows
    ensures Extends(st.queue, ApplyPass(st, c, p).queue)
  {
    var st1 := WriteRow(st, c.id, p.status, p.retries);
    InsertAllKeepsQueues(st1, p.orphans, c.id);
    var st2 := Handover(st, c, p);
    assert Extends(st.queue, st2.queue);
    hide Handover, AddChildren, AddAllNew, InsertAll;
    AddChildrenExtends(st2, p.children, c.id);
    AddAllNewExtends(AddChildren(st2, p.children, c.id), p.lateChildren);
  }

  /** What a step adds to the queue. */
  function Arrived(st: State, step: Step): seq<Command>
    requires Enabled(st, step)
  {
    var after := Apply(st, step).queue;
    if step.Start? || |after| < |st.queue| then [] else after[|st.queue|..]
  }

  function AllArrived(st: State, steps: seq<Step>): seq<Command>
    requires CanRun(st, steps)
    decreases |steps|
  {
    if steps == [] then [] else Arrived(st, steps[0]) + AllArrived(Apply(st, steps[0]), steps[1..])
  }

  /** The commands that workers took, in order. */
  function AllStarted(st: State, steps: seq<Step>): seq<Command>
    requires CanRun(st, steps)
    decreases |steps|
  {
    if steps == [] then []
    else
      var next := Apply(st, steps[0]);
      var later := AllStarted(next, steps[1..]);
      if steps[0].Start? then [next.running[|next.running| - 1]] + later else later
  }

  lemma StepExtends(st: State, step: Step)
    requires Enabled(st, step) && !step.Start?
    ensures Apply(st, step).queue == st.queue + Arrived(st, step)
  {
    match step
    case Submit(t, addDelay) =>
    case Tick(_) =>
    case Fire(i) =>
    case Finish(i, now, o) =>
      PassExtends(st.(running := Remove(st.running, i)), st.running[i], PassOf(st.running[i], now, o));
  }

  lemma StartTakesFirst(st: State)
    requires Enabled(st, Start)
    ensures var next := Apply(st, Start);
      next.running != [] && st.queue == [next.running[|next.running| - 1]] + next.queue && Arrived(st, Start) == []
  {
  }

  /** Commands are started in the order in which they came into the queue: what was waiting, followed by what arrived,
      is what was started, followed by what is waiting. */
  lemma {:induction false} FirstInFirstOut(st: State, steps: seq<Step>)
    requires CanRun(st, steps)
    ensures st.queue + AllArrived(st, steps) == AllStarted(st, steps) + Run(st, steps).queue
    decreases |steps|
  {
    hide Apply, Arrived;
    if steps != [] {
      var step, next := steps[0], Apply(st, steps[0]);
      FirstInFirstOut(next, steps[1..]);
      var arrived, started := AllArrived(next, steps[1..]), AllStarted(next, steps[1..]);
      var left := Run(next, steps[1..]).queue;
      if step.Start? {
        StartTakesFirst(st);
        var first := next.running[|next.running| - 1];
        assert AllStarted(st, steps) == [first] + started && AllArrived(st, steps) == [] + arrived;
        hide AllArrived, AllStarted, Run, CanRun;
        assert ([first] + next.queue) + ([] + arrived) == [first] + (next.queue + arrived);
        assert ([first] + started) + left == [first] + (started + left);
      } else {
        StepExtends(st, step);
        assert AllStarted(st, steps) == started && AllArrived(st, steps) == Arrived(st, step) + arrived;
        hide AllArrived, AllStarted, Run, CanRun;
        assert st.queue + (Arrived(st, step) + arrived) == (st.queue + Arrived(st, step)) + arrived;
      }
    } else {
      assert st.queue + [] == [] + st.queue;
    }
  }

  // ----- Memory and database -----

  /** Whatever is held has a row, and differs from it by a later ready time only. */
  ghost predicate Matches(st: State) {
    forall x :: Holds(st, x) ==> Matching(st, x)
  }

  ghost predicate Matching(st: State, x: Command) {
    x.id in st.rows && Postponed(st.rows[x.id].command, x)
  }

  lemma ReaddedHasNoChildren(c: Command, now: int, o: Reaction)
    requires PassOf(c, now, o).readd.Some?
    ensures PassOf(c, now, o).children == [] && PassOf(c, now, o).lateChildren == []
    ensures After(c, PassOf(c, now, o)).id == c.id
  {
  }

  lemma AfterMatches(row: Command, c: Command, p: Pass)
    requires p.readd.Some? && Postponed(row, c)
    ensures Postponed(row.(retries := p.retries.GetOr(row.retries)), After(c, p))
  {
  }

  lemma OwnPassMatches(st: State, lost: set<nat>, i: nat, now: int, o: Reaction, x: Command)
    requires Tracked(st, lost) && Matches(st) && Enabled(st, Finish(i, now, o))
    requires Holds(Apply(st, Finish(i, now, o)), x) && x.id == st.running[i].id
    ensures Matching(Apply(st, Finish(i, now, o)), x)
  {
    var c, p, st' := st.running[i], PassOf(st.running[i], now, o), Apply(st, Finish(i, now, o));
    HeldByWorker(st, i);
    assert Matching(st, c);
    OwnPass(st, lost, i, now, o, c);
    if p.readd.Some? {
      assert x == After(c, p);
      ReaddedHasNoChildren(c, now, o);
      TakeTokenFromWorker(st, lost, i);
      hide PassOf, Holds, HoldsOnly, Tokens, Tracked, TrackedBut, ApplyPass, Postponed;
      RowAfter(st.(running := Remove(st.running, i)), lost, c, p);
      AfterMatches(st.rows[c.id].command, c, p);
    } else {
      hide PassOf, Holds, Tracked, TrackedBut, ApplyPass;
      NoTokenNoHolder(st', c.id);
      assert false;
    }
  }

  /** The rows of other commands stay as they are. */
  lemma OtherRows(st: State, lost: set<nat>, step: Step, id: nat)
    requires Tracked(st, lost) && Enabled(st, step) && id in st.rows && !IsPassOf(st, step, id)
    ensures id in Apply(st, step).rows && Apply(st, step).rows[id] == st.rows[id]
  {
    TrackedMeansFresh(st, lost);
    match step
    case Submit(t, addDelay) =>
      AddNewGrows(st, t, addDelay);
    case Finish(i, now, o) =>
      var c, p := st.running[i], PassOf(st.running[i], now, o);
      var taken := st.(running := Remove(st.running, i));
      TakeTokenFromWorker(st, lost, i);
      RunningIsUnfinished(st, lost, i);
      PassSettlesIff(c, now, o, st.rows[c.id].status);
      hide PassOf, Tracked, ApplyPass, Tokens, FreshIds;
      PassKeepsOtherRow(taken, lost, c, p, id);
    case _ =>
  }

  lemma PassKeepsOtherRow(st: State, lost: set<nat>, c: Command, p: Pass, id: nat)
    requires TrackedBut(st, lost, c.id) && Sensible(st.rows[c.id].status, p) && id in st.rows && id != c.id
    ensures id in ApplyPass(st, c, p).rows && ApplyPass(st, c, p).rows[id] == st.rows[id]
  {
    HandoverTracks(st, lost, c, p);
    HandoverKeepsOtherRow(st, lost, c, p, id);
    var st1 := Handover(st, c, p);
    TrackedMeansFresh(st1, lost + LostBy(st, c, p));
    hide Handover, LostBy, Tracked, TrackedBut, Tokens, AddChildren, AddAllNew;
    AddedRows(st1, p.children, c.id, p.lateChildren, id);
  }

  lemma HandoverKeepsOtherRow(st: State, lost: set<nat>, c: Command, p: Pass, id: nat)
    requires TrackedBut(st, lost, c.id) && id in st.rows && id != c.id
    ensures id in Handover(st, c, p).rows && Handover(st, c, p).rows[id] == st.rows[id]
  {
    var st1 := WriteRow(st, c.id, p.status, p.retries);
    WriteRowBalance(st, lost, c, p);
    InsertAllGrows(st1, p.orphans, c.id);
    ReaddAt(InsertAll(st1, p.orphans, c.id), c.(retries := p.retries.GetOr(c.retries)), p.readd, id);
    hide InsertAll, Tokens;
  }

  lemma StepMatches(st: State, lost: set<nat>, step: Step, x: Command)
    requires Tracked(st, lost) && Matches(st) && Enabled(st, step) && Holds(Apply(st, step), x)
    ensures Matching(Apply(st, step), x)
  {
    hide Tracked, Apply, Holds, Tokens, Postponed;
    if IsPassOf(st, step, x.id) {
      OwnPassMatches(st, lost, step.i, step.now, step.o, x);
    } else {
      var born := OtherStep(st, lost, step, x.id);
      if x.id < st.nextId {
        assert Holds(st, x);
        assert Matching(st, x);
        OtherRows(st, lost, step, x.id);
      } else {
        HeldIdsAreKnown(st, lost, step, x);
      }
    }
  }

  lemma HeldIdsAreKnown(st: State, lost: set<nat>, step: Step, x: Command)
    requires Tracked(st, lost) && Enabled(st, step) && Holds(Apply(st, step), x)
    ensures x.id < Apply(st, step).nextId
  {
    StepTracks(st, lost, step);
    var st', lost' := Apply(st, step), lost + LostIn(st, step);
    hide Apply, LostIn, Tokens;
    if st'.nextId <= x.id {
      TrackedMeansFresh(st', lost');
      NoTokenNoHolder(st', x.id);
    }
  }

  lemma {:induction false} RunMatches(st: State, lost: set<nat>, steps: seq<Step>)
    requires Tracked(st, lost) && Matches(st) && CanRun(st, steps)
    ensures Matches(Run(st, steps))
    decreases |steps|
  {
    hide Tracked, Apply, LostIn, Holds, Matching;
    if steps != [] {
      var next := Apply(st, steps[0]);
      forall x | Holds(next, x)
        ensures Matching(next, x)
      {
        StepMatches(st, lost, steps[0], x);
      }
      StepTracks(st, lost, steps[0]);
      RunMatches(next, lost + LostIn(st, steps[0]), steps[1..]);
    }
  }

  /** In every reachable state, every command in queue, timers and workers is the one of its row, with the same number
      of retries left and everything else, and ready no earlier. */
  lemma MemoryMatchesDatabase(clock: int, steps: seq<Step>)
    requires CanRun(Empty(clock), steps)
    ensures var st := Run(Empty(clock), steps);
      forall x :: Holds(st, x) ==>
        && x.id in st.rows && st.rows[x.id].command.readyAt <= x.readyAt
        && x == st.rows[x.id].command.(readyAt := x.readyAt)
  {
    EmptyIsTracked(clock);
    assert Matches(Empty(clock));
    RunMatches(Empty(clock), {}, steps);
    var st := Run(Empty(clock), steps);
    hide CanRun, Run, Holds;
    forall x | Holds(st, x)
      ensures x.id in st.rows && st.rows[x.id].command.readyAt <= x.readyAt
      ensures x == st.rows[x.id].command.(readyAt := x.readyAt)
    {
      assert Matching(st, x);
    }
  }
}
