/** Where the token of every command is, over any run of the executor, and which rows are lost on the way. */
module TokenConservation {
  import opened CommandScheduler
  import opened Common

  /** The rows a pass loses: its own if it is left unfinished without a token, and children inserted but not added. */
  function LostBy(st: State, c: Command, p: Pass): set<nat>
    requires c.id in st.rows
  {
    (if p.readd.None? && !p.status.GetOr(st.rows[c.id].status).Terminal() then {c.id} else {}) +
    IdsFrom(st.nextId, |p.orphans|)
  }

  function IdsFrom(first: nat, k: nat): (ids: set<nat>)
    ensures forall id :: id in ids <==> first <= id < first + k
  {
    if k == 0 then {} else IdsFrom(first, k - 1) + {first + k - 1}
  }

  /** A pass re-adds unfinished commands only. */
  predicate Sensible(before: Status, p: Pass) {
    p.readd.Some? ==> !p.status.GetOr(before).Terminal()
  }

  lemma TrackedMeansFresh(st: State, lost: set<nat>)
    requires Tracked(st, lost)
    ensures FreshIds(st)
  {
    hide Tokens;
    forall id: nat | st.nextId <= id
      ensures Tokens(st)[id] == 0
    {
      assert Balanced(st, lost, id);
    }
  }

  lemma SameBalance(st: State, lost: set<nat>, st': State)
    requires Tracked(st, lost) && Tokens(st') == Tokens(st) && st'.rows == st.rows && st'.nextId == st.nextId
    ensures Tracked(st', lost)
  {
    hide Tokens;
    forall id: nat
      ensures Balanced(st', lost, id)
    {
      assert Balanced(st, lost, id);
    }
  }

  lemma WriteRowBalance(st: State, lost: set<nat>, c: Command, p: Pass)
    requires TrackedBut(st, lost, c.id)
    ensures var st' := WriteRow(st, c.id, p.status, p.retries);
      && FreshIds(st') && c.id < st'.nextId && Tokens(st')[c.id] == 0
      && (Unfinished(st', c.id) <==> !p.status.GetOr(st.rows[c.id].status).Terminal())
      && (forall id: nat :: id != c.id ==> Balanced(st', lost, id) && (id in lost ==> Unfinished(st', id)))
  {
    var st' := WriteRow(st, c.id, p.status, p.retries);
    SameTokens(st, st');
    hide Tokens;
    forall id: nat | id != c.id
      ensures Balanced(st', lost, id) && (st.nextId <= id ==> Tokens(st')[id] == 0)
    {
      assert Balanced(st, lost, id);
    }
  }

  lemma ReaddAt(st: State, c: Command, readd: Option<int>, id: nat)
    ensures var st' := if readd.None? then st else AddExisting(st, c, readd.value);
      && st'.nextId == st.nextId && st'.rows == st.rows
      && Tokens(st')[id] == Tokens(st)[id] + if readd.Some? && id == c.id then 1 else 0
  {
    if readd.Some? {
      ParkAddsToken(st, Shifted(c, readd.value), readd.value);
    }
    hide Tokens, Park;
  }

  /** Commands that are inserted but not added get a row and no token. */
  lemma InsertAllAt(st: State, ts: seq<Template>, parentId: nat, id: nat)
    requires FreshIds(st)
    ensures var st' := InsertAll(st, ts, parentId);
      && st'.nextId == st.nextId + |ts|
      && (id < st.nextId ==> Tokens(st')[id] == Tokens(st)[id] && (Unfinished(st', id) <==> Unfinished(st, id)))
      && (st.nextId <= id < st'.nextId ==> Tokens(st')[id] == 0 && Unfinished(st', id))
      && (st'.nextId <= id ==> Tokens(st')[id] == 0)
      && (id in st'.rows ==> id < st'.nextId)
  {
    InsertAllGrows(st, ts, parentId);
    hide Tokens;
  }

  lemma HandoverAt(st: State, lost: set<nat>, c: Command, p: Pass, id: nat)
    requires TrackedBut(st, lost, c.id) && Sensible(st.rows[c.id].status, p)
    ensures var st', lost' := Handover(st, c, p), lost + LostBy(st, c, p);
      && st'.nextId == st.nextId + |p.orphans|
      && Balanced(st', lost', id)
      && (id in lost' ==> Unfinished(st', id))
      && (st'.nextId <= id ==> Tokens(st')[id] == 0)
      && (id in st'.rows ==> id < st'.nextId)
  {
    hide Tokens;
    var st1 := WriteRow(st, c.id, p.status, p.retries);
    WriteRowBalance(st, lost, c, p);
    assert id in lost ==> id < st.nextId;
    assert id != c.id ==> Balanced(st1, lost, id);
    assert st1.nextId == st.nextId;
    hide WriteRow, TrackedBut;
    var st2 := InsertAll(st1, p.orphans, c.id);
    InsertAllAt(st1, p.orphans, c.id, id);
    hide InsertAll;
    var again := c.(retries := p.retries.GetOr(c.retries));
    ReaddAt(st2, again, p.readd, id);
    assert Handover(st, c, p) == if p.readd.None? then st2 else AddExisting(st2, again, p.readd.value);
    hide AddExisting, Handover;
  }

  lemma HandoverTracks(st: State, lost: set<nat>, c: Command, p: Pass)
    requires TrackedBut(st, lost, c.id) && Sensible(st.rows[c.id].status, p)
    ensures Tracked(Handover(st, c, p), lost + LostBy(st, c, p))
  {
    var st', lost' := Handover(st, c, p), lost + LostBy(st, c, p);
    hide Tokens, Handover, Balanced;
    forall id: nat
      ensures Balanced(st', lost', id)
      ensures id in lost' ==> Unfinished(st', id)
      ensures id in st'.rows ==> id < st'.nextId
    {
      HandoverAt(st, lost, c, p, id);
    }
  }

  lemma GrownTracks(st: State, lost: set<nat>, st': State, k: nat)
    requires Grown(st, st', k, 1) && Tracked(st, lost)
    ensures Tracked(st', lost)
  {
    hide Tokens;
    forall id: nat
      ensures Balanced(st', lost, id)
    {
      assert Balanced(st, lost, id);
      if st.nextId <= id < st'.nextId {
        assert Unfinished(st', id) && Tokens(st')[id] == 1;
      }
    }
  }

  lemma AddedTracks(st: State, lost: set<nat>, children: seq<Template>, parentId: nat, late: seq<Template>)
    requires Tracked(st, lost)
    ensures Tracked(AddAllNew(AddChildren(st, children, parentId), late), lost)
  {
    hide Tracked, Grown, AddChildren, AddAllNew;
    TrackedMeansFresh(st, lost);
    AddChildrenGrows(st, children, parentId);
    var st1 := AddChildren(st, children, parentId);
    GrownTracks(st, lost, st1, |children|);
    TrackedMeansFresh(st1, lost);
    AddAllNewGrows(st1, late);
    GrownTracks(st1, lost, AddAllNew(st1, late), |late|);
  }

  lemma ApplyPassTracks(st: State, lost: set<nat>, c: Command, p: Pass)
    requires TrackedBut(st, lost, c.id) && Sensible(st.rows[c.id].status, p)
    ensures Tracked(ApplyPass(st, c, p), lost + LostBy(st, c, p))
  {
    HandoverTracks(st, lost, c, p);
    AddedTracks(Handover(st, c, p), lost + LostBy(st, c, p), p.children, c.id, p.lateChildren);
    hide Handover, Tracked, LostBy, AddChildren, AddAllNew;
  }

  predicate Runs(c: Command, now: int, o: Reaction) {
    o.resolved && !TooLate(c, now) && WaitMs(c, now) <= 0
  }

  /** The two ways in which a pass loses track of a row: packing throws when a failed command was to be repeated, or
      only some children of a non-transactional command could be inserted. */
  predicate LosesTrack(c: Command, now: int, o: Reaction) {
    && Runs(c, now, o)
    && RunFails(c, o)
    && ((c.retries <= 0 && o.recover.RecoverRepeat? && o.recoverPackThrows) || LosesChildren(c, o))
  }

  predicate LosesChildren(c: Command, o: Reaction) {
    o.run.Commands? && !c.transactional && !AllInsertable(o.run.commands)
    && exists i :: 0 <= i < |o.run.commands| && o.run.commands[i].insertable
  }

  lemma {:induction false} InsertableNonempty(ts: seq<Template>)
    ensures Insertable(ts) == [] <==> forall i :: 0 <= i < |ts| ==> !ts[i].insertable
  {
    if ts != [] {
      InsertableNonempty(ts[1..]);
      assert forall i :: 1 <= i < |ts| ==> ts[i] == ts[1..][i - 1];
    }
  }

  /** A pass hands the token back exactly if it leaves the row unfinished, and leaves no child behind. */
  predicate Settles(before: Status, p: Pass) {
    (p.readd.Some? <==> !p.status.GetOr(before).Terminal()) && p.orphans == []
  }

  lemma PassSettlesIff(c: Command, now: int, o: Reaction, before: Status)
    requires !before.Terminal()
    ensures Settles(before, PassOf(c, now, o)) <==> !LosesTrack(c, now, o)
    ensures Sensible(before, PassOf(c, now, o))
  {
    if o.run.Commands? {
      InsertableNonempty(o.run.commands);
    }
  }

  lemma TakeTokenFromWorker(st: State, lost: set<nat>, i: nat)
    requires Tracked(st, lost) && i < |st.running|
    ensures TrackedBut(st.(running := Remove(st.running, i)), lost, st.running[i].id)
  {
    var st' := st.(running := Remove(st.running, i));
    var held := st.running[i].id;
    RemoveToken(st, i);
    hide Tokens;
    assert Tokens(st) == Tokens(st') + multiset{held};
    assert Balanced(st, lost, held) && Unfinished(st, held);
    forall id: nat | id != held
      ensures Balanced(st', lost, id)
    {
      assert Balanced(st, lost, id);
    }
  }

  lemma RemoveToken(st: State, i: nat)
    requires i < |st.running|
    ensures Tokens(st) == Tokens(st.(running := Remove(st.running, i))) + multiset{st.running[i].id}
  {
    RemoveId(Ids(st.running), i);
    assert Ids(Remove(st.running, i)) == Remove(Ids(st.running), i);
  }

  /** The rows a step loses. */
  function LostIn(st: State, step: Step): set<nat>
    requires Enabled(st, step)
  {
    match step
    case Finish(i, now, o) => LostBy(st, st.running[i], PassOf(st.running[i], now, o))
    case _ => {}
  }

  /** A pass loses exactly the rows listed, and none unless it is one of the cases of `LosesTrack`. */
  lemma ExecuteTracks(st: State, lost: set<nat>, i: nat, now: int, o: Reaction)
    requires Tracked(st, lost) && i < |st.running| && now <= st.clock
    ensures Enabled(st, Finish(i, now, o))
    ensures Tracked(Apply(st, Finish(i, now, o)), lost + LostIn(st, Finish(i, now, o)))
    ensures LostIn(st, Finish(i, now, o)) == {} <==> !LosesTrack(st.running[i], now, o)
  {
    var c := st.running[i];
    var p := PassOf(c, now, o);
    var taken := st.(running := Remove(st.running, i));
    TakeTokenFromWorker(st, lost, i);
    PassSettlesIff(c, now, o, st.rows[c.id].status);
    ApplyPassTracks(taken, lost, c, p);
    hide PassOf, LosesTrack, ApplyPass, Tracked, TrackedBut;
    if p.orphans != [] {
      assert st.nextId in LostBy(st, c, p);
    }
    assert LostBy(taken, c, p) == LostBy(st, c, p);
  }

  /** One pass of `_execute` keeps tokens and rows in step, except exactly in the two cases of `LosesTrack`. */
  lemma ExecuteConservesIff(st: State, i: nat, now: int, o: Reaction)
    requires Conserved(st) && i < |st.running| && now <= st.clock
    ensures Enabled(st, Finish(i, now, o))
    ensures Conserved(Apply(st, Finish(i, now, o))) <==> !LosesTrack(st.running[i], now, o)
  {
    ExecuteTracks(st, {}, i, now, o);
    var st', lost := Apply(st, Finish(i, now, o)), LostIn(st, Finish(i, now, o));
    hide Tokens, Apply, LostIn, LosesTrack;
    assert {} + lost == lost;
    if lost != {} {
      var id :| id in lost;
      assert Balanced(st', lost, id) && !Balanced(st', {}, id);
    }
  }

  lemma FireKeepsTokens(st: State, i: nat)
    requires Enabled(st, Fire(i))
    ensures Tokens(Apply(st, Fire(i))) == Tokens(st)
  {
    RemoveId(TimerIds(st.timers), i);
    assert TimerIds(Remove(st.timers, i)) == Remove(TimerIds(st.timers), i);
    assert Ids(st.queue + [st.timers[i].command]) == Ids(st.queue) + [st.timers[i].command.id];
  }

  lemma StartKeepsTokens(st: State)
    requires Enabled(st, Start)
    ensures Tokens(Apply(st, Start)) == Tokens(st)
  {
    assert Ids(st.queue) == [st.queue[0].id] + Ids(st.queue[1..]);
    assert Ids(st.running + [st.queue[0]]) == Ids(st.running) + [st.queue[0].id];
  }

  /** Submitting, waiting, timers and starting lose nothing. */
  lemma OtherStepsTrack(st: State, lost: set<nat>, step: Step)
    requires Tracked(st, lost) && Enabled(st, step) && !step.Finish?
    ensures Tracked(Apply(st, step), lost)
  {
    match step
    case Submit(t, addDelay) =>
      hide AddNew;
      TrackedMeansFresh(st, lost);
      AddNewGrows(st, t, addDelay);
      GrownTracks(st, lost, AddNew(st, t, addDelay), 1);
    case Tick(_) =>
      SameTokens(st, Apply(st, step));
      SameBalance(st, lost, Apply(st, step));
    case Fire(i) =>
      FireKeepsTokens(st, i);
      SameBalance(st, lost, Apply(st, step));
    case Start =>
      StartKeepsTokens(st);
      SameBalance(st, lost, Apply(st, step));
  }

  lemma StepTracks(st: State, lost: set<nat>, step: Step)
    requires Tracked(st, lost) && Enabled(st, step)
    ensures Tracked(Apply(st, step), lost + LostIn(st, step))
  {
    if step.Finish? {
      ExecuteTracks(st, lost, step.i, step.now, step.o);
    } else {
      OtherStepsTrack(st, lost, step);
      assert lost + {} == lost;
    }
  }

  // ----- Runs -----

  /** The rows that the passes of a run lose. */
  function Lost(st: State, steps: seq<Step>): set<nat>
    requires CanRun(st, steps)
    decreases |steps|
  {
    if steps == [] then {} else LostIn(st, steps[0]) + Lost(Apply(st, steps[0]), steps[1..])
  }

  /** No pass of the run loses track of a row. */
  predicate KeepsTrack(st: State, steps: seq<Step>)
    requires CanRun(st, steps)
    decreases |steps|
  {
    steps != [] ==>
      && (steps[0].Finish? ==> !LosesTrack(st.running[steps[0].i], steps[0].now, steps[0].o))
      && KeepsTrack(Apply(st, steps[0]), steps[1..])
  }

  /** Tokens and rows are in step before and after every step of the run. */
  ghost predicate AlwaysConserved(st: State, steps: seq<Step>)
    requires CanRun(st, steps)
    decreases |steps|
  {
    Conserved(st) && (steps != [] ==> AlwaysConserved(Apply(st, steps[0]), steps[1..]))
  }

  lemma {:induction false} RunTracks(st: State, lost: set<nat>, steps: seq<Step>)
    requires Tracked(st, lost) && CanRun(st, steps)
    ensures Tracked(Run(st, steps), lost + Lost(st, steps))
    ensures Lost(st, steps) == {} <==> KeepsTrack(st, steps)
    decreases |steps|
  {
    hide Tracked, LosesTrack;
    if steps == [] {
      assert lost + {} == lost;
    } else {
      var now := LostIn(st, steps[0]);
      StepTracks(st, lost, steps[0]);
      if steps[0].Finish? {
        assert now == {} <==> !LosesTrack(st.running[steps[0].i], steps[0].now, steps[0].o) by {
          ExecuteTracks(st, lost, steps[0].i, steps[0].now, steps[0].o);
        }
      }
      hide LostIn, Apply;
      RunTracks(Apply(st, steps[0]), lost + now, steps[1..]);
      assert (lost + now) + Lost(Apply(st, steps[0]), steps[1..]) == lost + Lost(st, steps);
    }
  }

  lemma EmptyIsTracked(clock: int)
    ensures Tracked(Empty(clock), {})
  {
    assert Tokens(Empty(clock)) == multiset{};
  }

  /** In every reachable state, whatever any pass lost: a row is unfinished and not lost iff exactly one of queue,
      timers and workers holds its command, exactly once; lost rows, finished rows and unknown ids have no token. */
  lemma TokensAreConserved(clock: int, steps: seq<Step>)
    requires CanRun(Empty(clock), steps)
    ensures var st, lost := Run(Empty(clock), steps), Lost(Empty(clock), steps);
      && (forall id: nat ::
            multiset(Ids(st.queue))[id] + multiset(TimerIds(st.timers))[id] + multiset(Ids(st.running))[id]
            == if Unfinished(st, id) && id !in lost then 1 else 0)
      && (forall id :: id in lost ==> Unfinished(st, id))
      && (lost == {} <==> KeepsTrack(Empty(clock), steps))
  {
    EmptyIsTracked(clock);
    RunTracks(Empty(clock), {}, steps);
    var st, lost := Run(Empty(clock), steps), Lost(Empty(clock), steps);
    assert {} + lost == lost;
    forall id: nat
      ensures multiset(Ids(st.queue))[id] + multiset(TimerIds(st.timers))[id] + multiset(Ids(st.running))[id]
        == if Unfinished(st, id) && id !in lost then 1 else 0
    {
      assert Balanced(st, lost, id);
    }
  }

  /** Every row has its one token throughout a run exactly if no pass of the run is one of the losing cases. */
  lemma {:induction false} AlwaysConservedIff(st: State, steps: seq<Step>)
    requires Conserved(st) && CanRun(st, steps)
    ensures AlwaysConserved(st, steps) <==> KeepsTrack(st, steps)
    decreases |steps|
  {
    hide Tracked, LosesTrack;
    if steps != [] {
      var step := steps[0];
      if step.Finish? {
        ExecuteConservesIff(st, step.i, step.now, step.o);
      } else {
        OtherStepsTrack(st, {}, step);
      }
      hide Apply;
      if Conserved(Apply(st, step)) {
        AlwaysConservedIff(Apply(st, step), steps[1..]);
      } else {
        assert !AlwaysConserved(Apply(st, step), steps[1..]);
      }
    }
  }

  /** A step leaves alone every row that has no token, and gives it none. */
  lemma StepKeepsIdleRow(st: State, lost: set<nat>, step: Step, id: nat)
    requires Tracked(st, lost) && Enabled(st, step) && id in st.rows && Tokens(st)[id] == 0
    ensures id in Apply(st, step).rows && Apply(st, step).rows[id] == st.rows[id] && Tokens(Apply(st, step))[id] == 0
  {
    TrackedMeansFresh(st, lost);
    assert id < st.nextId;
    match step
    case Submit(t, addDelay) =>
      AddNewGrows(st, t, addDelay);
    case Tick(_) =>
      SameTokens(st, Apply(st, step));
    case Fire(i) =>
      FireKeepsTokens(st, i);
    case Start =>
      StartKeepsTokens(st);
    case Finish(i, now, o) =>
      var c, p := st.running[i], PassOf(st.running[i], now, o);
      var taken := st.(running := Remove(st.running, i));
      RemoveToken(st, i);
      TakeTokenFromWorker(st, lost, i);
      PassSettlesIff(c, now, o, st.rows[c.id].status);
      PassKeepsIdleRow(taken, lost, c, p, id);
  }

  lemma PassKeepsIdleRow(st: State, lost: set<nat>, c: Command, p: Pass, id: nat)
    requires TrackedBut(st, lost, c.id) && Sensible(st.rows[c.id].status, p)
    requires id in st.rows && id != c.id && Tokens(st)[id] == 0
    ensures var st' := ApplyPass(st, c, p); id in st'.rows && st'.rows[id] == st.rows[id] && Tokens(st')[id] == 0
  {
    var st1 := WriteRow(st, c.id, p.status, p.retries);
    WriteRowBalance(st, lost, c, p);
    SameTokens(st, st1);
    var st2 := InsertAll(st1, p.orphans, c.id);
    InsertAllGrows(st1, p.orphans, c.id);
    ReaddAt(st2, c.(retries := p.retries.GetOr(c.retries)), p.readd, id);
    var st3 := Handover(st, c, p);
    assert id in st3.rows && st3.rows[id] == st.rows[id] && Tokens(st3)[id] == 0;
    HandoverTracks(st, lost, c, p);
    TrackedMeansFresh(st3, lost + LostBy(st, c, p));
    hide Tokens, Handover, TrackedBut, Tracked, WriteRow, InsertAll, AddExisting;
    var st4 := AddChildren(st3, p.children, c.id);
    AddChildrenGrows(st3, p.children, c.id);
    AddAllNewGrows(st4, p.lateChildren);
    GrownTransitive(st3, st4, AddAllNew(st4, p.lateChildren), |p.children|, |p.lateChildren|, 1);
  }

  /** Rows that are finished or lost are never written again, and their commands are never held again: a command ends
      once, with one status. */
  lemma {:induction false} EndedRowsAreFinal(st: State, lost: set<nat>, steps: seq<Step>, id: nat)
    requires Tracked(st, lost) && CanRun(st, steps) && id in st.rows
    requires st.rows[id].status.Terminal() || id in lost
    ensures id in Run(st, steps).rows && Run(st, steps).rows[id] == st.rows[id] && Tokens(Run(st, steps))[id] == 0
    decreases |steps|
  {
    assert Balanced(st, lost, id);
    hide Tokens, Tracked;
    if steps != [] {
      StepKeepsIdleRow(st, lost, steps[0], id);
      StepTracks(st, lost, steps[0]);
      EndedRowsAreFinal(Apply(st, steps[0]), lost + LostIn(st, steps[0]), steps[1..], id);
    }
  }

  // ----- The two losing cases -----

  /** As long as packing does not throw, only a partly inserted list of children loses rows. */
  lemma OnlyChildrenAreLost(c: Command, now: int, o: Reaction)
    requires !o.recoverPackThrows
    ensures LosesTrack(c, now, o) <==> Runs(c, now, o) && LosesChildren(c, o)
  {
  }

  /** What today's handlers do: none overrides `pack`, which returns its argument, and each continues with at most one
      command. */
  predicate Plain(step: Step) {
    step.Finish? ==>
      !step.o.packThrows && !step.o.recoverPackThrows && (step.o.run.Commands? ==> |step.o.run.commands| <= 1)
  }

  /** Such handlers never lose a row. */
  lemma {:induction false} PlainHandlersKeepTrack(st: State, steps: seq<Step>)
    requires CanRun(st, steps) && forall i :: 0 <= i < |steps| ==> Plain(steps[i])
    ensures KeepsTrack(st, steps)
    decreases |steps|
  {
    if steps != [] {
      assert Plain(steps[0]);
      assert forall i :: 0 <= i < |steps[1..]| ==> steps[1..][i] == steps[i + 1];
      hide Apply;
      PlainHandlersKeepTrack(Apply(st, steps[0]), steps[1..]);
    }
  }

  const SIMPLE: Template := Template("simple", None, None, 0, None, 0, false, true)

  const NAMELESS: Template := Template("", None, None, 0, None, 0, false, false)

  lemma RunOneMore(st: State, step: Step, rest: seq<Step>)
    requires Enabled(st, step) && CanRun(Apply(st, step), rest)
    ensures CanRun(st, [step] + rest)
    ensures Run(st, [step] + rest) == Run(Apply(st, step), rest)
    ensures Lost(st, [step] + rest) == LostIn(st, step) + Lost(Apply(st, step), rest)
  {
    assert ([step] + rest)[1..] == rest;
  }

  /** The rows after a pass that adds nothing. */
  lemma RowsAfter(st: State, c: Command, now: int, o: Reaction)
    requires st.running == [c] && c.id in st.rows && now <= st.clock
    requires var p := PassOf(c, now, o); p.children == [] && p.lateChildren == [] && p.readd.None?
    ensures var p := PassOf(c, now, o);
      Apply(st, Finish(0, now, o)).rows == InsertAll(WriteRow(st, c.id, p.status, p.retries), p.orphans, c.id).rows
  {
    hide PassOf;
    var taken := st.(running := []);
    assert Remove(st.running, 0) == [];
    var p := PassOf(c, now, o);
    InsertAllRows(WriteRow(taken, c.id, p.status, p.retries), WriteRow(st, c.id, p.status, p.retries), p.orphans, c.id);
  }

  lemma {:induction false} InsertAllRows(a: State, b: State, ts: seq<Template>, parentId: nat)
    requires a.rows == b.rows && a.nextId == b.nextId && a.clock == b.clock
    ensures InsertAll(a, ts, parentId).rows == InsertAll(b, ts, parentId).rows
    decreases |ts|
  {
    if ts != [] {
      InsertAllRows(Insert(a, ts[0], Some(parentId)), Insert(b, ts[0], Some(parentId)), ts[1..], parentId);
    }
  }

  /** A command without delay is submitted, started and passed once. */
  function OnePass(o: Reaction): seq<Step> {
    [Submit(SIMPLE, 0)] + ([Start] + ([Finish(0, 0, o)] + []))
  }

  function First(): Command { Born(SIMPLE, 0, 0, None) }

  function Running(): State { State(map[0 := Row(Pending, First())], [], [], [First()], 1, 0) }

  lemma OnePassRun(o: Reaction, p: Pass)
    requires p == PassOf(First(), 0, o) && p.children == [] && p.lateChildren == [] && p.readd.None?
    ensures CanRun(Empty(0), OnePass(o))
    ensures Lost(Empty(0), OnePass(o)) == LostBy(Running(), First(), p)
    ensures Run(Empty(0), OnePass(o)).rows == InsertAll(WriteRow(Running(), 0, p.status, p.retries), p.orphans, 0).rows
  {
    var st1 := Apply(Empty(0), Submit(SIMPLE, 0));
    assert st1.queue == [First()];
    assert st1.rows == map[0 := Row(Pending, First())];
    var st := Apply(st1, Start);
    assert st == Running();
    RowsAfter(st, First(), 0, o);
    hide PassOf, Apply, LostBy, InsertAll, WriteRow, Born;
    RunOneMore(st, Finish(0, 0, o), []);
    RunOneMore(st1, Start, [Finish(0, 0, o)] + []);
    RunOneMore(Empty(0), Submit(SIMPLE, 0), [Start] + ([Finish(0, 0, o)] + []));
  }

  lemma LostHasNoToken(clock: int, steps: seq<Step>, id: nat)
    requires CanRun(Empty(clock), steps) && id in Lost(Empty(clock), steps)
    ensures Tokens(Run(Empty(clock), steps))[id] == 0
  {
    EmptyIsTracked(clock);
    RunTracks(Empty(clock), {}, steps);
    assert {} + Lost(Empty(clock), steps) == Lost(Empty(clock), steps);
    assert Balanced(Run(Empty(clock), steps), Lost(Empty(clock), steps), id);
  }

  lemma FirstIsDue()
    ensures First().id == 0 && First().retries == 0 && !First().transactional
    ensures !TooLate(First(), 0) && WaitMs(First(), 0) <= 0
  {
  }

  lemma RepeatPass(c: Command, o: Reaction)
    requires Runs(c, 0, o) && c.retries == 0 && !c.transactional
    requires o.run.RunThrows? && o.recover.RecoverRepeat? && o.recoverPackThrows
    ensures PassOf(c, 0, o) == Pass(true, Some(Repeating), None, None, [], [], [])
  {
  }

  lemma ChildPass(c: Command, o: Reaction)
    requires Runs(c, 0, o) && c.retries == 0 && !c.transactional
    requires o.run == Commands([SIMPLE, NAMELESS]) && o.recover.RecoverDone?
    ensures PassOf(c, 0, o) == Pass(true, Some(Failed), None, None, [], [], [SIMPLE])
  {
    assert [SIMPLE, NAMELESS][1..] == [NAMELESS] && [NAMELESS][1..] == [];
    assert Insertable([NAMELESS]) == [];
    assert !([SIMPLE, NAMELESS][1]).insertable;
  }

  /** First case: the handler throws, recovery asks for a repetition, and packing throws; the repetition is lost. */
  lemma RepeatIsLost(o: Reaction)
    requires o.resolved && o.run.RunThrows? && o.recover.RecoverRepeat? && o.recoverPackThrows
    ensures CanRun(Empty(0), OnePass(o)) && Lost(Empty(0), OnePass(o)) == {0}
    ensures var st := Run(Empty(0), OnePass(o));
      0 in st.rows && st.rows[0].status == Repeating && Tokens(st)[0] == 0
  {
    hide PassOf, OnePass, Run, CanRun, Lost, Tokens, First;
    FirstIsDue();
    RepeatPass(First(), o);
    OnePassRun(o, PassOf(First(), 0, o));
    LostHasNoToken(0, OnePass(o), 0);
  }

  /** Second case: the second of two children cannot be inserted; the command fails and the first child is stranded. */
  lemma ChildIsLost(o: Reaction)
    requires o.resolved && o.run == Commands([SIMPLE, NAMELESS]) && o.recover.RecoverDone?
    ensures CanRun(Empty(0), OnePass(o)) && Lost(Empty(0), OnePass(o)) == {1}
    ensures var st := Run(Empty(0), OnePass(o));
      && 0 in st.rows && st.rows[0].status == Failed
      && 1 in st.rows && st.rows[1].status == Pending && Tokens(st)[1] == 0
  {
    hide PassOf, OnePass, Run, CanRun, Lost, Tokens, First;
    FirstIsDue();
    ChildPass(First(), o);
    OnePassRun(o, PassOf(First(), 0, o));
    assert 1 in IdsFrom(1, 1) && IdsFrom(1, 1) == {1};
    LostHasNoToken(0, OnePass(o), 1);
    assert [SIMPLE][1..] == [];
  }
}
