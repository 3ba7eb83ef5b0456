/** What one command does in a run of the whole executor: its passes form one history of the kind that
    `CommandLifetime` is about. */
module CommandHistory {
  import opened CommandScheduler
  import opened TokenConservation
  import opened CommandLifetime
  import opened Common

  // ----- Who holds a command -----

  predicate Holds(st: State, c: Command) {
    c in st.queue || c in st.running || exists i :: 0 <= i < |st.timers| && st.timers[i].command == c
  }

  /** Whoever holds the command with this id holds `c`. */
  ghost predicate HoldsOnly(st: State, id: nat, c: Command) {
    forall x :: Holds(st, x) && x.id == id ==> x == c
  }

  ghost predicate NobodyHolds(st: State, id: nat) {
    forall x :: Holds(st, x) ==> x.id != id
  }

  /** The holders of commands with this id are the same in both states. */
  ghost predicate SameHolders(st: State, st': State, id: nat) {
    forall x: Command :: x.id == id ==> (Holds(st', x) <==> Holds(st, x))
  }

  lemma ParkHolds(st: State, c: Command, delay: int, x: Command)
    ensures Holds(Park(st, c, delay), x) <==> Holds(st, x) || x == c
  {
    var st' := Park(st, c, delay);
    if delay != 0 {
      var n := |st.timers|;
      assert st'.timers[n].command == c;
      assert forall i :: 0 <= i < n ==> st'.timers[i] == st.timers[i];
    }
  }

  lemma IdInIds(cs: seq<Command>, c: Command)
    requires c in cs
    ensures multiset(Ids(cs))[c.id] >= 1
  {
    var i :| 0 <= i < |cs| && cs[i] == c;
    assert Ids(cs)[i] == c.id;
  }

  lemma NoTokenNoHolder(st: State, id: nat)
    requires Tokens(st)[id] == 0
    ensures NobodyHolds(st, id)
  {
    forall c | Holds(st, c)
      ensures c.id != id
    {
      if c in st.queue {
        IdInIds(st.queue, c);
      } else if c in st.running {
        IdInIds(st.running, c);
      } else {
        var i :| 0 <= i < |st.timers| && st.timers[i].command == c;
        assert TimerIds(st.timers)[i] == c.id;
      }
    }
  }

  // ----- How new commands are held -----

  /** Stands for the command of an id that is not new. */
  function Anything(id: nat): Command {
    Command(id, "", 0, 0, 0, None, 0, false, None)
  }

  /** The command as it was inserted, up to a later ready time. */
  predicate Postponed(inserted: Command, c: Command) {
    c.(readyAt := inserted.readyAt) == inserted && inserted.readyAt <= c.readyAt
  }

  /** The row of a new id, and whoever holds its command. */
  ghost predicate NewlyHeld(st: State, id: nat, c: Command) {
    id in st.rows && Postponed(st.rows[id].command, c) && c.id == id && HoldsOnly(st, id, c)
  }

  lemma SameListsSameHolders(st: State, st': State, id: nat)
    requires st'.queue == st.queue && st'.timers == st.timers && st'.running == st.running
    ensures SameHolders(st, st', id)
  {
  }

  lemma InsertHolds(st: State, t: Template, parentId: Option<nat>, id: nat)
    requires FreshIds(st)
    ensures var st' := Insert(st, t, parentId);
      && FreshIds(st') && st'.nextId == st.nextId + 1 && SameHolders(st, st', id)
      && (id == st.nextId ==>
            && NewlyHeld(st', id, Born(t, id, st.clock, parentId))
            && NobodyHolds(st', id))
  {
    SameTokens(st, Insert(st, t, parentId));
    NoTokenNoHolder(st, st.nextId);
    SameListsSameHolders(st, Insert(st, t, parentId), id);
    hide Tokens, Holds;
  }

  /** Parking the command of a row that nobody holds. */
  lemma ParkNew(st: State, c: Command, delay: int, id: nat)
    ensures id != c.id ==> SameHolders(st, Park(st, c, delay), id)
    ensures (id == c.id && id in st.rows && Postponed(st.rows[id].command, c) && NobodyHolds(st, id)) ==>
      NewlyHeld(Park(st, c, delay), id, c)
  {
    ParkAddsToken(st, c, delay);
    hide Park, Tokens, Holds, Postponed;
    forall x
      ensures Holds(Park(st, c, delay), x) <==> Holds(st, x) || x == c
    {
      ParkHolds(st, c, delay, x);
    }
  }

  lemma AddChildHolds(st: State, t: Template, parentId: nat, id: nat) returns (c: Command)
    requires FreshIds(st)
    ensures id != st.nextId ==> SameHolders(st, AddChild(st, t, parentId), id)
    ensures id == st.nextId ==> NewlyHeld(AddChild(st, t, parentId), id, c)
  {
    var born := Born(t, st.nextId, st.clock, Some(parentId));
    c := Shifted(born, born.delay);
    assert c.id == st.nextId && Postponed(born, c);
    var inserted := Insert(st, t, Some(parentId));
    assert inserted.rows[st.nextId].command == born;
    assert AddChild(st, t, parentId) == Park(inserted, c, born.delay);
    InsertHolds(st, t, Some(parentId), id);
    hide Born, Shifted, Insert, AddChild, Park, Holds, Postponed, FreshIds, Tokens;
    ParkNew(inserted, c, born.delay, id);
  }

  lemma AddNewHolds(st: State, t: Template, addDelay: int, id: nat) returns (c: Command)
    requires FreshIds(st)
    ensures id != st.nextId ==> SameHolders(st, AddNew(st, t, addDelay), id)
    ensures id == st.nextId ==> NewlyHeld(AddNew(st, t, addDelay), id, c)
  {
    var t' := if addDelay > MAX_COMMAND_DELAY then t.(readyAt := Some(t.readyAt.GetOr(st.clock) + addDelay)) else t;
    c := Born(t', st.nextId, st.clock, None);
    assert c.id == st.nextId && Postponed(c, c);
    var inserted := Insert(st, t', None);
    assert inserted.rows[st.nextId].command == c;
    assert AddNew(st, t, addDelay) == Park(inserted, c, addDelay);
    InsertHolds(st, t', None, id);
    hide Born, Insert, AddNew, Park, Holds, Postponed, FreshIds, Tokens;
    ParkNew(inserted, c, addDelay, id);
  }

  /** Later insertions leave a newly held command as it is. */
  lemma NewlyHeldStays(st: State, st': State, k: nat, held: nat, id: nat, c: Command)
    requires Grown(st, st', k, held) && id < st.nextId && SameHolders(st, st', id) && NewlyHeld(st, id, c)
    ensures NewlyHeld(st', id, c)
  {
    hide Tokens, Holds, Postponed;
  }

  lemma {:induction false} AddChildrenHold(st: State, ts: seq<Template>, parentId: nat, id: nat) returns (c: Command)
    requires FreshIds(st)
    ensures var st' := AddChildren(st, ts, parentId);
      && (id < st.nextId ==> SameHolders(st, st', id))
      && (st.nextId <= id < st'.nextId ==> NewlyHeld(st', id, c))
    decreases |ts|
  {
    AddChildrenGrows(st, ts, parentId);
    hide Tokens, AddChild, NewlyHeld, Holds;
    if ts != [] {
      var next := AddChild(st, ts[0], parentId);
      AddChildGrows(st, ts[0], parentId);
      AddChildrenGrows(next, ts[1..], parentId);
      var first := AddChildHolds(st, ts[0], parentId, id);
      c := AddChildrenHold(next, ts[1..], parentId, id);
      if id == st.nextId {
        NewlyHeldStays(next, AddChildren(next, ts[1..], parentId), |ts[1..]|, 1, id, first);
        c := first;
      }
    } else {
      c := Anything(id);
    }
  }

  lemma {:induction false} AddAllNewHold(st: State, ts: seq<Template>, id: nat) returns (c: Command)
    requires FreshIds(st)
    ensures var st' := AddAllNew(st, ts);
      && (id < st.nextId ==> SameHolders(st, st', id))
      && (st.nextId <= id < st'.nextId ==> NewlyHeld(st', id, c))
    decreases |ts|
  {
    AddAllNewGrows(st, ts);
    hide Tokens, AddNew, NewlyHeld, Holds;
    if ts != [] {
      var delay := ts[0].delay.GetOr(0);
      var next := AddNew(st, ts[0], delay);
      AddNewGrows(st, ts[0], delay);
      AddAllNewGrows(next, ts[1..]);
      var first := AddNewHolds(st, ts[0], delay, id);
      c := AddAllNewHold(next, ts[1..], id);
      if id == st.nextId {
        NewlyHeldStays(next, AddAllNew(next, ts[1..]), |ts[1..]|, 1, id, first);
        c := first;
      }
    } else {
      c := Anything(id);
    }
  }

  lemma {:induction false} InsertAllHold(st: State, ts: seq<Template>, parentId: nat, id: nat) returns (c: Command)
    requires FreshIds(st)
    ensures var st' := InsertAll(st, ts, parentId);
      && SameHolders(st, st', id)
      && (st.nextId <= id < st'.nextId ==> NewlyHeld(st', id, c))
    decreases |ts|
  {
    InsertAllGrows(st, ts, parentId);
    c := Anything(id);
    hide Tokens, NewlyHeld, Holds, FreshIds, Grown, Born;
    if ts != [] {
      var next := Insert(st, ts[0], Some(parentId));
      InsertHolds(st, ts[0], Some(parentId), id);
      InsertAllGrows(next, ts[1..], parentId);
      c := InsertAllHold(next, ts[1..], parentId, id);
      if id == st.nextId {
        c := Born(ts[0], id, st.clock, Some(parentId));
        NewlyHeldStays(next, InsertAll(next, ts[1..], parentId), |ts[1..]|, 0, id, c);
      }
    }
  }

  // ----- One pass -----

  /** A pass of `c` gives it back as `After` says, and leaves all other old ids alone. */
  ghost predicate PassHolders(st: State, c: Command, p: Pass, st': State, id: nat) {
    && (forall x: Command :: x.id == id ==> (Holds(st', x) <==> Holds(st, x) || (p.readd.Some? && x == After(c, p))))
    && Tokens(st')[id] == Tokens(st)[id] + if p.readd.Some? && id == c.id then 1 else 0
  }

  lemma HandoverHolds(st: State, lost: set<nat>, c: Command, p: Pass, id: nat) returns (born: Command)
    requires TrackedBut(st, lost, c.id)
    ensures var st' := Handover(st, c, p);
      && st'.nextId == st.nextId + |p.orphans|
      && (id < st.nextId ==> PassHolders(st, c, p, st', id))
      && (st.nextId <= id < st'.nextId ==> NewlyHeld(st', id, born))
  {
    hide Tokens, Holds;
    var st1 := WriteRow(st, c.id, p.status, p.retries);
    WriteRowBalance(st, lost, c, p);
    SameTokens(st, st1);
    assert SameHolders(st, st1, id) by {
      SameListsSameHolders(st, st1, id);
    }
    assert c.id < st.nextId && st1.nextId == st.nextId;
    hide WriteRow, TrackedBut;
    var st2 := InsertAll(st1, p.orphans, c.id);
    InsertAllGrows(st1, p.orphans, c.id);
    born := InsertAllHold(st1, p.orphans, c.id, id);
    hide InsertAll;
    var again := c.(retries := p.retries.GetOr(c.retries));
    ReaddAt(st2, again, p.readd, id);
    assert Handover(st, c, p) == if p.readd.None? then st2 else AddExisting(st2, again, p.readd.value);
    if p.readd.Some? {
      assert After(c, p) == Shifted(again, p.readd.value) && After(c, p).id == c.id;
      hide Handover, After, Shifted;
      forall x: Command
        ensures Holds(AddExisting(st2, again, p.readd.value), x) <==> Holds(st2, x) || x == After(c, p)
      {
        ParkHolds(st2, Shifted(again, p.readd.value), p.readd.value, x);
      }
    }
  }

  lemma AddedHolders(st: State, children: seq<Template>, parentId: nat, late: seq<Template>, id: nat)
    returns (born: Command)
    requires FreshIds(st)
    ensures var st' := AddAllNew(AddChildren(st, children, parentId), late);
      && st'.nextId == st.nextId + |children| + |late|
      && (id < st.nextId ==> SameHolders(st, st', id) && Tokens(st')[id] == Tokens(st)[id])
      && (id < st.nextId && id in st.rows ==> id in st'.rows && st'.rows[id] == st.rows[id])
      && (st.nextId <= id < st'.nextId ==> NewlyHeld(st', id, born))
  {
    hide Tokens, Holds, AddChildren, AddAllNew, NewlyHeld;
    var st1 := AddChildren(st, children, parentId);
    var st2 := AddAllNew(st1, late);
    AddChildrenGrows(st, children, parentId);
    AddAllNewGrows(st1, late);
    var first := AddChildrenHold(st, children, parentId, id);
    born := AddAllNewHold(st1, late, id);
    if st.nextId <= id < st1.nextId {
      NewlyHeldStays(st1, st2, |late|, 1, id, first);
      born := first;
    }
  }

  lemma PassHolds(st: State, lost: set<nat>, c: Command, p: Pass, id: nat) returns (born: Command)
    requires TrackedBut(st, lost, c.id) && Sensible(st.rows[c.id].status, p)
    ensures var st' := ApplyPass(st, c, p);
      && st.nextId <= st'.nextId
      && (id < st.nextId ==> PassHolders(st, c, p, st', id))
      && (st.nextId <= id < st'.nextId ==> NewlyHeld(st', id, born))
  {
    assert c.id in st.rows;
    hide Tokens, Holds, Handover, AddChildren, AddAllNew, TrackedBut;
    var st1 := Handover(st, c, p);
    HandoverTracks(st, lost, c, p);
    TrackedMeansFresh(st1, lost + LostBy(st, c, p));
    var first := HandoverHolds(st, lost, c, p, id);
    born := AddedHolders(st1, p.children, c.id, p.lateChildren, id);
    if st.nextId <= id < st1.nextId {
      born := first;
    }
    hide After, Postponed;
  }

  // ----- One step -----

  predicate IsPassOf(st: State, step: Step, id: nat)
    requires Enabled(st, step)
  {
    step.Finish? && st.running[step.i].id == id
  }

  lemma WithoutWorker(st: State, i: nat, id: nat)
    requires i < |st.running| && st.running[i].id != id
    ensures SameHolders(st, st.(running := Remove(st.running, i)), id)
    ensures Tokens(st.(running := Remove(st.running, i)))[id] == Tokens(st)[id]
  {
    RemoveToken(st, i);
    forall x: Command | x.id == id
      ensures x in Remove(st.running, i) <==> x in st.running
    {
      assert st.running == st.running[..i] + [st.running[i]] + st.running[i + 1..];
    }
  }

  lemma FireHolds(st: State, i: nat, id: nat)
    requires Enabled(st, Fire(i))
    ensures SameHolders(st, Apply(st, Fire(i)), id)
  {
    var st' := Apply(st, Fire(i));
    forall x: Command | x.id == id
      ensures Holds(st', x) <==> Holds(st, x)
    {
      if j :| 0 <= j < |st.timers| && st.timers[j].command == x && j != i {
        assert st'.timers[if j < i then j else j - 1].command == x;
      }
      assert forall j :: 0 <= j < |st'.timers| ==> st'.timers[j] == st.timers[if j < i then j else j + 1];
    }
  }

  lemma StartHolds(st: State, id: nat)
    requires Enabled(st, Start)
    ensures SameHolders(st, Apply(st, Start), id)
  {
    assert st.queue == [st.queue[0]] + st.queue[1..];
  }

  /** A step that is no pass of the command leaves its holders alone; if the id is new, it says who holds it. */
  lemma OtherStep(st: State, lost: set<nat>, step: Step, id: nat) returns (born: Command)
    requires Tracked(st, lost) && Enabled(st, step) && !IsPassOf(st, step, id)
    ensures var st' := Apply(st, step);
      && st.nextId <= st'.nextId
      && (id < st.nextId ==> SameHolders(st, st', id) && Tokens(st')[id] == Tokens(st)[id])
      && (st.nextId <= id < st'.nextId ==> NewlyHeld(st', id, born))
  {
    TrackedMeansFresh(st, lost);
    born := Anything(id);
    hide Tokens, Holds, NewlyHeld, AddNew;
    match step
    case Submit(t, addDelay) =>
      AddNewGrows(st, t, addDelay);
      born := AddNewHolds(st, t, addDelay, id);
    case Tick(_) =>
      SameTokens(st, Apply(st, step));
      SameListsSameHolders(st, Apply(st, step), id);
    case Fire(i) =>
      FireKeepsTokens(st, i);
      FireHolds(st, i, id);
    case Start =>
      StartKeepsTokens(st);
      StartHolds(st, id);
    case Finish(i, now, o) =>
      born := OtherPass(st, lost, i, now, o, id);
  }

  lemma OtherPass(st: State, lost: set<nat>, i: nat, now: int, o: Reaction, id: nat) returns (born: Command)
    requires Tracked(st, lost) && Enabled(st, Finish(i, now, o)) && st.running[i].id != id
    ensures var st' := Apply(st, Finish(i, now, o));
      && st.nextId <= st'.nextId
      && (id < st.nextId ==> SameHolders(st, st', id) && Tokens(st')[id] == Tokens(st)[id])
      && (st.nextId <= id < st'.nextId ==> NewlyHeld(st', id, born))
  {
    hide Tokens, Holds, NewlyHeld, PassOf, ApplyPass, Tracked, TrackedBut;
    var c, p := st.running[i], PassOf(st.running[i], now, o);
    var taken := st.(running := Remove(st.running, i));
    WithoutWorker(st, i, id);
    TakeTokenFromWorker(st, lost, i);
    RunningIsUnfinished(st, lost, i);
    PassSettlesIff(c, now, o, st.rows[c.id].status);
    born := PassHolds(taken, lost, c, p, id);
    assert p.readd.Some? ==> After(c, p).id == c.id;
    hide After;
  }

  lemma RunningIsUnfinished(st: State, lost: set<nat>, i: nat)
    requires Tracked(st, lost) && i < |st.running|
    ensures Unfinished(st, st.running[i].id) && st.running[i].id < st.nextId && Tokens(st)[st.running[i].id] == 1
  {
    RemoveToken(st, i);
    assert Balanced(st, lost, st.running[i].id);
  }

  /** After its own pass the command is held once more, as `After` says, or by nobody. */
  lemma OwnPass(st: State, lost: set<nat>, i: nat, now: int, o: Reaction, c: Command)
    requires Tracked(st, lost) && Enabled(st, Finish(i, now, o)) && st.running[i] == c
    ensures var st', p := Apply(st, Finish(i, now, o)), PassOf(c, now, o);
      && c.id < st.nextId <= st'.nextId
      && Tokens(st')[c.id] == (if p.readd.Some? then 1 else 0)
      && (p.readd.Some? ==> HoldsOnly(st', c.id, After(c, p)))
  {
    hide Holds, PassOf, ApplyPass, After;
    var p := PassOf(c, now, o);
    var taken := st.(running := Remove(st.running, i));
    TakeTokenFromWorker(st, lost, i);
    RunningIsUnfinished(st, lost, i);
    NoTokenNoHolder(taken, c.id);
    hide Tokens, Tracked;
    PassSettlesIff(c, now, o, st.rows[c.id].status);
    var born := PassHolds(taken, lost, c, p, c.id);
  }

  // ----- Runs -----

  /** The passes of the command in a run. */
  function VisitsIn(st: State, steps: seq<Step>, id: nat): seq<Visit>
    requires CanRun(st, steps)
    decreases |steps|
  {
    if steps == [] then []
    else
      var later := VisitsIn(Apply(st, steps[0]), steps[1..], id);
      if IsPassOf(st, steps[0], id) then [Visit(steps[0].now, steps[0].o)] + later else later
  }

  /** The clock readings of the passes in which the run executes the command's handler. */
  function CallsIn(st: State, steps: seq<Step>, id: nat): seq<int>
    requires CanRun(st, steps)
    decreases |steps|
  {
    if steps == [] then []
    else
      var later := CallsIn(Apply(st, steps[0]), steps[1..], id);
      if IsPassOf(st, steps[0], id) && PassOf(st.running[steps[0].i], steps[0].now, steps[0].o).called
      then [steps[0].now] + later else later
  }

  lemma HeldByWorker(st: State, i: nat)
    requires i < |st.running|
    ensures Holds(st, st.running[i])
  {
  }

  lemma OneVisit(c: Command, v: Visit, rest: seq<Visit>)
    ensures var p := PassOf(c, v.now, v.o);
      CallTimes(c, [v] + rest)
        == (if p.called then [v.now] else []) + (if p.readd.Some? then CallTimes(After(c, p), rest) else [])
  {
    assert ([v] + rest)[1..] == rest;
  }

  /** From any reachable state on, the calls of a held command in the run are those of its history. */
  lemma {:induction false} HistoryFrom(st: State, lost: set<nat>, steps: seq<Step>, id: nat, c: Command)
    requires Tracked(st, lost) && CanRun(st, steps) && id < st.nextId && c.id == id && HoldsOnly(st, id, c)
    ensures CallsIn(st, steps, id) == if Tokens(st)[id] == 0 then [] else CallTimes(c, VisitsIn(st, steps, id))
    decreases |steps|, 1
  {
    hide Tokens, Holds, HoldsOnly, Tracked, PassOf, Apply, LostIn, CallTimes;
    if steps == [] {
      NoCalls(c);
    } else if IsPassOf(st, steps[0], id) {
      OwnHistory(st, lost, steps, id, c);
    } else {
      var step, next := steps[0], Apply(st, steps[0]);
      StepTracks(st, lost, step);
      var born := OtherStep(st, lost, step, id);
      SameHolderOnly(st, next, id, c);
      HistoryFrom(next, lost + LostIn(st, step), steps[1..], id, c);
      assert VisitsIn(st, steps, id) == VisitsIn(next, steps[1..], id);
      assert CallsIn(st, steps, id) == CallsIn(next, steps[1..], id);
    }
  }

  lemma NoCalls(c: Command)
    ensures CallTimes(c, []) == []
  {
  }

  lemma SameHolderOnly(st: State, st': State, id: nat, c: Command)
    requires SameHolders(st, st', id) && HoldsOnly(st, id, c)
    ensures HoldsOnly(st', id, c)
  {
  }

  lemma HeldByNobody(st: State, id: nat, c: Command)
    requires Tokens(st)[id] == 0
    ensures HoldsOnly(st, id, c)
  {
    NoTokenNoHolder(st, id);
  }

  lemma {:induction false} OwnHistory(st: State, lost: set<nat>, steps: seq<Step>, id: nat, c: Command)
    requires Tracked(st, lost) && CanRun(st, steps) && id < st.nextId && c.id == id && HoldsOnly(st, id, c)
    requires steps != [] && IsPassOf(st, steps[0], id)
    ensures Tokens(st)[id] == 1 && CallsIn(st, steps, id) == CallTimes(c, VisitsIn(st, steps, id))
    decreases |steps|, 0
  {
    var step := steps[0];
    HeldByWorker(st, step.i);
    assert st.running[step.i] == c;
    hide Tokens, Holds, HoldsOnly, Tracked, PassOf, Apply, LostIn, CallTimes;
    var next, p, visit := Apply(st, step), PassOf(c, step.now, step.o), Visit(step.now, step.o);
    StepTracks(st, lost, step);
    RunningIsUnfinished(st, lost, step.i);
    OwnPass(st, lost, step.i, step.now, step.o, c);
    var rest := VisitsIn(next, steps[1..], id);
    OneVisit(c, visit, rest);
    assert VisitsIn(st, steps, id) == [visit] + rest;
    if p.readd.Some? {
      HistoryFrom(next, lost + LostIn(st, step), steps[1..], id, After(c, p));
    } else {
      HeldByNobody(next, id, c);
      HistoryFrom(next, lost + LostIn(st, step), steps[1..], id, c);
    }
  }

  // ----- From birth to end -----

  /** The command as it is first inserted in the run. */
  function Inserted(st: State, steps: seq<Step>, id: nat): Option<Command>
    requires CanRun(st, steps)
    decreases |steps|
  {
    if id in st.rows then Some(st.rows[id].command)
    else if steps == [] then None
    else Inserted(Apply(st, steps[0]), steps[1..], id)
  }

  /** Every id of a run has one history: of the command as it was inserted, up to a later ready time. */
  lemma {:induction false} HistoryOf(st: State, lost: set<nat>, steps: seq<Step>, id: nat) returns (c: Command)
    requires Tracked(st, lost) && CanRun(st, steps) && st.nextId <= id
    ensures var inserted := Inserted(st, steps, id);
      && (inserted.None? ==> CallsIn(st, steps, id) == [])
      && (inserted.Some? ==>
            && c.id == id && Postponed(inserted.value, c)
            && (CallsIn(st, steps, id) == [] || CallsIn(st, steps, id) == CallTimes(c, VisitsIn(st, steps, id))))
    decreases |steps|
  {
    c := Anything(id);
    NewIdIsUnused(st, lost, id);
    hide Tokens, Holds, HoldsOnly, Tracked, PassOf, Apply, LostIn, CallTimes, Postponed;
    if steps != [] {
      var step, next := steps[0], Apply(st, steps[0]);
      assert !IsPassOf(st, step, id);
      StepTracks(st, lost, step);
      var born := OtherStep(st, lost, step, id);
      assert VisitsIn(st, steps, id) == VisitsIn(next, steps[1..], id);
      assert CallsIn(st, steps, id) == CallsIn(next, steps[1..], id);
      if id < next.nextId {
        c := born;
        HistoryFrom(next, lost + LostIn(st, step), steps[1..], id, c);
      } else {
        c := HistoryOf(next, lost + LostIn(st, step), steps[1..], id);
      }
    }
  }

  lemma NewIdIsUnused(st: State, lost: set<nat>, id: nat)
    requires Tracked(st, lost) && st.nextId <= id
    ensures id !in st.rows && forall i :: 0 <= i < |st.running| ==> st.running[i].id != id
  {
    forall i | 0 <= i < |st.running|
      ensures st.running[i].id != id
    {
      RunningIsUnfinished(st, lost, i);
    }
  }

  // ----- What commands are made of -----

  /** The command of a new row has everything from its template, and is ready at once or when the template says, unless
      it was added with a delay beyond the longest timer, which comes on top. */
  predicate FromTemplate(c: Command, t: Template, clock: int) {
    && c.name == t.name && c.deadlineAt == t.deadlineAt && c.period == t.period
    && c.retries == t.retries && c.transactional == t.transactional
    && c.delay == (if t.delay.None? then 0 else t.delay.value)
    && (t.readyAt.None? ==> c.readyAt == clock || c.readyAt > clock + 864_000_000)
    && (t.readyAt.Some? && t.readyAt.value > 0 ==>
          c.readyAt == t.readyAt.value || c.readyAt > t.readyAt.value + 864_000_000)
  }

  /** Who may bring a template into a step: a submission, the handler's children, or the commands of an expired one. */
  predicate Offers(step: Step, t: Template) {
    match step
    case Submit(s, _) => t == s
    case Finish(_, _, o) =>
      || (o.run.Commands? && t in o.run.commands)
      || (o.expired.ExpiredCommands? && t in o.expired.commands)
    case _ => false
  }

  lemma {:induction false} InsertableOnly(ts: seq<Template>, t: Template)
    ensures t in Insertable(ts) <==> t in ts && t.insertable
  {
    if ts != [] {
      InsertableOnly(ts[1..], t);
    }
  }

  lemma BornFromTemplate(t: Template, id: nat, clock: int, parentId: Option<nat>)
    ensures FromTemplate(Born(t, id, clock, parentId), t, clock) && Born(t, id, clock, parentId).id == id
    ensures Born(t, id, clock, parentId).parentId == parentId
  {
  }

  /** The row of an id that was made from a template. */
  ghost predicate MadeFrom(st: State, id: nat, t: Template, clock: int, parentId: Option<nat>) {
    && id in st.rows && st.rows[id].status == Pending
    && FromTemplate(st.rows[id].command, t, clock) && st.rows[id].command.parentId == parentId
  }

  lemma MadeStays(
      st: State, st': State, k: nat, held: nat, id: nat, t: Template, clock: int, parentId: Option<nat>)
    requires Grown(st, st', k, held) && id < st.nextId && MadeFrom(st, id, t, clock, parentId)
    ensures MadeFrom(st', id, t, clock, parentId)
  {
    hide Tokens, FromTemplate;
  }

  lemma SubmittedRow(st: State, t: Template, addDelay: int)
    requires FreshIds(st)
    ensures MadeFrom(AddNew(st, t, addDelay), st.nextId, t, st.clock, None)
  {
    ParkAddsToken(Insert(st, t, None), Born(t, st.nextId, st.clock, None), addDelay);
  }

  lemma AddAllNewUnrolled(st: State, ts: seq<Template>)
    requires ts != []
    ensures AddAllNew(st, ts) == AddAllNew(AddNew(st, ts[0], ts[0].delay.GetOr(0)), ts[1..])
  {
  }

  lemma OneMoreId(st: State, t: Template, addDelay: int)
    requires FreshIds(st)
    ensures var st' := AddNew(st, t, addDelay);
      FreshIds(st') && st'.nextId == st.nextId + 1 && st'.clock == st.clock
  {
    AddNewGrows(st, t, addDelay);
    hide Tokens, AddNew;
  }

  /** The rows of commands that are added on their own, in order. */
  lemma {:induction false} LateRows(st: State, ts: seq<Template>, k: nat)
    requires FreshIds(st) && k < |ts|
    ensures MadeFrom(AddAllNew(st, ts), st.nextId + k, ts[k], st.clock, None)
    decreases |ts|
  {
    hide Tokens, AddNew, AddAllNew, FromTemplate, Grown, FreshIds, MadeFrom;
    var delay := ts[0].delay.GetOr(0);
    var next := AddNew(st, ts[0], delay);
    SubmittedRow(st, ts[0], delay);
    OneMoreId(st, ts[0], delay);
    AddAllNewUnrolled(st, ts);
    if k > 0 {
      LateRows(next, ts[1..], k - 1);
      assert ts[1..][k - 1] == ts[k];
    } else {
      AddAllNewGrows(next, ts[1..]);
      MadeStays(next, AddAllNew(next, ts[1..]), |ts[1..]|, 1, st.nextId, ts[0], st.clock, None);
    }
  }

  lemma HandoverRow(st: State, lost: set<nat>, c: Command, p: Pass, id: nat)
    requires TrackedBut(st, lost, c.id) && st.nextId <= id < st.nextId + |p.orphans|
    ensures var st' := Handover(st, c, p);
      id in st'.rows && st'.rows[id] == Row(Pending, Born(p.orphans[id - st.nextId], id, st.clock, Some(c.id)))
  {
    hide Tokens, Born;
    var st1 := WriteRow(st, c.id, p.status, p.retries);
    WriteRowBalance(st, lost, c, p);
    assert st1.nextId == st.nextId && st1.clock == st.clock;
    hide WriteRow, TrackedBut, FreshIds;
    OrphanRows(st1, p.orphans, c.id, id - st.nextId);
    var st2 := InsertAll(st1, p.orphans, c.id);
    hide InsertAll;
    var again := c.(retries := p.retries.GetOr(c.retries));
    ReaddAt(st2, again, p.readd, id);
    assert Handover(st, c, p) == if p.readd.None? then st2 else AddExisting(st2, again, p.readd.value);
    hide Handover, AddExisting;
  }

  /** The rows of children, in order. */
  lemma ChildMade(st: State, ts: seq<Template>, parentId: nat, k: nat)
    requires FreshIds(st) && k < |ts|
    ensures MadeFrom(AddChildren(st, ts, parentId), st.nextId + k, ts[k], st.clock, Some(parentId))
  {
    ChildRows(st, ts, parentId, k);
    hide AddChildren, Tokens;
    BornFromTemplate(ts[k], st.nextId + k, st.clock, Some(parentId));
    hide Born, FromTemplate;
  }

  lemma AddingKeeps(
      st: State, children: seq<Template>, parentId: nat, late: seq<Template>)
    requires FreshIds(st)
    ensures var st1 := AddChildren(st, children, parentId);
      && Grown(st, st1, |children|, 1) && FreshIds(st1) && st1.nextId == st.nextId + |children| && st1.clock == st.clock
      && Grown(st1, AddAllNew(st1, late), |late|, 1) && AddAllNew(st1, late).nextId == st1.nextId + |late|
  {
    hide Tokens, AddChildren, AddAllNew;
    AddChildrenGrows(st, children, parentId);
    AddAllNewGrows(AddChildren(st, children, parentId), late);
  }

  lemma AddedRows(
      st: State, children: seq<Template>, parentId: nat, late: seq<Template>, id: nat)
    requires FreshIds(st)
    ensures var st', m := AddAllNew(AddChildren(st, children, parentId), late), st.nextId + |children|;
      && st'.nextId == m + |late|
      && (st.nextId <= id < m ==> MadeFrom(st', id, children[id - st.nextId], st.clock, Some(parentId)))
      && (m <= id < m + |late| ==> MadeFrom(st', id, late[id - m], st.clock, None))
      && (id < st.nextId && id in st.rows ==> id in st'.rows && st'.rows[id] == st.rows[id])
  {
    hide Tokens, AddChildren, AddAllNew, FromTemplate, Born, Grown, FreshIds, MadeFrom;
    var st1 := AddChildren(st, children, parentId);
    var st2 := AddAllNew(st1, late);
    AddingKeeps(st, children, parentId, late);
    if st.nextId <= id < st1.nextId {
      ChildMade(st, children, parentId, id - st.nextId);
      MadeStays(st1, st2, |late|, 1, id, children[id - st.nextId], st.clock, Some(parentId));
    } else if st1.nextId <= id < st2.nextId {
      LateRows(st1, late, id - st1.nextId);
    } else if id < st.nextId && id in st.rows {
      GrownKeepsRow(st, st1, |children|, 1, id);
      GrownKeepsRow(st1, st2, |late|, 1, id);
    }
  }

  /** The commands of the new rows of a pass: orphans and children of the handler, in order, with the passing command as
      their parent, and commands of an expired one, in order, without. */
  lemma PassMakes(st: State, lost: set<nat>, c: Command, p: Pass, id: nat)
    requires TrackedBut(st, lost, c.id) && Sensible(st.rows[c.id].status, p)
    ensures var st', n, m := ApplyPass(st, c, p), st.nextId + |p.orphans|, st.nextId + |p.orphans| + |p.children|;
      && st'.nextId == m + |p.lateChildren|
      && (st.nextId <= id < n ==> MadeFrom(st', id, p.orphans[id - st.nextId], st.clock, Some(c.id)))
      && (n <= id < m ==> MadeFrom(st', id, p.children[id - n], st.clock, Some(c.id)))
      && (m <= id < st'.nextId ==> MadeFrom(st', id, p.lateChildren[id - m], st.clock, None))
  {
    assert c.id in st.rows;
    hide Tokens, Handover, AddChildren, AddAllNew, TrackedBut, Born, FromTemplate;
    HandoverTracks(st, lost, c, p);
    var st1 := Handover(st, c, p);
    TrackedMeansFresh(st1, lost + LostBy(st, c, p));
    hide LostBy, Tracked, FreshIds;
    HandoverCounts(st, lost, c, p);
    if st.nextId <= id < st1.nextId {
      HandoverRow(st, lost, c, p, id);
      BornFromTemplate(p.orphans[id - st.nextId], id, st.clock, Some(c.id));
    }
    AddedRows(st1, p.children, c.id, p.lateChildren, id);
  }

  /** A command that is too late expires, and each command that its handler then returns is added on its own: a pending
      row without parent and, as every new row, with one token.  If the handler throws, nothing is added. */
  lemma ExpiredCommandsAreAdded(st: State, lost: set<nat>, c: Command, now: int, o: Reaction, k: nat)
    requires TrackedBut(st, lost, c.id) && o.resolved && c.deadlineAt != 0 && c.deadlineAt < now
    ensures var st' := ApplyPass(st, c, PassOf(c, now, o));
      && c.id in st'.rows && st'.rows[c.id].status == Expired
      && (o.expired.ExpiredThrows? ==> st'.nextId == st.nextId)
      && (o.expired.ExpiredCommands? && AllInsertable(o.expired.commands) ==>
            && st'.nextId == st.nextId + |o.expired.commands|
            && (k < |o.expired.commands| ==> MadeFrom(st', st.nextId + k, o.expired.commands[k], st.clock, None)))
  {
    hide PassOf, Insertable, MadeFrom, ApplyPass, TrackedBut, AllInsertable;
    ExpiredPass(c, now, o);
    var p := PassOf(c, now, o);
    if o.expired.ExpiredCommands? && AllInsertable(o.expired.commands) {
      AllAreInsertable(o.expired.commands);
    }
    InvolvedRow(st, lost, c);
    PassMakes(st, lost, c, p, st.nextId + k);
    ExpiredRow(st, lost, c, p);
  }

  lemma ExpiredPass(c: Command, now: int, o: Reaction)
    requires o.resolved && c.deadlineAt != 0 && c.deadlineAt < now
    ensures PassOf(c, now, o) == Pass(false, Some(Expired), None, None, [],
      if o.expired.ExpiredThrows? then [] else Insertable(o.expired.commands), [])
  {
    hide Insertable;
  }

  lemma InvolvedRow(st: State, lost: set<nat>, c: Command)
    requires TrackedBut(st, lost, c.id)
    ensures c.id in st.rows && !st.rows[c.id].status.Terminal()
  {
  }

  lemma ExpiredRow(st: State, lost: set<nat>, c: Command, p: Pass)
    requires TrackedBut(st, lost, c.id)
    requires p.orphans == [] && p.children == [] && p.readd.None? && p.status == Some(Expired)
    ensures c.id in ApplyPass(st, c, p).rows && ApplyPass(st, c, p).rows[c.id].status == Expired
  {
    var st1 := WriteRow(st, c.id, p.status, p.retries);
    WriteRowBalance(st, lost, c, p);
    assert ApplyPass(st, c, p) == AddAllNew(st1, p.lateChildren);
    AddAllNewGrows(st1, p.lateChildren);
    hide AddAllNew, Tokens, ApplyPass;
  }

  lemma HandoverCounts(st: State, lost: set<nat>, c: Command, p: Pass)
    requires TrackedBut(st, lost, c.id)
    ensures Handover(st, c, p).nextId == st.nextId + |p.orphans| && Handover(st, c, p).clock == st.clock
  {
    var st1 := WriteRow(st, c.id, p.status, p.retries);
    WriteRowBalance(st, lost, c, p);
    InsertAllGrows(st1, p.orphans, c.id);
    var st2 := InsertAll(st1, p.orphans, c.id);
    var again := c.(retries := p.retries.GetOr(c.retries));
    if p.readd.Some? {
      ParkAddsToken(st2, Shifted(again, p.readd.value), p.readd.value);
    }
    hide InsertAll, WriteRow, Tokens, TrackedBut, Park;
  }

  lemma PassMakesOffered(st: State, lost: set<nat>, i: nat, now: int, o: Reaction, id: nat) returns (t: Template)
    requires Tracked(st, lost) && Enabled(st, Finish(i, now, o))
    requires st.nextId <= id < Apply(st, Finish(i, now, o)).nextId
    ensures Offers(Finish(i, now, o), t)
    ensures exists parentId :: MadeFrom(Apply(st, Finish(i, now, o)), id, t, st.clock, parentId)
  {
    hide PassOf, ApplyPass, Tracked, TrackedBut, FromTemplate, Tokens, FreshIds, MadeFrom;
    var c, p := st.running[i], PassOf(st.running[i], now, o);
    var taken := st.(running := Remove(st.running, i));
    TakeTokenFromWorker(st, lost, i);
    RunningIsUnfinished(st, lost, i);
    PassSettlesIff(c, now, o, st.rows[c.id].status);
    PassMakes(taken, lost, c, p, id);
    var n, m := st.nextId + |p.orphans|, st.nextId + |p.orphans| + |p.children|;
    t := if id < n then p.orphans[id - st.nextId] else if id < m then p.children[id - n] else p.lateChildren[id - m];
    PassTakesOffered(c, now, o, t);
    assert MadeFrom(Apply(st, Finish(i, now, o)), id, t, st.clock, if id < m then Some(c.id) else None);
  }

  /** Every new row of a step holds a pending command made from one of the offered templates. */
  lemma StepMakes(st: State, lost: set<nat>, step: Step, id: nat) returns (t: Template)
    requires Tracked(st, lost) && Enabled(st, step) && st.nextId <= id < Apply(st, step).nextId
    ensures Offers(step, t)
    ensures exists parentId :: MadeFrom(Apply(st, step), id, t, st.clock, parentId)
  {
    hide MadeFrom, Tokens, FromTemplate;
    if step.Submit? {
      TrackedMeansFresh(st, lost);
      t := step.t;
      SubmittedRow(st, step.t, step.addDelay);
      OneMoreId(st, step.t, step.addDelay);
    } else if step.Finish? {
      hide Apply, PassOf;
      t := PassMakesOffered(st, lost, step.i, step.now, step.o, id);
    } else {
      assert false;
    }
  }

  lemma PassTakesOffered(c: Command, now: int, o: Reaction, t: Template)
    requires var p := PassOf(c, now, o); t in p.orphans || t in p.children || t in p.lateChildren
    ensures || (o.run.Commands? && t in o.run.commands)
            || (o.expired.ExpiredCommands? && t in o.expired.commands)
  {
    if o.run.Commands? {
      InsertableOnly(o.run.commands, t);
    }
    if o.expired.ExpiredCommands? {
      InsertableOnly(o.expired.commands, t);
    }
    hide Insertable;
  }

  lemma {:induction false} InsertedFromTemplate(st: State, lost: set<nat>, steps: seq<Step>, id: nat)
    returns (t: Template, clock: int)
    requires Tracked(st, lost) && CanRun(st, steps) && st.nextId <= id && Inserted(st, steps, id).Some?
    ensures exists i :: 0 <= i < |steps| && Offers(steps[i], t)
    ensures st.clock <= clock && FromTemplate(Inserted(st, steps, id).value, t, clock)
    decreases |steps|
  {
    NewIdIsUnused(st, lost, id);
    hide Tokens, Tracked, Apply, LostIn, FromTemplate, Offers;
    var next := Apply(st, steps[0]);
    StepTracks(st, lost, steps[0]);
    ClockAdvances(st, lost, steps[0]);
    if id < next.nextId {
      t := StepMakes(st, lost, steps[0], id);
      clock := st.clock;
    } else {
      t, clock := InsertedFromTemplate(next, lost + LostIn(st, steps[0]), steps[1..], id);
      var i :| 0 <= i < |steps[1..]| && Offers(steps[1..][i], t);
      assert steps[1..][i] == steps[i + 1];
    }
  }

  lemma ClockAdvances(st: State, lost: set<nat>, step: Step)
    requires Tracked(st, lost) && Enabled(st, step)
    ensures st.clock <= Apply(st, step).clock
  {
    TrackedMeansFresh(st, lost);
    match step
    case Submit(t, addDelay) =>
      AddNewGrows(st, t, addDelay);
    case Finish(i, now, o) =>
      var c, p := st.running[i], PassOf(st.running[i], now, o);
      var taken := st.(running := Remove(st.running, i));
      TakeTokenFromWorker(st, lost, i);
      RunningIsUnfinished(st, lost, i);
      PassSettlesIff(c, now, o, st.rows[c.id].status);
      PassKeepsClock(taken, lost, c, p);
    case _ =>
  }

  lemma PassKeepsClock(st: State, lost: set<nat>, c: Command, p: Pass)
    requires TrackedBut(st, lost, c.id) && Sensible(st.rows[c.id].status, p)
    ensures ApplyPass(st, c, p).clock == st.clock && ApplyPass(st, c, p).running == st.running
  {
    HandoverTracks(st, lost, c, p);
    var st1 := Handover(st, c, p);
    TrackedMeansFresh(st1, lost + LostBy(st, c, p));
    HandoverCounts(st, lost, c, p);
    HandoverKeepsWorkers(st, lost, c, p);
    hide LostBy, Tracked, Tokens, Handover, TrackedBut;
    AddChildrenGrows(st1, p.children, c.id);
    AddAllNewGrows(AddChildren(st1, p.children, c.id), p.lateChildren);
    hide AddChildren, AddAllNew;
  }

  lemma HandoverKeepsWorkers(st: State, lost: set<nat>, c: Command, p: Pass)
    requires TrackedBut(st, lost, c.id)
    ensures Handover(st, c, p).running == st.running
  {
    var st1 := WriteRow(st, c.id, p.status, p.retries);
    WriteRowBalance(st, lost, c, p);
    InsertAllGrows(st1, p.orphans, c.id);
    var st2 := InsertAll(st1, p.orphans, c.id);
    var again := c.(retries := p.retries.GetOr(c.retries));
    if p.readd.Some? {
      ParkAddsToken(st2, Shifted(again, p.readd.value), p.readd.value);
    }
    hide InsertAll, WriteRow, Tokens, TrackedBut, Park;
  }

  /** In any run of the executor, the calls of a command are those of one history of the command as it was inserted, or
      there are none, and the command has what its template says.  So it is never called before the delay or after the
      deadline of its template, and at most `retries + 1` times if it never repeats. */
  lemma CommandsHaveHistories(clock: int, steps: seq<Step>, id: nat) returns (c: Command, t: Template, born: int)
    requires CanRun(Empty(clock), steps) && Inserted(Empty(clock), steps, id).Some?
    ensures exists i :: 0 <= i < |steps| && Offers(steps[i], t)
    ensures var inserted, calls, visits := Inserted(Empty(clock), steps, id).value,
          CallsIn(Empty(clock), steps, id), VisitsIn(Empty(clock), steps, id);
      && clock <= born && FromTemplate(inserted, t, born)
      && c.id == id && Postponed(inserted, c) && (calls == [] || calls == CallTimes(c, visits))
      && (forall time :: time in calls ==>
            inserted.readyAt + t.delay.GetOr(0) <= time && (t.deadlineAt == 0 || time <= t.deadlineAt))
      && (NeverRepeats(visits) ==> |calls| <= Max(0, t.retries) + 1)
  {
    hide CanRun, Inserted, CallsIn, VisitsIn, CallTimes, Tracked, NeverRepeats, Offers;
    EmptyIsTracked(clock);
    c := HistoryOf(Empty(clock), {}, steps, id);
    t, born := InsertedFromTemplate(Empty(clock), {}, steps, id);
    var visits := VisitsIn(Empty(clock), steps, id);
    CallsAreOnTime(c, visits);
    if NeverRepeats(visits) {
      CallsAreBounded(c, visits);
    }
  }
}
