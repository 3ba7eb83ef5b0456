/** The command executor as an object, method by method, refining the passes of `CommandScheduler`.
    Exceptions of the handler are part of the reaction; a `try` body that throws returns `Threw`. */
module CommandExecutors {
  import opened CommandScheduler
  import opened Common
  import opened CommandLifetime

  datatype BodyResult = Threw | Repeated | Retried | Processed(children: seq<Command>)
  datatype RetryResult = RetryThrew | RetryScheduled | RetryFinished

  class CommandExecutor {
    var rows: map<nat, Row>
    var queue: seq<Command>
    var timers: seq<Timer>
    var running: seq<Command>
    var nextId: nat
    var clock: int

    ghost function View(): State
      reads this
    {
      State(rows, queue, timers, running, nextId, clock)
    }

    constructor (clock: int)
      ensures View() == Empty(clock)
    {
      rows, queue, timers, running, nextId := map[], [], [], [], 0;
      this.clock := clock;
    }

    method Update(id: nat, status: Option<Status>, retries: Option<int>)
      requires id in rows
      modifies this`rows
      ensures View() == WriteRow(old(View()), id, status, retries)
    {
      var row := rows[id];
      rows := rows[id := Row(status.GetOr(row.status), row.command.(retries := retries.GetOr(row.command.retries)))];
    }

    method Insert(t: Template, parentId: Option<nat>) returns (c: Command)
      modifies this`rows, this`nextId
      ensures View() == CommandScheduler.Insert(old(View()), t, parentId)
      ensures c == Born(t, old(nextId), clock, parentId)
    {
      var readyAt := clock;
      if t.readyAt.Some? && t.readyAt.value != 0 {
        readyAt := t.readyAt.value;
      }
      var delay := 0;
      if t.delay.Some? {
        delay := t.delay.value;
      }
      c := Command(nextId, t.name, readyAt, delay, t.deadlineAt, t.period, t.retries, t.transactional, parentId);
      rows := rows[nextId := Row(Pending, c)];
      nextId := nextId + 1;
    }

    /** Last lines of `add`: a timer, or straight into the queue. */
    method Enqueue(c: Command, delay: int)
      requires delay <= MAX_COMMAND_DELAY
      modifies this`queue, this`timers
      ensures View() == Park(old(View()), c, delay)
    {
      if delay != 0 {
        timers := timers + [Timer(clock + if delay < 1 then 1 else delay, c)];
      } else {
        queue := queue + [c];
      }
    }

    /** `add` without insertion. */
    method Add(addCommand: Command, addDelay: int)
      modifies this`queue, this`timers
      ensures View() == AddExisting(old(View()), addCommand, addDelay)
    {
      var command, delay := addCommand, addDelay;
      if delay > MAX_COMMAND_DELAY {
        command := command.(readyAt := command.readyAt + delay);
        delay := MAX_COMMAND_DELAY;
      }
      Enqueue(command, delay);
    }

    /** `add` with insertion. */
    method AddAndInsert(addCommand: Template, addDelay: int)
      modifies this`rows, this`nextId, this`queue, this`timers
      ensures View() == AddNew(old(View()), addCommand, addDelay)
    {
      var template, delay := addCommand, addDelay;
      if delay > MAX_COMMAND_DELAY {
        if template.readyAt.None? {
          template := template.(readyAt := Some(clock));
        }
        template := template.(readyAt := Some(template.readyAt.value + delay));
        delay := MAX_COMMAND_DELAY;
      }
      var command := Insert(template, None);
      Enqueue(command, delay);
    }

    method HandleRetry(c: Command, o: Reaction) returns (result: RetryResult)
      requires c.id in rows && o.run.AskRetry?
      modifies this`rows, this`queue, this`timers
      ensures result.RetryThrew? <==> RunFails(c, o)
      ensures result.RetryScheduled? <==> c.retries > 1 && !o.packThrows
      ensures View() == if result.RetryScheduled?
        then AddExisting(
          WriteRow(old(View()), c.id, Some(Pending), Some(c.retries - 1)), c.(retries := c.retries - 1), RetryDelay(c))
        else old(View())
    {
      if c.retries > 1 {
        if o.packThrows {
          return RetryThrew;
        }
        var command := c.(retries := c.retries - 1);
        Update(c.id, Some(Pending), Some(command.retries));
        var period := command.period.GetOr(0);
        Add(command, period + command.delay);
        return RetryScheduled;
      }
      if o.retryFinishedThrows {
        return RetryThrew;
      }
      return RetryFinished;
    }

    /** `_handleError`, and the repetition that `recover` may ask for. */
    method HandleError(
        c: Command, o: Reaction, ghost before: State, ghost status: Option<Status>, ghost orphans: seq<Template>)
      requires c.id in before.rows && c.id in rows
      requires View() == InsertAll(WriteRow(before, c.id, status, None), orphans, c.id)
      requires c.id < before.nextId
      modifies this`rows, this`queue, this`timers
      ensures View() == ApplyPass(before, c, ErrorPass(c, o, status, orphans))
    {
      var command := c;
      if command.retries > 0 {
        command := command.(retries := command.retries - 1);
        Update(command.id, None, Some(command.retries));
        WriteAfterInsertAll(before, c.id, status, None, None, Some(command.retries), orphans, c.id);
        var period := command.period.GetOr(0);
        Add(command, period + command.delay);
      } else {
        Update(command.id, Some(Failed), None);
        WriteAfterInsertAll(before, c.id, status, None, Some(Failed), None, orphans, c.id);
        if o.recover.RecoverRepeat? {
          Update(command.id, Some(Repeating), None);
          WriteAfterInsertAll(before, c.id, Some(Failed), None, Some(Repeating), None, orphans, c.id);
          if !o.recoverPackThrows {
            var period := command.period.GetOr(0);
            if period == 0 {
              period := DEFAULT_REPEAT_INTERVAL;
            }
            Add(command, period);
          }
        }
      }
    }

    /** All children are inserted at once; one that throws does not stop the others. */
    method InsertChildren(ts: seq<Template>, parentId: nat) returns (children: seq<Command>, threw: bool)
      modifies this`rows, this`nextId
      ensures View() == InsertAll(old(View()), Insertable(ts), parentId)
      ensures threw <==> !AllInsertable(ts)
      ensures !threw ==> children == BornAll(ts, old(nextId), clock, parentId)
      ensures forall id :: id in old(rows) ==> id in rows
    {
      ghost var start := View();
      children, threw := [], false;
      hide InsertAll, BornAll, Insertable, AllInsertable;
      NothingToInsert(start, ts, parentId);
      var i := 0;
      while i < |ts|
        invariant 0 <= i <= |ts|
        invariant InsertAll(View(), Insertable(ts[i..]), parentId) == InsertAll(start, Insertable(ts), parentId)
        invariant threw <==> !AllInsertable(ts[..i])
        invariant forall id :: id in start.rows ==> id in rows
        invariant !threw ==>
          children + BornAll(ts[i..], nextId, clock, parentId) == BornAll(ts, start.nextId, clock, parentId)
      {
        InsertOneMore(View(), ts, i, parentId);
        if ts[i].insertable {
          var child := Insert(ts[i], Some(parentId));
          ghost var rest := BornAll(ts[i + 1..], nextId, clock, parentId);
          assert children + ([child] + rest) == (children + [child]) + rest;
          children := children + [child];
        } else {
          threw := true;
        }
        i := i + 1;
      }
      NothingToInsert(View(), ts, parentId);
    }

    static lemma NothingToInsert(st: State, ts: seq<Template>, parentId: nat)
      ensures ts[0..] == ts && ts[..|ts|] == ts && AllInsertable(ts[..0])
      ensures InsertAll(st, Insertable(ts[|ts|..]), parentId) == st
      ensures BornAll(ts[|ts|..], st.nextId, st.clock, parentId) == []
    {
    }

    static lemma InsertOneMore(st: State, ts: seq<Template>, i: nat, parentId: nat)
      requires i < |ts|
      ensures AllInsertable(ts[..i + 1]) <==> AllInsertable(ts[..i]) && ts[i].insertable
      ensures InsertAll(st, Insertable(ts[i..]), parentId) == InsertAll(
        if ts[i].insertable then CommandScheduler.Insert(st, ts[i], Some(parentId)) else st,
        Insertable(ts[i + 1..]), parentId)
      ensures BornAll(ts[i..], st.nextId, st.clock, parentId) ==
        [Born(ts[i], st.nextId, st.clock, Some(parentId))] + BornAll(ts[i + 1..], st.nextId + 1, st.clock, parentId)
    {
      InsertableFrom(ts, i);
      assert ts[..i + 1] == ts[..i] + [ts[i]];
    }

    method Repeat(c: Command, o: Reaction)
      requires c.id in rows
      modifies this`rows, this`queue, this`timers
      ensures View() == if o.packThrows then WriteRow(old(View()), c.id, Some(Repeating), None)
        else AddExisting(WriteRow(old(View()), c.id, Some(Repeating), None), c, c.period.GetOr(DEFAULT_REPEAT_INTERVAL))
    {
      Update(c.id, Some(Repeating), None);
      if !o.packThrows {
        var period := c.period.GetOr(DEFAULT_REPEAT_INTERVAL);
        Add(c, period);
      }
    }

    /** The body that `_process` runs, inside a transaction if the command asks for one. */
    method Process(c: Command, o: Reaction) returns (result: BodyResult)
      requires c.id in rows && c.id < nextId
      modifies this`rows, this`nextId, this`queue, this`timers
      ensures result.Threw? <==> RunFails(c, o)
      ensures result.Threw? ==>
        View() == InsertAll(WriteRow(old(View()), c.id, KeptStatus(c, o), None), KeptOrphans(c, o), c.id)
      ensures result.Repeated? || result.Retried? ==>
        View() == ApplyPass(old(View()), c, RunPass(c, o))
      ensures result.Processed? ==>
        && RunPass(c, o) == CompletedPass(c, if o.run.Commands? then o.run.commands else [])
        && View() == InsertAll(WriteRow(old(View()), c.id, Some(Completed), None), RunPass(c, o).children, c.id)
        && result.children == BornAll(RunPass(c, o).children, old(nextId), clock, c.id)
      ensures c.id in rows && clock == old(clock)
    {
      ghost var start := View();
      var savedRows, savedId := rows, nextId;
      Update(c.id, Some(Started), None);
      WrittenTwice(start, c.id, Some(Started));
      hide Insertable, BornAll, AllInsertable, Park;
      var threw := false;
      var children := [];
      ghost var templates := [];
      match o.run {
        case RunThrows =>
          threw := true;
        case AskRepeat =>
          Repeat(c, o);
          if !o.packThrows {
            return Repeated;
          }
          threw := true;
        case AskRetry =>
          var retry := HandleRetry(c, o);
          if retry.RetryScheduled? {
            return Retried;
          }
          threw := retry.RetryThrew?;
        case Commands(ts) =>
          templates := ts;
          children, threw := InsertChildren(ts, c.id);
          if !threw {
            AllAreInsertable(ts);
          }
      }
      if threw {
        if c.transactional {
          rows, nextId := savedRows, savedId;
          assert View() == WriteRow(start, c.id, None, None);
        }
        return Threw;
      }
      Update(c.id, Some(Completed), None);
      WriteAfterInsertAll(start, c.id, Some(Started), None, Some(Completed), None, templates, c.id);
      return Processed(children);
    }

    /** The part of `_execute` after the resolution, deadline and due checks. */
    method RunHandler(c: Command, o: Reaction)
      requires c.id in rows && c.id < nextId
      modifies this`rows, this`nextId, this`queue, this`timers
      ensures View() == ApplyPass(old(View()), c, RunPass(c, o))
    {
      ghost var start := View();
      var processResult := Process(c, o);
      match processResult {
        case Processed(children) =>
          ghost var templates := RunPass(c, o).children;
          ghost var completed := WriteRow(start, c.id, Some(Completed), None);
          ghost var inserted := View();
          var i := 0;
          while i < |children|
            invariant 0 <= i <= |children|
            invariant EnqueueAll(View(), children[i..]) == EnqueueAll(inserted, children)
          {
            assert children[i..][1..] == children[i + 1..];
            Add(children[i], children[i].delay);
            i := i + 1;
          }
          EnqueueAfterInsert(completed, templates, c.id);
        case Threw =>
          HandleError(c, o, start, KeptStatus(c, o), KeptOrphans(c, o));
        case Repeated =>
        case Retried =>
      }
    }

    /** `now` is the clock reading at the start of the pass; handlers may take any time after it. */
    method Execute(i: nat, now: int, o: Reaction)
      requires i < |running| && now <= clock && running[i].id in rows && running[i].id < nextId
      modifies this
      ensures View() == Apply(old(View()), Finish(i, now, o))
    {
      var command := running[i];
      running := Remove(running, i);
      ghost var start := View();
      if !o.resolved {
        Update(command.id, Some(Unknown), None);
        return;
      }
      if command.deadlineAt != 0 && now > command.deadlineAt {
        Update(command.id, Some(Expired), None);
        if o.expired.ExpiredCommands? {
          AddExpiredCommands(o.expired.commands);
        }
        return;
      }
      var waitMs := command.readyAt + command.delay - now;
      if waitMs > 0 {
        assert start == WriteRow(start, command.id, None, None);
        Add(command, if waitMs < MAX_COMMAND_DELAY then waitMs else MAX_COMMAND_DELAY);
        return;
      }
      RunHandler(command, o);
    }

    /** Every command that can be inserted is added on its own; the others only fail. */
    method AddExpiredCommands(ts: seq<Template>)
      modifies this`rows, this`nextId, this`queue, this`timers
      ensures View() == AddAllNew(old(View()), Insertable(ts))
    {
      ghost var start := View();
      var i := 0;
      while i < |ts|
        invariant 0 <= i <= |ts|
        invariant AddAllNew(View(), Insertable(ts[i..])) == AddAllNew(start, Insertable(ts))
      {
        InsertableFrom(ts, i);
        if ts[i].insertable {
          AddAndInsert(ts[i], ts[i].delay.GetOr(0));
        }
        i := i + 1;
      }
    }

    /** Is the command with this id in the list of the workers? */
    predicate IsQueued(id: nat)
      reads this
    {
      exists i :: 0 <= i < |running| && running[i].id == id
    }

    /** Replays unfinished commands; `pendingCommands` is the result of the database query. */
    method ReplayOldCommands(pendingCommands: seq<nat>, permanent: set<string>)
      requires FindsUnfinished(View(), permanent, pendingCommands)
      modifies this`queue, this`timers
      ensures View() == Replay(old(View()), permanent, pendingCommands)
    {
      var commands := [];
      var i := 0;
      ghost var start := View();
      while i < |pendingCommands|
        invariant 0 <= i <= |pendingCommands|
        invariant View() == start
        invariant commands + ReplayedCommands(rows, permanent, pendingCommands[i..])
          == ReplayedCommands(rows, permanent, pendingCommands)
      {
        var id := pendingCommands[i];
        assert pendingCommands[i..][1..] == pendingCommands[i + 1..];
        assert id in pendingCommands;
        i := i + 1;
        var command := rows[id].command;
        if command.parentId.None? {
          continue;
        }
        if command.parentId.value in rows && !rows[command.parentId.value].status.Completed? {
          assert !Replayable(rows, permanent, id);
          continue;
        }
        assert Replayable(rows, permanent, id);
        commands := commands + [command];
      }
      assert commands + [] == commands;
      ReplayIsEnqueue(start, permanent, pendingCommands);
      AddUnlessQueued(commands);
    }

    /** Last loop of the replay. */
    method AddUnlessQueued(commands: seq<Command>)
      modifies this`queue, this`timers
      ensures View() == EnqueueNow(old(View()), commands)
    {
      ghost var start := View();
      var i := 0;
      while i < |commands|
        invariant 0 <= i <= |commands|
        invariant EnqueueNow(View(), commands[i..]) == EnqueueNow(start, commands)
      {
        assert commands[i..][1..] == commands[i + 1..];
        HasId(running, commands[i].id);
        if !IsQueued(commands[i].id) {
          Add(commands[i], 0);
        }
        i := i + 1;
      }
    }
  }

  // ----- The order of database writes and queue operations does not matter -----

  function BornAll(ts: seq<Template>, id: nat, now: int, parentId: nat): seq<Command>
    decreases |ts|
  {
    if ts == [] then [] else [Born(ts[0], id, now, Some(parentId))] + BornAll(ts[1..], id + 1, now, parentId)
  }

  function EnqueueAll(st: State, cs: seq<Command>): State
    decreases |cs|
  {
    if cs == [] then st else EnqueueAll(AddExisting(st, cs[0], cs[0].delay), cs[1..])
  }

  function EnqueueNow(st: State, cs: seq<Command>): State
    decreases |cs|
  {
    if cs == [] then st
    else EnqueueNow(if cs[0].id in Ids(st.running) then st else AddExisting(st, cs[0], 0), cs[1..])
  }

  lemma HasId(cs: seq<Command>, id: nat)
    ensures id in Ids(cs) <==> exists i :: 0 <= i < |cs| && cs[i].id == id
  {
    forall i | 0 <= i < |cs| && cs[i].id == id
      ensures id in Ids(cs)
    {
      assert Ids(cs)[i] == id;
    }
  }

  function ReplayedCommands(rows: map<nat, Row>, permanent: set<string>, found: seq<nat>): seq<Command>
    decreases |found|
  {
    if found == [] then []
    else (if Replayable(rows, permanent, found[0]) then [rows[found[0]].command] else []) +
         ReplayedCommands(rows, permanent, found[1..])
  }

  lemma {:induction false} ReplayIsEnqueue(st: State, permanent: set<string>, found: seq<nat>)
    ensures Replay(st, permanent, found) == EnqueueNow(st, ReplayedCommands(st.rows, permanent, found))
    decreases |found|
  {
    if found != [] {
      var next := if PickedUp(st, permanent, found[0]) then AddExisting(st, st.rows[found[0]].command, 0) else st;
      ReplayIsEnqueue(next, permanent, found[1..]);
      var rest := ReplayedCommands(st.rows, permanent, found[1..]);
      if Replayable(st.rows, permanent, found[0]) {
        assert ([st.rows[found[0]].command] + rest)[1..] == rest;
      } else {
        assert [] + rest == rest;
      }
    }
  }

  lemma InsertableFrom(ts: seq<Template>, i: nat)
    requires i < |ts|
    ensures ts[i..][1..] == ts[i + 1..]
    ensures Insertable(ts[i..]) ==
      if ts[i].insertable then [ts[i]] + Insertable(ts[i + 1..]) else Insertable(ts[i + 1..])
    ensures ts[i].insertable ==> Insertable(ts[i..])[1..] == Insertable(ts[i + 1..])
  {
    assert ts[i..][1..] == ts[i + 1..];
    assert [] + Insertable(ts[i + 1..]) == Insertable(ts[i + 1..]);
  }

  lemma {:induction false} InsertAllCommutes(st: State, c: Command, delay: int, ts: seq<Template>, parentId: nat)
    ensures InsertAll(AddExisting(st, c, delay), ts, parentId) == AddExisting(InsertAll(st, ts, parentId), c, delay)
    decreases |ts|
  {
    if ts != [] {
      InsertAllCommutes(CommandScheduler.Insert(st, ts[0], Some(parentId)), c, delay, ts[1..], parentId);
    }
  }

  lemma {:induction false} EnqueueAfterInsert(st: State, ts: seq<Template>, parentId: nat)
    ensures EnqueueAll(InsertAll(st, ts, parentId), BornAll(ts, st.nextId, st.clock, parentId))
      == AddChildren(st, ts, parentId)
    decreases |ts|
  {
    if ts != [] {
      var c := Born(ts[0], st.nextId, st.clock, Some(parentId));
      var inserted := CommandScheduler.Insert(st, ts[0], Some(parentId));
      InsertAllCommutes(inserted, c, c.delay, ts[1..], parentId);
      EnqueueAfterInsert(AddExisting(inserted, c, c.delay), ts[1..], parentId);
    }
  }

  lemma {:induction false} WriteRowCommutes(
      st: State, id: nat, status: Option<Status>, retries: Option<int>, ts: seq<Template>, parentId: nat)
    requires id in st.rows && id < st.nextId
    ensures id in InsertAll(st, ts, parentId).rows
    ensures WriteRow(InsertAll(st, ts, parentId), id, status, retries)
      == InsertAll(WriteRow(st, id, status, retries), ts, parentId)
    decreases |ts|
  {
    if ts != [] {
      var next := CommandScheduler.Insert(st, ts[0], Some(parentId));
      assert WriteRow(next, id, status, retries)
        == CommandScheduler.Insert(WriteRow(st, id, status, retries), ts[0], Some(parentId));
      assert id in next.rows && id < next.nextId;
      hide WriteRow, CommandScheduler.Insert;
      WriteRowCommutes(next, id, status, retries, ts[1..], parentId);
    }
  }

  lemma WrittenTwice(st: State, id: nat, s1: Option<Status>)
    requires id in st.rows
    ensures forall s2, r2 :: s2 != None ==>
      WriteRow(WriteRow(st, id, s1, None), id, s2, r2) == WriteRow(st, id, s2, r2)
  {
    forall s2, r2 | s2 != None
      ensures WriteRow(WriteRow(st, id, s1, None), id, s2, r2) == WriteRow(st, id, s2, r2)
    {
      assert WriteRow(WriteRow(st, id, s1, None), id, s2, r2).rows == WriteRow(st, id, s2, r2).rows;
    }
  }

  /** A row written before and after the insertion of other rows could have been written once. */
  lemma WriteAfterInsertAll(
      st: State, id: nat, s1: Option<Status>, r1: Option<int>, s2: Option<Status>, r2: Option<int>,
      ts: seq<Template>, parentId: nat)
    requires id in st.rows && id < st.nextId
    ensures id in InsertAll(WriteRow(st, id, s1, r1), ts, parentId).rows
    ensures WriteRow(InsertAll(WriteRow(st, id, s1, r1), ts, parentId), id, s2, r2)
      == InsertAll(WriteRow(st, id, if s2.Some? then s2 else s1, if r2.Some? then r2 else r1), ts, parentId)
  {
    var once := WriteRow(st, id, s1, r1);
    var status, retries := if s2.Some? then s2 else s1, if r2.Some? then r2 else r1;
    assert WriteRow(once, id, s2, r2) == WriteRow(st, id, status, retries) by {
      assert WriteRow(once, id, s2, r2).rows == WriteRow(st, id, status, retries).rows;
    }
    assert id in once.rows && id < once.nextId;
    hide WriteRow, InsertAll;
    WriteRowCommutes(once, id, s2, r2, ts, parentId);
  }
}
