/** The life of a single command over any sequence of passes, and what a restart of the node brings back. */
module CommandLifetime {
  import opened CommandScheduler
  import opened TokenConservation
  import opened Common

  /** One pass: the clock read at its start and the behaviour of the handler. */
  datatype Visit = Visit(now: int, o: Reaction)

  /** The command as it comes back after a pass that re-added it. */
  function After(c: Command, p: Pass): Command
    requires p.readd.Some?
  {
    Shifted(c.(retries := p.retries.GetOr(c.retries)), p.readd.value)
  }

  /** The clock readings of the passes in which the handler was executed. */
  function CallTimes(c: Command, visits: seq<Visit>): seq<int>
    decreases |visits|
  {
    if visits == [] then []
    else
      var p := PassOf(c, visits[0].now, visits[0].o);
      (if p.called then [visits[0].now] else []) +
      (if p.readd.Some? then CallTimes(After(c, p), visits[1..]) else [])
  }

  // ----- Handlers run on time -----

  /** Whatever happened before, no handler call is early or late with respect to the command as it was first added. */
  lemma {:induction false} CallsAreOnTime(c: Command, visits: seq<Visit>)
    ensures forall t :: t in CallTimes(c, visits) ==>
      c.readyAt + c.delay <= t && (c.deadlineAt == 0 || t <= c.deadlineAt)
    decreases |visits|
  {
    if visits != [] {
      var p := PassOf(c, visits[0].now, visits[0].o);
      if p.readd.Some? {
        CallsAreOnTime(After(c, p), visits[1..]);
      }
    }
  }

  /** A pass calls the handler exactly if there is one, the command is due and its deadline is not over. */
  lemma CalledIffDue(c: Command, now: int, o: Reaction)
    ensures PassOf(c, now, o).called <==>
      o.resolved && c.readyAt + c.delay <= now && (c.deadlineAt == 0 || now <= c.deadlineAt)
  {
  }

  /** The first visit after which the command does not come back, and the status it leaves. */
  datatype Ending = Ending(at: nat, status: Option<Status>)

  function EndOf(c: Command, visits: seq<Visit>): Option<Ending>
    decreases |visits|
  {
    if visits == [] then None
    else
      var p := PassOf(c, visits[0].now, visits[0].o);
      if p.readd.None? then Some(Ending(0, p.status))
      else
        var later := EndOf(After(c, p), visits[1..]);
        if later.None? then None else Some(Ending(later.value.at + 1, later.value.status))
  }

  /** After whatever retries, repetitions and deferrals: a command ends as unknown iff its handler is gone, as expired
      iff the deadline it was first added with is over, and in any other way only with a call of its handler, on time
      and as the last of all its calls.  That call completes the command iff all the children it returned could be
      inserted, or it was the last retry; it fails the command iff it threw, or could not insert a child, unless
      recovery asked for a repetition. */
  lemma {:induction false} EveryEndHasItsReason(c: Command, visits: seq<Visit>)
    requires EndOf(c, visits).Some?
    ensures var end := EndOf(c, visits).value;
      && end.at < |visits|
      && var v, calls := visits[end.at], CallTimes(c, visits);
        && end.status.Some?
        && (end.status == Some(Unknown) <==> !v.o.resolved)
        && (end.status == Some(Expired) <==> v.o.resolved && c.deadlineAt != 0 && c.deadlineAt < v.now)
        && (v.o.resolved && (c.deadlineAt == 0 || v.now <= c.deadlineAt) ==>
              && calls != [] && calls[|calls| - 1] == v.now && c.readyAt + c.delay <= v.now
              && (end.status == Some(Completed) <==> Succeeded(v.o))
              && (end.status == Some(Failed) <==> !Succeeded(v.o) && !v.o.recover.RecoverRepeat?)
              && (end.status == Some(Repeating) <==>
                    !Succeeded(v.o) && v.o.recover.RecoverRepeat? && v.o.recoverPackThrows))
    decreases |visits|
  {
    var p := PassOf(c, visits[0].now, visits[0].o);
    if p.readd.Some? {
      EveryEndHasItsReason(After(c, p), visits[1..]);
      var end := EndOf(After(c, p), visits[1..]).value;
      assert visits[1..][end.at] == visits[end.at + 1];
      assert c.deadlineAt == After(c, p).deadlineAt;
    }
  }

  /** How the last call of a handler can end well. */
  predicate Succeeded(o: Reaction) {
    || (o.run.Commands? && forall i :: 0 <= i < |o.run.commands| ==> o.run.commands[i].insertable)
    || (o.run.AskRetry? && !o.retryFinishedThrows)
  }

  // ----- Repetition -----

  predicate AlwaysRepeats(visits: seq<Visit>) {
    forall i :: 0 <= i < |visits| ==> visits[i].o.run.AskRepeat? && !visits[i].o.packThrows
  }

  /** Timers never fire early: a pass comes at least as late as the delay of the re-add before it, up to the maximum. */
  predicate Spaced(c: Command, visits: seq<Visit>)
    decreases |visits|
  {
    |visits| > 1 ==>
      var p := PassOf(c, visits[0].now, visits[0].o);
      p.readd.Some? ==>
        && visits[0].now + Min(p.readd.value, MAX_COMMAND_DELAY) <= visits[1].now
        && Spaced(After(c, p), visits[1..])
  }

  lemma {:induction false} FirstCallNotBefore(c: Command, visits: seq<Visit>)
    requires Spaced(c, visits) && visits != []
    ensures CallTimes(c, visits) != [] ==> CallTimes(c, visits)[0] >= visits[0].now
    decreases |visits|
  {
    var p := PassOf(c, visits[0].now, visits[0].o);
    if !p.called && p.readd.Some? && |visits| > 1 {
      FirstCallNotBefore(After(c, p), visits[1..]);
    }
  }

  /** Successive times are at least `gap` apart. */
  predicate Apart(times: seq<int>, gap: int) {
    forall i :: 0 <= i < |times| - 1 ==> times[i] + gap <= times[i + 1]
  }

  lemma ApartAfter(c: Command, visits: seq<Visit>, gap: int)
    requires Spaced(c, visits) && |visits| > 1
    requires var p := PassOf(c, visits[0].now, visits[0].o);
      p.readd.Some? ==>
        && Apart(CallTimes(After(c, p), visits[1..]), gap)
        && (p.called ==> gap <= Min(p.readd.value, MAX_COMMAND_DELAY))
    ensures Apart(CallTimes(c, visits), gap)
  {
    var p := PassOf(c, visits[0].now, visits[0].o);
    if p.readd.Some? {
      FirstCallNotBefore(After(c, p), visits[1..]);
      var times, rest := CallTimes(c, visits), CallTimes(After(c, p), visits[1..]);
      if p.called {
        assert times == [visits[0].now] + rest;
      } else {
        assert times == [] + rest;
      }
    }
  }

  /** The calls of a repeating command are at least its period apart, or five seconds if it has none, up to the longest
      timer. */
  lemma {:induction false} RepetitionsArePeriodic(c: Command, visits: seq<Visit>)
    requires AlwaysRepeats(visits) && Spaced(c, visits)
    ensures Apart(CallTimes(c, visits), Min(if c.period.None? then 5_000 else c.period.value, 864_000_000))
    decreases |visits|
  {
    if |visits| > 1 {
      var p := PassOf(c, visits[0].now, visits[0].o);
      if p.readd.Some? {
        RepetitionsArePeriodic(After(c, p), visits[1..]);
      }
      ApartAfter(c, visits, Min(if c.period.None? then 5_000 else c.period.value, 864_000_000));
    }
  }

  /** Under any mix of retries and errors the calls are at least period and delay apart, up to the longest timer. */
  lemma {:induction false} RetriesAreSpaced(c: Command, visits: seq<Visit>)
    requires NeverRepeats(visits) && Spaced(c, visits)
    ensures Apart(CallTimes(c, visits), Min((if c.period.None? then 0 else c.period.value) + c.delay, 864_000_000))
    decreases |visits|
  {
    if |visits| > 1 {
      var p := PassOf(c, visits[0].now, visits[0].o);
      if p.readd.Some? {
        RetriesAreSpaced(After(c, p), visits[1..]);
      }
      ApartAfter(c, visits, Min((if c.period.None? then 0 else c.period.value) + c.delay, 864_000_000));
    }
  }

  predicate AlwaysRecovers(visits: seq<Visit>) {
    forall i :: 0 <= i < |visits| ==>
      visits[i].o.run.RunThrows? && visits[i].o.recover.RecoverRepeat? && !visits[i].o.recoverPackThrows
  }

  /** A command without retries that always throws, and whose recovery repeats it, is called a period apart, or five
      seconds if it has none or a period of zero. */
  lemma {:induction false} RecoveriesArePeriodic(c: Command, visits: seq<Visit>)
    requires AlwaysRecovers(visits) && Spaced(c, visits) && c.retries <= 0
    ensures Apart(CallTimes(c, visits),
      Min(if c.period.None? || c.period.value == 0 then 5_000 else c.period.value, 864_000_000))
    decreases |visits|
  {
    if |visits| > 1 {
      var p := PassOf(c, visits[0].now, visits[0].o);
      if p.readd.Some? {
        RecoveriesArePeriodic(After(c, p), visits[1..]);
      }
      ApartAfter(c, visits, Min(if c.period.None? || c.period.value == 0 then 5_000 else c.period.value, 864_000_000));
    }
  }

  // ----- Where a command is put -----

  /** The command is added behind the queue, or set on a timer of at least one millisecond and at most ten days. */
  predicate PutInto(st: State, st': State, c: Command, delay: int) {
    if delay == 0 then st'.queue == st.queue + [c] && st'.timers == st.timers
    else
      && st'.queue == st.queue
      && st'.timers == st.timers + [Timer(
           st.clock + if delay < 1 then 1 else if delay > 864_000_000 then 864_000_000 else delay, c)]
  }

  lemma {:induction false} InsertAllKeepsQueues(st: State, ts: seq<Template>, parentId: nat)
    ensures var st' := InsertAll(st, ts, parentId);
      st'.queue == st.queue && st'.timers == st.timers && st'.clock == st.clock
    decreases |ts|
  {
    if ts != [] {
      InsertAllKeepsQueues(Insert(st, ts[0], Some(parentId)), ts[1..], parentId);
    }
  }

  /** Is this pass counted against the retries? */
  predicate Retried(c: Command, o: Reaction) {
    c.retries > 0 && !(o.run.AskRepeat? && !o.packThrows)
  }

  /** After a retry or an error a command waits for period and delay, after a repetition for the period. */
  lemma HowLongToWait(c: Command, now: int, o: Reaction)
    requires PassOf(c, now, o).called && PassOf(c, now, o).readd.Some?
    ensures var p := PassOf(c, now, o);
      && p.children == [] && p.lateChildren == []
      && p.retries == (if Retried(c, o) then Some(c.retries - 1) else None)
      && p.readd.value ==
        if Retried(c, o) then (if c.period.None? then 0 else c.period.value) + c.delay
        else if o.run.AskRepeat? && !o.packThrows then (if c.period.None? then 5_000 else c.period.value)
        else if c.period.None? || c.period.value == 0 then 5_000 else c.period.value
  {
  }

  lemma ParkPuts(st: State, c: Command, delay: int)
    ensures var ready := if delay > 864_000_000 then c.readyAt + delay else c.readyAt;
      PutInto(st, AddExisting(st, c, delay), c.(readyAt := ready), delay)
  {
  }

  lemma HandedBack(st: State, c: Command, p: Pass)
    requires c.id in st.rows && p.children == [] && p.lateChildren == [] && p.readd.Some?
    ensures var left, wait := p.retries.GetOr(c.retries), p.readd.value;
      PutInto(st, ApplyPass(st, c, p),
              c.(retries := left, readyAt := if wait > 864_000_000 then c.readyAt + wait else c.readyAt), wait)
  {
    var st1 := WriteRow(st, c.id, p.status, p.retries);
    InsertAllKeepsQueues(st1, p.orphans, c.id);
    var st2 := InsertAll(st1, p.orphans, c.id);
    assert st2.queue == st.queue && st2.timers == st.timers && st2.clock == st.clock;
    var again := c.(retries := p.retries.GetOr(c.retries));
    assert ApplyPass(st, c, p) == AddExisting(st2, again, p.readd.value);
    hide ApplyPass, InsertAll, WriteRow;
    ParkPuts(st2, again, p.readd.value);
    hide AddExisting;
  }

  lemma RowAfter(st: State, lost: set<nat>, c: Command, p: Pass)
    requires TrackedBut(st, lost, c.id) && p.children == [] && p.lateChildren == []
    ensures var st' := ApplyPass(st, c, p);
      c.id in st'.rows && st'.rows[c.id] == Row(
        p.status.GetOr(st.rows[c.id].status),
        st.rows[c.id].command.(retries := p.retries.GetOr(st.rows[c.id].command.retries)))
  {
    var st1 := WriteRow(st, c.id, p.status, p.retries);
    WriteRowBalance(st, lost, c, p);
    InsertAllGrows(st1, p.orphans, c.id);
    PassRows(st, c, p);
    hide InsertAll, Tokens, TrackedBut, ApplyPass;
  }

  /** A pass that called the handler and gives its command back puts it into the queue or on a timer, with a retry less
      if it was one; its row keeps the number of retries that are left. */
  lemma CommandsComeBack(st: State, lost: set<nat>, c: Command, now: int, o: Reaction)
    requires TrackedBut(st, lost, c.id) && PassOf(c, now, o).called && PassOf(c, now, o).readd.Some?
    ensures var st', wait := ApplyPass(st, c, PassOf(c, now, o)), PassOf(c, now, o).readd.value;
      var left := if Retried(c, o) then c.retries - 1 else c.retries;
      var ready := if wait > 864_000_000 then c.readyAt + wait else c.readyAt;
      && PutInto(st, st', c.(retries := left, readyAt := ready), wait)
      && c.id in st'.rows && st'.rows[c.id].command == st.rows[c.id].command.(
           retries := if Retried(c, o) then c.retries - 1 else st.rows[c.id].command.retries)
  {
    HowLongToWait(c, now, o);
    hide PassOf, ApplyPass, PutInto;
    HandedBack(st, c, PassOf(c, now, o));
    RowAfter(st, lost, c, PassOf(c, now, o));
  }

  /** The status of a row whose command came back tells why it waits: PENDING after a requested retry, REPEATING after a
      repetition, and after an error what the failed attempt had written, unless a transaction took it back. */
  lemma WaitingRowsTellWhy(st: State, lost: set<nat>, c: Command, now: int, o: Reaction)
    requires TrackedBut(st, lost, c.id) && PassOf(c, now, o).readd.Some?
    ensures var st', called := ApplyPass(st, c, PassOf(c, now, o)), PassOf(c, now, o).called;
      && c.id in st'.rows
      && st'.rows[c.id].status ==
        if !called then st.rows[c.id].status
        else if o.run.AskRepeat? && !o.packThrows then Repeating
        else if o.run.AskRetry? && !o.packThrows && c.retries > 1 then Pending
        else if c.retries <= 0 then Repeating
        else if c.transactional then st.rows[c.id].status
        else if o.run.AskRepeat? then Repeating
        else Started
  {
    var p := PassOf(c, now, o);
    assert p.children == [] && p.lateChildren == [];
    RowAfter(st, lost, c, p);
    hide ApplyPass, TrackedBut;
  }

  // ----- Retries bound the number of calls -----

  predicate NeverRepeats(visits: seq<Visit>) {
    forall i :: 0 <= i < |visits| ==> !visits[i].o.run.AskRepeat? && !visits[i].o.recover.RecoverRepeat?
  }

  /** Under any mix of retries, errors and deferrals the handler is called at most `retries + 1` times. */
  lemma {:induction false} CallsAreBounded(c: Command, visits: seq<Visit>)
    requires NeverRepeats(visits)
    ensures |CallTimes(c, visits)| <= Max(0, c.retries) + 1
    decreases |visits|
  {
    if visits != [] {
      var p := PassOf(c, visits[0].now, visits[0].o);
      if p.readd.Some? {
        CallsAreBounded(After(c, p), visits[1..]);
        assert p.called ==> c.retries >= 1 && p.retries == Some(c.retries - 1);
      }
    }
  }

  /** Every pass is in time, so that it reaches the handler. */
  predicate AllRun(c: Command, visits: seq<Visit>)
    decreases |visits|
  {
    visits != [] ==>
      var p := PassOf(c, visits[0].now, visits[0].o);
      Runs(c, visits[0].now, visits[0].o) && (p.readd.Some? ==> AllRun(After(c, p), visits[1..]))
  }

  predicate AlwaysRetries(visits: seq<Visit>) {
    forall i :: 0 <= i < |visits| ==>
      visits[i].o.run.AskRetry? && !visits[i].o.packThrows && !visits[i].o.retryFinishedThrows
  }

  predicate AlwaysThrows(visits: seq<Visit>) {
    forall i :: 0 <= i < |visits| ==> visits[i].o.run.RunThrows? && !visits[i].o.recover.RecoverRepeat?
  }

  /** A handler that always asks for a retry is called exactly `max(1, retries)` times. */
  lemma {:induction false} RetryingCalls(c: Command, visits: seq<Visit>)
    requires AllRun(c, visits) && AlwaysRetries(visits) && |visits| >= Max(1, c.retries)
    ensures |CallTimes(c, visits)| == Max(1, c.retries)
    decreases |visits|
  {
    var p := PassOf(c, visits[0].now, visits[0].o);
    if c.retries > 1 {
      RetryingCalls(After(c, p), visits[1..]);
    }
  }

  /** A handler that always throws is called exactly `retries + 1` times. */
  lemma {:induction false} ThrowingCalls(c: Command, visits: seq<Visit>)
    requires AllRun(c, visits) && AlwaysThrows(visits) && |visits| >= Max(0, c.retries) + 1
    ensures |CallTimes(c, visits)| == Max(0, c.retries) + 1
    decreases |visits|
  {
    var p := PassOf(c, visits[0].now, visits[0].o);
    if c.retries > 0 {
      ThrowingCalls(After(c, p), visits[1..]);
    }
  }

  // ----- Deferrals -----

  function CeilDiv(a: nat, b: nat): nat
    requires b >= 1
  {
    (a + b - 1) / b
  }

  /** `nows` are the clocks of consecutive passes that found the command not yet due; timers never fire early. */
  predicate Deferrals(c: Command, nows: seq<int>) {
    && (forall i :: 0 <= i < |nows| ==> c.readyAt + c.delay > nows[i])
    && (forall i :: 0 <= i < |nows| - 1 ==>
          nows[i] + Min(c.readyAt + c.delay - nows[i], MAX_COMMAND_DELAY) <= nows[i + 1])
  }

  /** A pass before the due time parks the unchanged command on a timer that covers the wait up to the maximum. */
  lemma DeferralParks(st: State, c: Command, now: int, o: Reaction)
    requires c.id in st.rows && now <= st.clock && o.resolved && c.readyAt + c.delay > now
    requires c.deadlineAt == 0 || now <= c.deadlineAt
    ensures var st' := ApplyPass(st, c, PassOf(c, now, o));
      && st'.timers == st.timers + [Timer(st.clock + Min(c.readyAt + c.delay - now, 864_000_000), c)]
      && st'.queue == st.queue
      && st'.rows[c.id].status == st.rows[c.id].status
  {
  }

  /** The number of deferrals never exceeds the wait divided by the longest timer, rounded up. */
  lemma {:induction false} DeferralsAreBounded(c: Command, nows: seq<int>)
    requires Deferrals(c, nows) && nows != []
    ensures |nows| <= CeilDiv(c.readyAt + c.delay - nows[0], MAX_COMMAND_DELAY)
    decreases |nows|
  {
    var wait := c.readyAt + c.delay - nows[0];
    assert wait > 0;
    if |nows| > 1 {
      assert nows[0] + Min(wait, MAX_COMMAND_DELAY) <= nows[0 + 1];
      var left := c.readyAt + c.delay - nows[1];
      assert nows[1..][0] == nows[1] && left > 0 && left <= wait - MAX_COMMAND_DELAY;
      DeferralsTail(c, nows);
      DeferralsAreBounded(c, nows[1..]);
      OneLess(left, wait);
    } else {
      OneLess(wait - MAX_COMMAND_DELAY, wait);
    }
  }

  lemma DeferralsTail(c: Command, nows: seq<int>)
    requires Deferrals(c, nows) && nows != []
    ensures Deferrals(c, nows[1..])
  {
    assert forall i :: 0 <= i < |nows| - 1 ==> nows[1..][i] == nows[i + 1];
  }

  lemma OneLess(left: int, wait: nat)
    requires left <= wait - MAX_COMMAND_DELAY && wait > 0
    ensures CeilDiv(wait, MAX_COMMAND_DELAY) >= 1
    ensures left > 0 ==> CeilDiv(left, MAX_COMMAND_DELAY) + 1 <= CeilDiv(wait, MAX_COMMAND_DELAY)
  {
  }

  // ----- Long delays -----

  /** The command that a new template becomes when it is added, without or with a parent. */
  function Parked(st: State, st': State, delay: int): Option<Command> {
    if delay == 0 && |st'.queue| == |st.queue| + 1 then Some(st'.queue[|st.queue|])
    else if delay != 0 && |st'.timers| == |st.timers| + 1 then Some(st'.timers[|st.timers|].command)
    else None
  }

  /** A new command, added with its own delay or as a child, falls due after that delay exactly if the delay is within
      the longest timer; a longer delay is counted twice, once in `readyAt` and once in `delay`. */
  lemma LongDelayCountsTwice(st: State, t: Template, delay: nat, parentId: nat)
    requires st.clock > 0 && t.readyAt.None? && t.delay == Some(delay)
    ensures forall st' :: st' == AddNew(st, t, delay) || st' == AddChild(st, t, parentId) ==>
      var c := Parked(st, st', delay);
      && c.Some? && PutInto(st, st', c.value, delay)
      && c.value.readyAt + c.value.delay == st.clock + (if delay > 864_000_000 then 2 * delay else delay)
      && (c.value.readyAt + c.value.delay == st.clock + delay <==> delay <= 864_000_000)
  {
  }

  // ----- Restart -----

  /** Everything in memory is lost; the rows stay. */
  function Crash(st: State): State {
    st.(queue := [], timers := [], running := [])
  }

  /** Is the row picked up again?  It must have a parent, and the parent must be gone or completed. */
  predicate Replayable(rows: map<nat, Row>, permanent: set<string>, id: nat) {
    && id in rows && !rows[id].status.Terminal() && rows[id].command.name !in permanent
    && rows[id].command.parentId.Some?
    && var parent := rows[id].command.parentId.value;
       parent in rows ==> rows[parent].status.Completed?
  }

  /** Is the command picked up by a replay?  Commands that a worker holds are left alone. */
  predicate PickedUp(st: State, permanent: set<string>, id: nat) {
    Replayable(st.rows, permanent, id) && st.rows[id].command.id !in Ids(st.running)
  }

  /** Adds the replayable rows among `found`, in that order. */
  function Replay(st: State, permanent: set<string>, found: seq<nat>): State
    decreases |found|
  {
    if found == [] then st
    else
      var id := found[0];
      var next := if PickedUp(st, permanent, id) then AddExisting(st, st.rows[id].command, 0) else st;
      Replay(next, permanent, found[1..])
  }

  /** `found` is the result of the query for unfinished commands with no permanent name. */
  ghost predicate FindsUnfinished(st: State, permanent: set<string>, found: seq<nat>) {
    && (forall i, j :: 0 <= i < j < |found| ==> found[i] != found[j])
    && (forall id :: id in found <==> Unfinished(st, id) && st.rows[id].command.name !in permanent)
  }

  lemma {:induction false} ReplayTokens(st: State, permanent: set<string>, found: seq<nat>, id: nat)
    requires forall id :: id in st.rows ==> st.rows[id].command.id == id
    requires forall i, j :: 0 <= i < j < |found| ==> found[i] != found[j]
    ensures Replay(st, permanent, found).rows == st.rows
    ensures Tokens(Replay(st, permanent, found))[id]
      == Tokens(st)[id] + if id in found && PickedUp(st, permanent, id) then 1 else 0
    decreases |found|
  {
    if found != [] {
      var first := found[0];
      var rest := found[1..];
      assert id in found <==> id == first || id in rest;
      var next := if PickedUp(st, permanent, first) then AddExisting(st, st.rows[first].command, 0) else st;
      if PickedUp(st, permanent, first) {
        ParkAddsToken(st, st.rows[first].command, 0);
      }
      hide Tokens;
      ReplayTokens(next, permanent, rest, id);
    }
  }

  /** After a crash and a replay no command is there twice, and an unfinished row is executed again exactly if it is
      replayable: rows of root commands, and of children whose parent had not completed, stay unfinished for ever. */
  lemma ReplayRestoresIff(st: State, permanent: set<string>, found: seq<nat>)
    requires forall id :: id in st.rows ==> st.rows[id].command.id == id
    requires FindsUnfinished(st, permanent, found)
    ensures var st' := Replay(Crash(st), permanent, found);
      && st'.rows == st.rows
      && (forall id: nat :: Tokens(st')[id] == if Replayable(st.rows, permanent, id) then 1 else 0)
      && (forall id: nat :: Balanced(st', {}, id) <==> (Unfinished(st, id) ==> Replayable(st.rows, permanent, id)))
    ensures forall id :: Replayable(st.rows, permanent, id) <==>
      && id in st.rows && st.rows[id].status in {Pending, Started, Repeating} && st.rows[id].command.name !in permanent
      && var parent := st.rows[id].command.parentId;
         parent.Some? && (parent.value in st.rows ==> st.rows[parent.value].status == Completed)
  {
    var st' := Replay(Crash(st), permanent, found);
    assert Tokens(Crash(st)) == multiset{};
    assert st'.rows == st.rows by {
      ReplayTokens(Crash(st), permanent, found, 0);
    }
    forall id: nat
      ensures Tokens(st')[id] == if Replayable(st.rows, permanent, id) then 1 else 0
      ensures Balanced(st', {}, id) <==> (Unfinished(st, id) ==> Replayable(st.rows, permanent, id))
    {
      ReplayTokens(Crash(st), permanent, found, id);
    }
  }

  /** A replay puts the commands of the rows it picks up into the queue at once, as the rows have them. */
  lemma {:induction false} ReplayQueues(st: State, permanent: set<string>, found: seq<nat>)
    ensures var st' := Replay(st, permanent, found);
      && st'.timers == st.timers && st'.running == st.running && st'.rows == st.rows
      && forall x :: x in st'.queue <==>
           x in st.queue || exists id :: id in found && PickedUp(st, permanent, id) && x == st.rows[id].command
    decreases |found|
  {
    if found != [] {
      var first, rest := found[0], found[1..];
      var next := if PickedUp(st, permanent, first) then AddExisting(st, st.rows[first].command, 0) else st;
      assert next.rows == st.rows && next.running == st.running && next.timers == st.timers;
      assert next.queue == st.queue + if PickedUp(st, permanent, first) then [st.rows[first].command] else [];
      assert forall id :: PickedUp(next, permanent, id) <==> PickedUp(st, permanent, id);
      assert forall id :: id in found <==> id == first || id in rest;
      hide PickedUp;
      ReplayQueues(next, permanent, rest);
    }
  }

  // ----- Children -----

  lemma GrownKeepsRow(st: State, st': State, n: nat, held: nat, id: nat)
    requires Grown(st, st', n, held) && id < st.nextId && id in st.rows
    ensures id in st'.rows && st'.rows[id] == st.rows[id] && FreshIds(st')
  {
    hide Tokens;
  }

  lemma AddChildrenUnrolled(st: State, ts: seq<Template>, parentId: nat)
    requires ts != []
    ensures AddChildren(st, ts, parentId) == AddChildren(AddChild(st, ts[0], parentId), ts[1..], parentId)
  {
  }

  lemma InsertAllUnrolled(st: State, ts: seq<Template>, parentId: nat)
    requires ts != []
    ensures InsertAll(st, ts, parentId) == InsertAll(Insert(st, ts[0], Some(parentId)), ts[1..], parentId)
  {
  }

  lemma {:induction false} ChildRows(st: State, ts: seq<Template>, parentId: nat, k: nat)
    requires FreshIds(st) && k < |ts|
    ensures st.nextId + k in AddChildren(st, ts, parentId).rows
    ensures AddChildren(st, ts, parentId).rows[st.nextId + k]
      == Row(Pending, Born(ts[k], st.nextId + k, st.clock, Some(parentId)))
    decreases |ts|
  {
    hide Tokens, Born, AddChildren;
    var next := AddChild(st, ts[0], parentId);
    assert next.rows == Insert(st, ts[0], Some(parentId)).rows;
    assert next.nextId == st.nextId + 1 && next.clock == st.clock;
    hide Park, AddChild;
    AddChildGrows(st, ts[0], parentId);
    assert FreshIds(next);
    AddChildrenUnrolled(st, ts, parentId);
    hide Grown, FreshIds;
    AddChildrenGrows(next, ts[1..], parentId);
    GrownKeepsRow(next, AddChildren(next, ts[1..], parentId), |ts[1..]|, 1, st.nextId);
    if k > 0 {
      ChildRows(next, ts[1..], parentId, k - 1);
    }
  }

  lemma {:induction false} OrphanRows(st: State, ts: seq<Template>, parentId: nat, k: nat)
    requires FreshIds(st) && k < |ts|
    ensures st.nextId + k in InsertAll(st, ts, parentId).rows
    ensures InsertAll(st, ts, parentId).rows[st.nextId + k]
      == Row(Pending, Born(ts[k], st.nextId + k, st.clock, Some(parentId)))
    decreases |ts|
  {
    hide Tokens, Born, InsertAll;
    var next := Insert(st, ts[0], Some(parentId));
    SameTokens(st, next);
    assert FreshIds(next);
    InsertAllUnrolled(st, ts, parentId);
    hide Grown, FreshIds;
    InsertAllGrows(next, ts[1..], parentId);
    GrownKeepsRow(next, InsertAll(next, ts[1..], parentId), |ts[1..]|, 0, st.nextId);
    if k > 0 {
      OrphanRows(next, ts[1..], parentId, k - 1);
    }
  }

  lemma ReplayableChild(rows: map<nat, Row>, permanent: set<string>, id: nat, t: Template, now: int, parentId: nat)
    requires id in rows && rows[id] == Row(Pending, Born(t, id, now, Some(parentId))) && parentId in rows
    ensures Replayable(rows, permanent, id) <==> t.name !in permanent && rows[parentId].status == Completed
  {
  }

  /** Completing a command makes all its children replayable, except those with a permanent name: no crash loses
      them. */
  lemma ChildrenSurviveCrash(
      st: State, lost: set<nat>, c: Command, now: int, o: Reaction, permanent: set<string>, k: nat)
    requires TrackedBut(st, lost, c.id) && now <= st.clock && Runs(c, now, o) && !RunFails(c, o)
    requires o.run.Commands? && k < |o.run.commands|
    ensures var st' := ApplyPass(st, c, PassOf(c, now, o));
      && c.id in st'.rows && st'.rows[c.id].status == Completed
      && (Replayable(st'.rows, permanent, st.nextId + k) <==> o.run.commands[k].name !in permanent)
  {
    hide Tokens, Replayable, Born;
    var p := CompletedPass(c, o.run.commands);
    assert PassOf(c, now, o) == p;
    hide PassOf;
    var st1 := WriteRow(st, c.id, Some(Completed), None);
    WriteRowBalance(st, lost, c, p);
    assert c.id in st1.rows && st1.rows[c.id].status == Completed;
    var st2 := AddChildren(st1, p.children, c.id);
    assert ApplyPass(st, c, p) == st2;
    hide TrackedBut, ApplyPass, WriteRow, AddChildren, Grown, FreshIds, Balanced, Unfinished;
    ChildRows(st1, p.children, c.id, k);
    AddChildrenGrows(st1, p.children, c.id);
    GrownKeepsRow(st1, st2, |p.children|, 1, c.id);
    ReplayableChild(st2.rows, permanent, st.nextId + k, o.run.commands[k], st.clock, c.id);
  }

  lemma PassRows(st: State, c: Command, p: Pass)
    requires c.id in st.rows && p.children == [] && p.lateChildren == []
    ensures ApplyPass(st, c, p).rows == InsertAll(WriteRow(st, c.id, p.status, p.retries), p.orphans, c.id).rows
  {
  }

  /** Children that were inserted by a failed pass are not replayed as long as their parent has not completed. */
  lemma OrphansWaitForParent(st: State, lost: set<nat>, c: Command, p: Pass, permanent: set<string>, k: nat)
    requires TrackedBut(st, lost, c.id) && k < |p.orphans| && p.children == [] && p.lateChildren == []
    ensures var st' := ApplyPass(st, c, p);
      && c.id in st'.rows
      && (Replayable(st'.rows, permanent, st.nextId + k) <==>
            p.orphans[k].name !in permanent && st'.rows[c.id].status == Completed)
  {
    hide Tokens, Replayable, Born;
    PassRows(st, c, p);
    hide ApplyPass, InsertAll;
    var st1 := WriteRow(st, c.id, p.status, p.retries);
    WriteRowBalance(st, lost, c, p);
    assert c.id in st1.rows;
    var st2 := InsertAll(st1, p.orphans, c.id);
    hide TrackedBut, WriteRow, Grown, FreshIds, Balanced, Unfinished;
    OrphanRows(st1, p.orphans, c.id, k);
    InsertAllGrows(st1, p.orphans, c.id);
    GrownKeepsRow(st1, st2, |p.orphans|, 0, c.id);
    ReplayableChild(st2.rows, permanent, st.nextId + k, p.orphans[k], st.clock, c.id);
  }
}
