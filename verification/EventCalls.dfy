/** Successive calls of the event listener over a table of events, each of which reads exactly the unprocessed rows. */
module EventCalls {
  import opened EventBatching

  /** What persists between calls; `batches` is everything handed out so far. */
  datatype Listener = Listener(batches: seq<Batch>, buffer: Buffer, processed: set<nat>)

  /** One call: the rows of the table, those it read, the batches it handed out, and the handler calls for each. */
  datatype Call = Call(
    rows: seq<Event>, read: seq<Event>, succeeds: (Name, seq<Item>) -> bool, dispatched: seq<Batch>,
    handled: seq<seq<HandlerCall>>)

  /** The query for unprocessed rows returns each of them once. */
  ghost predicate ReadsUnprocessed(k: Call, processed: set<nat>) {
    && (forall e :: e in k.read <==> e in k.rows && e.id !in processed)
    && (forall i, j :: 0 <= i < j < |k.read| ==> k.read[i] != k.read[j])
  }

  /** What a call does to the listener. */
  ghost predicate CallOf(g: Grouping, s: Listener, k: Call, s': Listener) {
    && Conserved(g, s'.batches, s'.buffer, s.batches, s.buffer, k.read)
    && s'.batches == s.batches + k.dispatched
    && (forall b :: b in k.dispatched ==> ProperBatch(g, b)) && CallsFor(k.dispatched, k.handled)
    && s'.processed == s.processed + GroupedIds(g, k.read) + MarkedIn(k.dispatched, k.succeeds)
  }

  /** Ids are primary keys: no two rows of the table share one, in whichever calls they are seen. */
  ghost predicate UniqueIds(calls: seq<Call>) {
    forall i, j, e, f :: 0 <= i < |calls| && 0 <= j < |calls| && e in calls[i].rows && f in calls[j].rows ==>
      e.id == f.id ==> e == f
  }

  ghost predicate IsRun(g: Grouping, states: seq<Listener>, calls: seq<Call>) {
    && |states| == |calls| + 1 && UniqueIds(calls) && g.Valid([])
    && states[0] == Listener([], map[], {})
    && forall i :: 0 <= i < |calls| ==>
         && g.Valid(calls[i].read) && ReadsUnprocessed(calls[i], states[i].processed)
         && CallOf(g, states[i], calls[i], states[i + 1])
  }

  /** The handler of the event's name is called with the event, and succeeds. */
  ghost predicate SucceededIn(k: Call, e: Event) {
    exists h :: h in AllCalls(k.handled) && h.name == e.name && Single(e) in h.items && k.succeeds(h.name, h.items)
  }

  lemma {:induction false} CalledWithBatch(batches: seq<Batch>, calls: seq<seq<HandlerCall>>, h: HandlerCall)
    requires CallsFor(batches, calls)
    ensures h in AllCalls(calls) <==> exists b :: b in batches && h.name in b && b[h.name] == h.items
    decreases |batches|
  {
    if batches != [] {
      var k := |batches| - 1;
      CalledWithBatch(batches[..k], calls[..k], h);
      assert batches == batches[..k] + [batches[k]];
      assert h in calls[k] <==> h.name in batches[k] && batches[k][h.name] == h.items;
    }
  }

  lemma SucceededInBatch(k: Call, e: Event)
    requires CallsFor(k.dispatched, k.handled)
    ensures SucceededIn(k, e) <==>
      exists b :: b in k.dispatched && e.name in b && Single(e) in b[e.name] && k.succeeds(e.name, b[e.name])
  {
    if SucceededIn(k, e) {
      var h :| h in AllCalls(k.handled) && h.name == e.name && Single(e) in h.items && k.succeeds(h.name, h.items);
      CalledWithBatch(k.dispatched, k.handled, h);
    }
    if b: Batch :| b in k.dispatched && e.name in b && Single(e) in b[e.name] && k.succeeds(e.name, b[e.name]) {
      CalledWithBatch(k.dispatched, k.handled, HandlerCall(e.name, b[e.name]));
    }
  }

  // ----- What one call hands out -----

  lemma {:induction false} HandedConcat(a: seq<Batch>, b: seq<Batch>, n: Name)
    ensures Handed(a + b, n) == Handed(a, n) + Handed(b, n)
    decreases |b|
  {
    if b == [] {
      assert a + b == a;
    } else {
      var front, last := b[..|b| - 1], b[|b| - 1];
      HandedConcat(a, front, n);
      assert (a + b)[..|a + b| - 1] == a + front;
      Associates(Handed(a, n), Handed(front, n), ItemsOf(last, n));
    }
  }

  lemma HandedByCall(g: Grouping, s: Listener, k: Call, s': Listener, n: Name)
    requires CallOf(g, s, k, s') && n !in g.groupOf && n !in g.size
    ensures Handed(k.dispatched, n) == Singles(k.read, n)
  {
    HandedConcat(s.batches, k.dispatched, n);
    hide Handed, Singles;
    assert Handed(s.batches, n) + Handed(k.dispatched, n) == Handed(s.batches, n) + Singles(k.read, n);
    SameTail(Handed(s.batches, n), Handed(k.dispatched, n), Singles(k.read, n));
  }

  lemma SameTail<T>(a: seq<T>, b: seq<T>, c: seq<T>)
    requires a + b == a + c
    ensures b == c
  {
    assert b == (a + b)[|a|..] && c == (a + c)[|a|..];
  }

  lemma {:induction false} CountOnce(es: seq<Event>, e: Event)
    requires forall i, j :: 0 <= i < j < |es| ==> es[i] != es[j]
    ensures multiset(es)[e] == if e in es then 1 else 0
  {
    if es != [] {
      var front := es[..|es| - 1];
      CountOnce(front, e);
      assert es == front + [es[|es| - 1]];
    }
  }

  /** A single event that a batch holds was read by the call. */
  lemma SingleWasRead(g: Grouping, s: Listener, k: Call, s': Listener, b: Batch, name: Name, e: Event)
    requires CallOf(g, s, k, s') && b in k.dispatched && name in b && Single(e) in b[name]
    ensures e in k.read && e.name == name && name !in g.groupOf && name !in g.size
  {
    var i :| 0 <= i < |b[name]| && b[name][i] == Single(e);
    assert ProperBatch(g, b) && Fits(g, name, b[name][i]);
    HandedByCall(g, s, k, s', name);
    InHanded(k.dispatched, b, name, Single(e));
    SinglesCount(k.read, e);
  }

  lemma {:induction false} InHanded(batches: seq<Batch>, b: Batch, name: Name, item: Item)
    requires b in batches && name in b && item in b[name]
    ensures item in Handed(batches, name)
  {
    var front, last := batches[..|batches| - 1], batches[|batches| - 1];
    assert batches == front + [last];
    if b in front {
      InHanded(front, b, name, item);
    }
  }

  lemma {:induction false} MarkedInIff(batches: seq<Batch>, succeeds: (Name, seq<Item>) -> bool, id: nat)
    ensures id in MarkedIn(batches, succeeds) <==>
      exists b, name :: b in batches && name in b && succeeds(name, b[name]) && id in SingleIds(b[name])
  {
    if batches != [] {
      var front, last := batches[..|batches| - 1], batches[|batches| - 1];
      assert batches == front + [last];
      MarkedInIff(front, succeeds, id);
      hide SingleIds;
    }
  }

  /** An event outside groups is processed after a call iff it was before or its handler succeeded in the call. */
  lemma ProcessedByCall(g: Grouping, s: Listener, k: Call, s': Listener, e: Event)
    requires CallOf(g, s, k, s') && e.name !in g.groupOf
    requires forall f :: f in k.read && f.id == e.id ==> f == e
    ensures e.id in s'.processed <==> e.id in s.processed || SucceededIn(k, e)
  {
    SucceededInBatch(k, e);
    assert e.id !in GroupedIds(g, k.read);
    MarkedIff(g, s, k, s', e);
    hide SucceededIn, CallsFor, Conserved, GroupedIds, MarkedIn;
  }

  lemma MarkedIff(g: Grouping, s: Listener, k: Call, s': Listener, e: Event)
    requires CallOf(g, s, k, s') && e.name !in g.groupOf
    requires forall f :: f in k.read && f.id == e.id ==> f == e
    ensures e.id in MarkedIn(k.dispatched, k.succeeds) <==>
      exists b :: b in k.dispatched && e.name in b && Single(e) in b[e.name] && k.succeeds(e.name, b[e.name])
  {
    hide CallOf, MarkedIn;
    MarkedInIff(k.dispatched, k.succeeds, e.id);
    if e.id in MarkedIn(k.dispatched, k.succeeds) {
      var b: Batch, name: Name :|
        b in k.dispatched && name in b && k.succeeds(name, b[name]) && e.id in SingleIds(b[name]);
      var i :| 0 <= i < |b[name]| && b[name][i].Single? && b[name][i].event.id == e.id;
      SingleWasRead(g, s, k, s', b, name, b[name][i].event);
    }
    if b: Batch :| b in k.dispatched && e.name in b && Single(e) in b[e.name] && k.succeeds(e.name, b[e.name]) {
      var i :| 0 <= i < |b[e.name]| && b[e.name][i] == Single(e);
      assert b[e.name][i].Single? && e.id in SingleIds(b[e.name]);
    }
  }

  // ----- Runs -----

  ghost predicate SucceededBefore(calls: seq<Call>, k: nat, e: Event)
    requires k <= |calls|
  {
    exists j :: 0 <= j < k && SucceededIn(calls[j], e)
  }

  ghost predicate SeenBefore(calls: seq<Call>, k: nat, e: Event)
    requires k <= |calls|
  {
    exists j :: 0 <= j < k && e in calls[j].rows
  }

  lemma BeforeOneMore(calls: seq<Call>, k: nat, e: Event)
    requires 1 <= k <= |calls|
    ensures SucceededBefore(calls, k, e) <==> SucceededBefore(calls, k - 1, e) || SucceededIn(calls[k - 1], e)
    ensures SeenBefore(calls, k, e) <==> SeenBefore(calls, k - 1, e) || e in calls[k - 1].rows
  {
    hide SucceededIn;
  }

  lemma ReadWithId(calls: seq<Call>, processed: set<nat>, k: nat, n: nat, e: Event)
    requires UniqueIds(calls) && k < |calls| && n < |calls| && e in calls[n].rows
    requires ReadsUnprocessed(calls[k], processed)
    ensures forall f :: f in calls[k].read && f.id == e.id ==> f == e
  {
    forall f | f in calls[k].read && f.id == e.id
      ensures f == e
    {
      assert f in calls[k].rows;
    }
  }

  lemma NothingBefore(g: Grouping, states: seq<Listener>, calls: seq<Call>, e: Event)
    requires |states| == |calls| + 1 && IsRun(g, states, calls)
    ensures states[0].processed == {} && !SucceededBefore(calls, 0, e) && !SeenBefore(calls, 0, e)
  {
  }

  lemma ProcessedOneMore(g: Grouping, states: seq<Listener>, calls: seq<Call>, k: nat, e: Event, n: nat)
    requires |states| == |calls| + 1 && IsRun(g, states, calls) && 1 <= k <= |calls| && e.name !in g.groupOf
    requires n < |calls| && e in calls[n].rows
    ensures e.id in states[k].processed <==> e.id in states[k - 1].processed || SucceededIn(calls[k - 1], e)
  {
    hide IsRun, UniqueIds, ReadsUnprocessed, CallOf, SucceededIn;
    CallInRun(g, states, calls, k - 1);
    ReadWithId(calls, states[k - 1].processed, k - 1, n, e);
    ProcessedByCall(g, states[k - 1], calls[k - 1], states[k], e);
  }

  lemma {:induction false} ProcessedIff(g: Grouping, states: seq<Listener>, calls: seq<Call>, k: nat, e: Event, n: nat)
    requires |states| == |calls| + 1 && IsRun(g, states, calls) && k <= |calls| && e.name !in g.groupOf
    requires n < |calls| && e in calls[n].rows
    ensures e.id in states[k].processed <==> SucceededBefore(calls, k, e)
  {
    hide IsRun, SucceededBefore, SucceededIn, SeenBefore;
    NothingBefore(g, states, calls, e);
    if k > 0 {
      ProcessedOneMore(g, states, calls, k, e, n);
      BeforeOneMore(calls, k, e);
      ProcessedIff(g, states, calls, k - 1, e, n);
    }
  }

  /** In every call the handler of an event outside groups gets the event exactly once if it is in the table and no
      handler of an earlier call succeeded with it, and not at all otherwise: until success, and never after. */
  lemma RepeatedUntilSuccess(g: Grouping, states: seq<Listener>, calls: seq<Call>, k: nat, e: Event)
    requires IsRun(g, states, calls) && k < |calls| && e.name !in g.groupOf
    requires SeenBefore(calls, |calls|, e)
    ensures multiset(ItemsCalled(AllCalls(calls[k].handled), e.name))[Single(e)] ==
      if e in calls[k].rows && !SucceededBefore(calls, k, e) then 1 else 0
  {
    var n :| 0 <= n < |calls| && e in calls[n].rows;
    assert |states| == |calls| + 1;
    hide IsRun, SucceededBefore, SeenBefore, CallOf;
    ProcessedIff(g, states, calls, k, e, n);
    NotAGroupName(g, states, calls, e, n);
    CallInRun(g, states, calls, k);
    HandedByCall(g, states[k], calls[k], states[k + 1], e.name);
    CallsOfCall(g, states[k], calls[k], states[k + 1]);
    HandedIsCalled(calls[k].dispatched, calls[k].handled, e.name);
    SinglesCount(calls[k].read, e);
    CountOnce(calls[k].read, e);
  }

  lemma CallsOfCall(g: Grouping, s: Listener, k: Call, s': Listener)
    requires CallOf(g, s, k, s')
    ensures CallsFor(k.dispatched, k.handled)
  {
  }

  lemma NotAGroupName(g: Grouping, states: seq<Listener>, calls: seq<Call>, e: Event, n: nat)
    requires |states| == |calls| + 1 && IsRun(g, states, calls)
    requires e.name !in g.groupOf && n < |calls| && e in calls[n].rows
    ensures e.name !in g.size
  {
    hide IsRun, SucceededIn, SeenBefore, CallOf, CallsFor;
    CallInRun(g, states, calls, n);
    if e !in calls[n].read {
      ProcessedIff(g, states, calls, n, e, n);
      var j :| 0 <= j < n && SucceededIn(calls[j], e);
      CallInRun(g, states, calls, j);
      CallsOfCall(g, states[j], calls[j], states[j + 1]);
      SucceededInBatch(calls[j], e);
      var b: Batch :| b in calls[j].dispatched && e.name in b && Single(e) in b[e.name];
      SingleWasRead(g, states[j], calls[j], states[j + 1], b, e.name, e);
    }
  }

  /** All handler calls of the first `k` calls. */
  function HandledBy(calls: seq<Call>, k: nat): seq<HandlerCall>
    requires k <= |calls|
  {
    if k == 0 then [] else HandledBy(calls, k - 1) + AllCalls(calls[k - 1].handled)
  }

  /** What handlers were called with over the run is what the run handed out. */
  lemma {:induction false} RunCalls(g: Grouping, states: seq<Listener>, calls: seq<Call>, k: nat, n: Name)
    requires |states| == |calls| + 1 && IsRun(g, states, calls) && k <= |calls|
    ensures ItemsCalled(HandledBy(calls, k), n) == Handed(states[k].batches, n)
  {
    assert states[0].batches == [];
    hide IsRun;
    if k > 0 {
      RunCalls(g, states, calls, k - 1, n);
      CallInRun(g, states, calls, k - 1);
      CallHands(g, states[k - 1], calls[k - 1], states[k], n);
      hide Handed, ItemsCalled, AllCalls, CallOf;
      ItemsCalledConcat(HandledBy(calls, k - 1), AllCalls(calls[k - 1].handled), n);
    }
  }

  lemma CallHands(g: Grouping, s: Listener, k: Call, s': Listener, n: Name)
    requires CallOf(g, s, k, s')
    ensures Handed(s'.batches, n) == Handed(s.batches, n) + ItemsCalled(AllCalls(k.handled), n)
  {
    HandedConcat(s.batches, k.dispatched, n);
    HandedIsCalled(k.dispatched, k.handled, n);
  }

  /** Everything the first `k` calls read. */
  function ReadBy(calls: seq<Call>, k: nat): seq<Event>
    requires k <= |calls|
  {
    if k == 0 then [] else ReadBy(calls, k - 1) + calls[k - 1].read
  }

  lemma {:induction false} RunConserves(g: Grouping, states: seq<Listener>, calls: seq<Call>, k: nat)
    requires |states| == |calls| + 1 && IsRun(g, states, calls) && k <= |calls|
    ensures Conserved(g, states[k].batches, states[k].buffer, [], map[], ReadBy(calls, k))
    ensures g.Valid(ReadBy(calls, k))
  {
    assert states[0] == Listener([], map[], {}) && g.Valid([]);
    hide IsRun, Conserved, ReadsUnprocessed, UniqueIds;
    if k == 0 {
      NothingConserved(g);
    } else {
      RunConserves(g, states, calls, k - 1);
      CallInRun(g, states, calls, k - 1);
      ConservedOverCalls(g, [], map[], states[k - 1].batches, states[k - 1].buffer, states[k].batches, states[k].buffer,
                         ReadBy(calls, k - 1), calls[k - 1].read);
    }
  }

  lemma NothingConserved(g: Grouping)
    ensures Conserved(g, [], map[], [], map[], [])
  {
    forall gk: GroupKey
      ensures Stream([], map[], gk) == Stream([], map[], gk) + Members(g, [], gk)
    {
    }
  }

  /** A grouped event is marked as soon as it is read, and so is read once, by the first call that sees it. */
  lemma {:induction false} GroupedReadOnce(g: Grouping, states: seq<Listener>, calls: seq<Call>, k: nat, e: Event)
    requires |states| == |calls| + 1 && IsRun(g, states, calls) && k <= |calls| && e.name in g.groupOf
    requires SeenBefore(calls, |calls|, e)
    ensures e.id in states[k].processed <==> SeenBefore(calls, k, e)
    ensures multiset(ReadBy(calls, k))[e] == if SeenBefore(calls, k, e) then 1 else 0
  {
    var n: nat :| n < |calls| && e in calls[n].rows;
    hide IsRun, UniqueIds, CallOf, SeenBefore, SucceededBefore, SucceededIn;
    NothingBefore(g, states, calls, e);
    if k > 0 {
      GroupedReadOnce(g, states, calls, k - 1, e);
      CallInRun(g, states, calls, k - 1);
      GroupedByCall(g, states[k - 1], calls[k - 1], states[k], calls, e, n, k - 1);
      CountOnce(calls[k - 1].read, e);
      BeforeOneMore(calls, k, e);
    }
  }

  lemma CallInRun(g: Grouping, states: seq<Listener>, calls: seq<Call>, k: nat)
    requires IsRun(g, states, calls) && k < |calls|
    ensures |states| == |calls| + 1
    ensures g.Valid(calls[k].read) && ReadsUnprocessed(calls[k], states[k].processed) && UniqueIds(calls)
    ensures CallOf(g, states[k], calls[k], states[k + 1])
  {
  }

  lemma GroupedByCall(
      g: Grouping, s: Listener, last: Call, s': Listener, calls: seq<Call>, e: Event, n: nat, k: nat)
    requires CallOf(g, s, last, s') && ReadsUnprocessed(last, s.processed) && UniqueIds(calls)
    requires k < |calls| && last == calls[k] && n < |calls| && e in calls[n].rows && e.name in g.groupOf
    ensures e.id in s'.processed <==> e.id in s.processed || e in last.rows
  {
    MarkedInIff(last.dispatched, last.succeeds, e.id);
    if e.id in MarkedIn(last.dispatched, last.succeeds) {
      var b: Batch, name: Name :|
        b in last.dispatched && name in b && last.succeeds(name, b[name]) && e.id in SingleIds(b[name]);
      var i :| 0 <= i < |b[name]| && b[name][i].Single? && b[name][i].event.id == e.id;
      SingleWasRead(g, s, last, s', b, name, b[name][i].event);
    }
    if e.id in GroupedIds(g, last.read) {
      var f :| f in last.read && f.name in g.groupOf && f.id == e.id;
      assert f in calls[k].rows;
    }
  }

  /** At any time of a run, each grouped event that a call has seen is in one place, once: still buffered, or in one
      group that a handler was called with. */
  lemma GroupedOnce(g: Grouping, states: seq<Listener>, calls: seq<Call>, k: nat, e: Event)
    requires IsRun(g, states, calls) && k <= |calls| && e.name in g.groupOf
    requires SeenBefore(calls, k, e)
    ensures |states| == |calls| + 1
    ensures var gk := GroupKey(g.groupOf[e.name], e.key);
      multiset(Flattened(ItemsCalled(HandledBy(calls, k), gk.group), gk.key))[e]
        + multiset(Buffered(states[k].buffer, gk))[e] == 1
  {
    assert |states| == |calls| + 1 && SeenBefore(calls, |calls|, e);
    hide IsRun, SeenBefore;
    RunConserves(g, states, calls, k);
    GroupedReadOnce(g, states, calls, k, e);
    assert e in multiset(ReadBy(calls, k));
    hide Handed, Flattened, Buffered, Conserved;
    EveryEventIsAccountedFor(g, states[k].batches, states[k].buffer, ReadBy(calls, k), e);
    RunCalls(g, states, calls, k, g.groupOf[e.name]);
  }
}
