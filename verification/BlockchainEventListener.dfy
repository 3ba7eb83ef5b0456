/** The event listener with its group buffer and the table of processed events. */
module BlockchainEventListeners {
  import opened EventBatching
  import opened EventCalls

  /** The state at the start of a call, and the batches handed over since, with their blocks and handler calls. */
  datatype History = History(
    batches: seq<Batch>, buffer: Buffer, processed: set<nat>, calls: seq<HandlerCall>,
    dispatched: seq<Batch>, blocks: seq<nat>, handled: seq<seq<HandlerCall>>)

  class BlockchainEventListener {
    const grouping: Grouping
    var eventGroupsBuffer: Buffer
    var processed: set<nat>
    /** The batches handed to the event handlers so far. */
    ghost var batches: seq<Batch>
    /** The calls of event handlers so far. */
    ghost var calls: seq<HandlerCall>

    constructor (grouping: Grouping)
      ensures this.grouping == grouping && eventGroupsBuffer == map[] && processed == {} && batches == [] && calls == []
    {
      this.grouping := grouping;
      eventGroupsBuffer, processed, batches, calls := map[], {}, [], [];
    }

    ghost function View(): Listener
      reads this
    {
      Listener(batches, eventGroupsBuffer, processed)
    }

    /** Runs the handler of a name; its success is a parameter. */
    method HandleBlockEvents(name: Name, blockEvents: seq<Item>, succeeds: (Name, seq<Item>) -> bool)
      modifies this`processed, this`calls
      ensures calls == old(calls) + [HandlerCall(name, blockEvents)]
      ensures processed == old(processed) +
        if succeeds(name, blockEvents) then SingleIds(blockEvents) else {}
    {
      calls := calls + [HandlerCall(name, blockEvents)];
      if succeeds(name, blockEvents) {
        processed := processed + SingleIds(blockEvents);
      }
    }

    /** `Object.entries`: every name of the batch once. */
    method Names(batch: Batch) returns (names: seq<Name>)
      ensures forall n :: n in names <==> n in batch
      ensures forall i, j :: 0 <= i < j < |names| ==> names[i] != names[j]
    {
      names := [];
      var left := batch.Keys;
      while left != {}
        invariant left <= batch.Keys
        invariant forall n :: n in batch.Keys <==> n in names || n in left
        invariant forall n :: n in left ==> n !in names
        invariant forall i, j :: 0 <= i < j < |names| ==> names[i] != names[j]
        decreases |left|
      {
        var name :| name in left;
        names := names + [name];
        left := left - {name};
      }
    }

    /** Every handler of the batch is called once, with all its items. */
    method HandleBlockBatchedEvents(batchedEvents: Batch, succeeds: (Name, seq<Item>) -> bool)
      returns (ghost made: seq<HandlerCall>)
      modifies this`processed, this`batches, this`calls
      ensures batches == old(batches) + [batchedEvents]
      ensures processed == old(processed) + Marked(batchedEvents, batchedEvents.Keys, succeeds)
      ensures calls == old(calls) + made && OneCallPerName(batchedEvents, made)
    {
      hide SingleIds, Marked, OneCallPerName, CallsOf;
      NothingMarked(batchedEvents, succeeds);
      batches := batches + [batchedEvents];
      made := [];
      var names := Names(batchedEvents);
      var i := 0;
      assert Upto(names, 0) == {} && names[..0] == [];
      while i < |names|
        invariant 0 <= i <= |names|
        invariant processed == old(processed) + Marked(batchedEvents, Upto(names, i), succeeds)
        invariant batches == old(batches) + [batchedEvents]
        invariant calls == old(calls) + made && made == CallsOf(batchedEvents, names[..i])
      {
        MarkedOneMore(batchedEvents, Upto(names, i), names[i], succeeds);
        assert Upto(names, i + 1) == Upto(names, i) + {names[i]};
        HandleBlockEvents(names[i], batchedEvents[names[i]], succeeds);
        made := made + [HandlerCall(names[i], batchedEvents[names[i]])];
        CallsOfOneMore(batchedEvents, names, i);
        i := i + 1;
      }
      AllNames(names, batchedEvents);
      assert names[..i] == names;
      CalledOnce(batchedEvents, names);
    }

    static ghost function CallsOf(batch: Batch, names: seq<Name>): seq<HandlerCall>
      requires forall i :: 0 <= i < |names| ==> names[i] in batch
    {
      seq(|names|, i requires 0 <= i < |names| => HandlerCall(names[i], batch[names[i]]))
    }

    lemma NothingMarked(batch: Batch, succeeds: (Name, seq<Item>) -> bool)
      ensures Marked(batch, {}, succeeds) == {} && CallsOf(batch, []) == []
    {
    }

    lemma CallsOfOneMore(batch: Batch, names: seq<Name>, i: nat)
      requires i < |names| && forall j :: 0 <= j < |names| ==> names[j] in batch
      ensures CallsOf(batch, names[..i + 1]) == CallsOf(batch, names[..i]) + [HandlerCall(names[i], batch[names[i]])]
    {
    }

    lemma CalledOnce(batch: Batch, names: seq<Name>)
      requires forall n :: n in names <==> n in batch
      requires forall i, j :: 0 <= i < j < |names| ==> names[i] != names[j]
      ensures OneCallPerName(batch, CallsOf(batch, names))
    {
      forall n | n in batch
        ensures exists i :: 0 <= i < |names| && CallsOf(batch, names)[i].name == n
      {
        assert n in names;
        var i :| 0 <= i < |names| && names[i] == n;
        assert CallsOf(batch, names)[i].name == n;
      }
    }

    lemma AllNames(names: seq<Name>, batch: Batch)
      requires forall n :: n in names <==> n in batch
      ensures Upto(names, |names|) == batch.Keys
    {
      forall n | n in batch
        ensures n in Upto(names, |names|)
      {
        assert n in names;
        var j :| 0 <= j < |names| && names[j] == n;
      }
    }

    ghost function Upto(names: seq<Name>, i: nat): set<Name>
      requires i <= |names|
    {
      set j | 0 <= j < i :: names[j]
    }

    /** How far a call has come: the events `es` are in the batches handed over since the start, in the batch of the
        current block, or in the buffer. */
    ghost predicate Progress(
        h: History, es: seq<Event>, batched: Batch, block: nat, succeeds: (Name, seq<Item>) -> bool)
      reads this
    {
      && Conserved(grouping, batches + [batched], eventGroupsBuffer, h.batches, h.buffer, es)
      && BufferInv(grouping, eventGroupsBuffer)
      && ProperBatch(grouping, batched) && OfBlock(batched, block)
      && batches == h.batches + h.dispatched && Dispatched(grouping, h.dispatched, h.blocks)
      && calls == h.calls + AllCalls(h.handled) && CallsFor(h.dispatched, h.handled)
      && processed == h.processed + GroupedIds(grouping, es) + MarkedIn(h.dispatched, succeeds)
    }

    /** Hands the unprocessed events, in the order of the query, to their handlers block by block. */
    method HandleBlockchainEvents(unprocessedEvents: seq<Event>, succeeds: (Name, seq<Item>) -> bool)
      returns (ghost dispatched: seq<Batch>, ghost blocks: seq<nat>, ghost handled: seq<seq<HandlerCall>>)
      requires grouping.Valid(unprocessedEvents) && BufferInv(grouping, eventGroupsBuffer)
      modifies this
      ensures BufferInv(grouping, eventGroupsBuffer)
      ensures Conserved(grouping, batches, eventGroupsBuffer, old(batches), old(eventGroupsBuffer), unprocessedEvents)
      ensures batches == old(batches) + dispatched && Dispatched(grouping, dispatched, blocks)
      ensures calls == old(calls) + AllCalls(handled) && CallsFor(dispatched, handled)
      ensures SortedByBlock(unprocessedEvents) ==> Increasing(blocks)
      ensures processed == old(processed) + GroupedIds(grouping, unprocessedEvents) + MarkedIn(dispatched, succeeds)
      ensures forall rows ::
        CallOf(grouping, old(View()), Call(rows, unprocessedEvents, succeeds, dispatched, handled), View())
    {
      hide Progress, Conserved, BufferInv, Dispatched, MarkedIn, GroupedIds, SortedByBlock, CallsFor, AllCalls;
      ghost var h := History(batches, eventGroupsBuffer, processed, calls, [], [], []);
      NothingYet(h, succeeds);
      if |unprocessedEvents| != 0 {
        h := HandleBlocks(unprocessedEvents, succeeds, h);
      }
      dispatched, blocks, handled := h.dispatched, h.blocks, h.handled;
      DispatchedAreProper(dispatched, blocks);
    }

    /** Both histories are of the same call. */
    static predicate SameStart(h: History, start: History) {
      h.batches == start.batches && h.buffer == start.buffer && h.processed == start.processed && h.calls == start.calls
    }

    method HandleBlocks(es: seq<Event>, succeeds: (Name, seq<Item>) -> bool, ghost start: History)
      returns (ghost h: History)
      requires grouping.Valid(es) && start.blocks == []
      requires Progress(start, [], map[], 0, succeeds)
      modifies this
      ensures SameStart(h, start)
      ensures Settled(h, es, succeeds)
      ensures SortedByBlock(es) ==> Increasing(h.blocks)
    {
      hide Progress, Settled, SortedByBlock, Increasing;
      h := start;
      var batchedEvents: Batch := map[];
      var currentBlockNumber := 0;
      var i := 0;
      OneBlock(0);
      while i < |es|
        invariant 0 <= i <= |es|
        invariant Progress(h, es[..i], batchedEvents, currentBlockNumber, succeeds)
        invariant SameStart(h, start)
        invariant SortedByBlock(es) ==> Increasing(h.blocks + [currentBlockNumber])
        invariant currentBlockNumber == if i == 0 then 0 else es[i - 1].block
      {
        var event := es[i];
        if event.block != currentBlockNumber {
          NextBlock(es, i, h.blocks, currentBlockNumber);
          h := Flush(batchedEvents, currentBlockNumber, succeeds, h, es[..i]);
          StartBlock(h, es[..i], event.block, succeeds);
          batchedEvents := map[];
          currentBlockNumber := event.block;
        }
        ValidPrefix(es, i);
        batchedEvents := HandleEvent(event, batchedEvents, h, es[..i], succeeds);
        i := i + 1;
      }
      h := Flush(batchedEvents, currentBlockNumber, succeeds, h, es[..i]);
      assert es[..i] == es;
    }

    lemma DispatchedAreProper(batches: seq<Batch>, blocks: seq<nat>)
      requires Dispatched(grouping, batches, blocks)
      ensures forall b :: b in batches ==> ProperBatch(grouping, b)
    {
    }

    lemma ValidPrefix(es: seq<Event>, i: nat)
      requires grouping.Valid(es) && i < |es|
      ensures es[..i + 1] == es[..i] + [es[i]] && grouping.Valid(es[..i] + [es[i]])
    {
    }

    lemma OneBlock(block: nat)
      ensures Increasing([] + [block])
    {
    }

    lemma StartBlock(h: History, es: seq<Event>, block: nat, succeeds: (Name, seq<Item>) -> bool)
      requires Settled(h, es, succeeds)
      ensures Progress(h, es, map[], block, succeeds)
    {
      FlushKeepsConserved(grouping, batches, eventGroupsBuffer, h.batches, h.buffer, es);
      hide Conserved, BufferInv, Dispatched, MarkedIn;
    }

    /** As `Progress`, with no batch under construction. */
    ghost predicate Settled(h: History, es: seq<Event>, succeeds: (Name, seq<Item>) -> bool)
      reads this
    {
      && Conserved(grouping, batches, eventGroupsBuffer, h.batches, h.buffer, es)
      && BufferInv(grouping, eventGroupsBuffer)
      && batches == h.batches + h.dispatched && Dispatched(grouping, h.dispatched, h.blocks)
      && calls == h.calls + AllCalls(h.handled) && CallsFor(h.dispatched, h.handled)
      && processed == h.processed + GroupedIds(grouping, es) + MarkedIn(h.dispatched, succeeds)
    }

    /** Hands over the batch of a finished block. */
    method Flush(
        batchedEvents: Batch, block: nat, succeeds: (Name, seq<Item>) -> bool, ghost h: History, ghost es: seq<Event>)
      returns (ghost h': History)
      requires Progress(h, es, batchedEvents, block, succeeds)
      modifies this`processed, this`batches, this`calls
      ensures SameStart(h', h) && h'.blocks == h.blocks + [block]
      ensures Settled(h', es, succeeds)
    {
      hide Conserved, BufferInv, Dispatched, MarkedIn, Marked, GroupedIds, ProperBatch, OfBlock;
      hide CallsFor, AllCalls, OneCallPerName;
      ghost var made := HandleBlockBatchedEvents(batchedEvents, succeeds);
      DispatchedAppend(grouping, h.dispatched, h.blocks, batchedEvents, block);
      MarkedInAppend(h.dispatched, batchedEvents, succeeds);
      h' := h.(dispatched := h.dispatched + [batchedEvents], blocks := h.blocks + [block],
               handled := h.handled + [made]);
      CallsForAppend(h.dispatched, h.handled, batchedEvents, made);
      AllCallsAppend(h.handled, made);
      Associates(h.batches, h.dispatched, [batchedEvents]);
      Associates(h.calls, AllCalls(h.handled), made);
    }

    lemma CallsForAppend(
        batches: seq<Batch>, calls: seq<seq<HandlerCall>>, batch: Batch, made: seq<HandlerCall>)
      requires CallsFor(batches, calls) && OneCallPerName(batch, made)
      ensures CallsFor(batches + [batch], calls + [made])
    {
      hide OneCallPerName;
    }

    lemma NextBlock(es: seq<Event>, i: nat, blocks: seq<nat>, current: nat)
      requires i < |es| && current == (if i == 0 then 0 else es[i - 1].block) && es[i].block != current
      requires SortedByBlock(es) ==> Increasing(blocks + [current])
      ensures SortedByBlock(es) ==> Increasing(blocks + [current] + [es[i].block])
    {
      if SortedByBlock(es) {
        assert current < es[i].block;
        var all := blocks + [current] + [es[i].block];
        forall j, k | 0 <= j < k < |all|
          ensures all[j] < all[k]
        {
          assert j < |blocks| ==> (blocks + [current])[j] < (blocks + [current])[|blocks|];
          if k < |blocks + [current]| {
            assert (blocks + [current])[j] < (blocks + [current])[k];
          }
        }
      }
    }

    lemma GroupedIdsAppend(g: Grouping, es: seq<Event>, e: Event)
      ensures GroupedIds(g, es + [e]) == GroupedIds(g, es) + if e.name in g.groupOf then {e.id} else {}
    {
    }

    lemma NothingYet(h: History, succeeds: (Name, seq<Item>) -> bool)
      requires h == History(batches, eventGroupsBuffer, processed, calls, [], [], [])
      requires BufferInv(grouping, eventGroupsBuffer)
      ensures Settled(h, [], succeeds) && Progress(h, [], map[], 0, succeeds)
    {
      forall gk: GroupKey
        ensures Stream(batches, eventGroupsBuffer, gk)
          == Stream(batches, eventGroupsBuffer, gk) + Members(grouping, [], gk)
      {
      }
      StartBlock(h, [], 0, succeeds);
    }

    /** The body of the loop for one event of the current block. */
    method HandleEvent(event: Event, batchedEvents: Batch, ghost h: History, ghost es: seq<Event>,
                       ghost succeeds: (Name, seq<Item>) -> bool)
      returns (batched: Batch)
      requires grouping.Valid(es + [event])
      requires Progress(h, es, batchedEvents, event.block, succeeds)
      modifies this`eventGroupsBuffer, this`processed
      ensures Progress(h, es + [event], batched, event.block, succeeds)
    {
      GroupedIdsAppend(grouping, es, event);
      ghost var batches0, buffer0 := h.batches, h.buffer;
      hide Conserved, BufferInv, ProperBatch, OfBlock, IsFullGroup, ItemOfBlock, Dispatched, GroupedIds, MarkedIn;
      batched := batchedEvents;
      if event.name in grouping.groupOf {
        var eventsGroupName := grouping.groupOf[event.name];
        var gk := GroupKey(eventsGroupName, event.key);
        BufferedKeepsInv(grouping, eventGroupsBuffer, gk, event);
        BufferedKeepsConserved(grouping, batches + [batched], eventGroupsBuffer, batches0, buffer0, es, event, gk);
        if gk !in eventGroupsBuffer {
          eventGroupsBuffer := eventGroupsBuffer[gk := []];
        }
        eventGroupsBuffer := eventGroupsBuffer[gk := eventGroupsBuffer[gk] + [event]];
        assert eventGroupsBuffer == old(eventGroupsBuffer)[gk := Buffered(old(eventGroupsBuffer), gk) + [event]];
        processed := processed + {event.id};
        if |eventGroupsBuffer[gk]| == grouping.size[eventsGroupName] {
          var group := Group(eventGroupsBuffer[gk]);
          GroupKeepsConserved(grouping, batches, batched, eventGroupsBuffer, batches0, buffer0, es + [event], gk);
          PushedKeepsBatch(grouping, batched, eventsGroupName, group, event.block);
          batched := Push(batched, eventsGroupName, group);
          eventGroupsBuffer := eventGroupsBuffer - {gk};
        }
      } else {
        assert event in es + [event];
        SingleKeepsConserved(grouping, batches, batched, eventGroupsBuffer, batches0, buffer0, es, event);
        SingleFits(event);
        PushedKeepsBatch(grouping, batched, event.name, Single(event), event.block);
        batched := Push(batched, event.name, Single(event));
      }
    }

    lemma SingleFits(e: Event)
      requires e.name !in grouping.groupOf && e.name !in grouping.size
      ensures Fits(grouping, e.name, Single(e)) && ItemOfBlock(Single(e), e.block)
    {
    }

    method Push(batch: Batch, name: Name, item: Item) returns (batched: Batch)
      ensures batched == Pushed(batch, name, item)
    {
      if name in batch {
        batched := batch[name := batch[name] + [item]];
      } else {
        assert [] + [item] == [item];
        batched := batch[name := [item]];
      }
    }
  }
}
