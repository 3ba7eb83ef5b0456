/** How blockchain events are cut into block batches and collected into groups.

    `Grouping` stands for the event groups of the configuration, which is empty at present. */
module EventBatching {

  /** Names of events and groups, and values of grouping arguments, are opaque: only equality matters. */
  datatype Name = Name(text: string)

  /** `key` is the value of the grouping argument in the event's data. */
  datatype Event = Event(id: nat, name: Name, block: nat, key: Name)

  datatype Grouping = Grouping(groupOf: map<Name, Name>, size: map<Name, nat>)
  {
    /** Every group has a size of at least one, and no group is named like an event outside groups. */
    ghost predicate Valid(es: seq<Event>) {
      && (forall n :: n in groupOf ==> groupOf[n] in size && size[groupOf[n]] >= 1)
      && (forall e :: e in es && e.name !in groupOf ==> e.name !in size)
    }
  }

  datatype Item = Single(event: Event) | Group(events: seq<Event>)

  type Batch = map<Name, seq<Item>>

  datatype GroupKey = GroupKey(group: Name, key: Name)

  type Buffer = map<GroupKey, seq<Event>>

  // ----- What was handed out -----

  function ItemsOf(batch: Batch, name: Name): seq<Item> {
    if name in batch then batch[name] else []
  }

  /** All items handed to the handler of a name, in order. */
  function Handed(batches: seq<Batch>, name: Name): seq<Item> {
    if batches == [] then []
    else Handed(batches[..|batches| - 1], name) + ItemsOf(batches[|batches| - 1], name)
  }

  /** The events of a name as single items, in order. */
  function Singles(es: seq<Event>, name: Name): seq<Item> {
    if es == [] then []
    else Singles(es[..|es| - 1], name) + if es[|es| - 1].name == name then [Single(es[|es| - 1])] else []
  }

  predicate Belongs(g: Grouping, e: Event, gk: GroupKey) {
    e.name in g.groupOf && g.groupOf[e.name] == gk.group && e.key == gk.key
  }

  /** The events of a group with one key, in order. */
  function Members(g: Grouping, es: seq<Event>, gk: GroupKey): seq<Event> {
    if es == [] then []
    else Members(g, es[..|es| - 1], gk) + if Belongs(g, es[|es| - 1], gk) then [es[|es| - 1]] else []
  }

  /** The events of all handed-out groups with one key, one after the other. */
  function Flattened(items: seq<Item>, key: Name): seq<Event> {
    if items == [] then []
    else
      var last := items[|items| - 1];
      Flattened(items[..|items| - 1], key) +
      if last.Group? && last.events != [] && last.events[0].key == key then last.events else []
  }

  function Buffered(buffer: Buffer, gk: GroupKey): seq<Event> {
    if gk in buffer then buffer[gk] else []
  }

  // ----- Invariants -----

  /** No buffer is empty or full, and each holds events of its own group and key only. */
  ghost predicate BufferInv(g: Grouping, buffer: Buffer) {
    forall gk :: gk in buffer ==>
      && gk.group in g.size && 0 < |buffer[gk]| < g.size[gk.group]
      && forall i :: 0 <= i < |buffer[gk]| ==> Belongs(g, buffer[gk][i], gk)
  }

  predicate IsFullGroup(g: Grouping, item: Item, name: Name) {
    && item.Group? && name in g.size && |item.events| == g.size[name] >= 1
    && forall i :: 0 <= i < |item.events| ==> Belongs(g, item.events[i], GroupKey(name, item.events[0].key))
  }

  predicate Fits(g: Grouping, name: Name, item: Item) {
    if name in g.size then IsFullGroup(g, item, name)
    else item.Single? && item.event.name == name && name !in g.groupOf
  }

  predicate ItemOfBlock(item: Item, block: nat) {
    match item
    case Single(e) => e.block == block
    case Group(events) => events != [] && events[|events| - 1].block == block
  }

  /** Under a group name a batch holds full groups, under any other name single events of that name outside groups. */
  ghost predicate ProperBatch(g: Grouping, batch: Batch) {
    forall name, i :: name in batch && 0 <= i < |batch[name]| ==> Fits(g, name, batch[name][i])
  }

  /** All of the batch comes from one block; a group counts by the event that completed it. */
  ghost predicate OfBlock(batch: Batch, block: nat) {
    forall name, i :: name in batch && 0 <= i < |batch[name]| ==> ItemOfBlock(batch[name][i], block)
  }

  lemma PushedKeepsBatch(g: Grouping, batch: Batch, name: Name, item: Item, block: nat)
    requires ProperBatch(g, batch) && OfBlock(batch, block) && Fits(g, name, item) && ItemOfBlock(item, block)
    ensures ProperBatch(g, Pushed(batch, name, item)) && OfBlock(Pushed(batch, name, item), block)
  {
    hide Fits, ItemOfBlock;
    var pushed := Pushed(batch, name, item);
    forall n, i | n in pushed && 0 <= i < |pushed[n]|
      ensures Fits(g, n, pushed[n][i]) && ItemOfBlock(pushed[n][i], block)
    {
      if n == name && i == |ItemsOf(batch, name)| {
        assert pushed[n][i] == item;
      } else {
        assert n in batch && 0 <= i < |batch[n]| && pushed[n][i] == batch[n][i];
      }
    }
  }

  /** One more event either leaves the buffer short of a full group or completes it. */
  lemma BufferedKeepsInv(g: Grouping, buffer: Buffer, gk: GroupKey, e: Event)
    requires BufferInv(g, buffer) && Belongs(g, e, gk) && gk.group in g.size && g.size[gk.group] >= 1
    ensures var events := Buffered(buffer, gk) + [e];
      && |events| <= g.size[gk.group] && events[0].key == gk.key
      && (|events| < g.size[gk.group] ==> BufferInv(g, buffer[gk := events]))
      && (|events| == g.size[gk.group] ==>
            && BufferInv(g, buffer[gk := events] - {gk})
            && Fits(g, gk.group, Group(events)) && ItemOfBlock(Group(events), e.block))
  {
    var events := Buffered(buffer, gk) + [e];
    forall i | 0 <= i < |events|
      ensures Belongs(g, events[i], gk)
    {
    }
    var rest := buffer[gk := events] - {gk};
    assert forall k :: k in rest ==> k in buffer && rest[k] == buffer[k];
  }

  predicate SortedByBlock(es: seq<Event>) {
    forall i, j :: 0 <= i < j < |es| ==> es[i].block <= es[j].block
  }

  /** The batches are proper, and each is of the block listed for it. */
  ghost predicate Dispatched(g: Grouping, batches: seq<Batch>, blocks: seq<nat>) {
    && |batches| == |blocks|
    && forall k :: 0 <= k < |blocks| ==> ProperBatch(g, batches[k]) && OfBlock(batches[k], blocks[k])
  }

  predicate Increasing(blocks: seq<nat>) {
    forall j, k :: 0 <= j < k < |blocks| ==> blocks[j] < blocks[k]
  }

  lemma DispatchedAppend(g: Grouping, batches: seq<Batch>, blocks: seq<nat>, batch: Batch, block: nat)
    requires Dispatched(g, batches, blocks) && ProperBatch(g, batch) && OfBlock(batch, block)
    ensures Dispatched(g, batches + [batch], blocks + [block])
  {
  }

  // ----- One event -----

  function Pushed(batch: Batch, name: Name, item: Item): Batch {
    batch[name := ItemsOf(batch, name) + [item]]
  }

  lemma HandedPushed(batches: seq<Batch>, batch: Batch, name: Name, item: Item, n: Name)
    ensures Handed(batches + [Pushed(batch, name, item)], n)
      == Handed(batches + [batch], n) + if n == name then [item] else []
  {
    assert (batches + [batch])[..|batches|] == batches;
    assert (batches + [Pushed(batch, name, item)])[..|batches|] == batches;
  }

  /** Starting a new batch hands out nothing by itself. */
  lemma HandedFlushed(batches: seq<Batch>, n: Name)
    ensures Handed(batches + [map[]], n) == Handed(batches, n)
  {
    assert (batches + [map[]])[..|batches|] == batches;
  }

  lemma SinglesAppend(es: seq<Event>, e: Event, name: Name)
    ensures Singles(es + [e], name) == Singles(es, name) + if e.name == name then [Single(e)] else []
  {
    assert (es + [e])[..|es|] == es;
  }

  lemma MembersAppend(g: Grouping, es: seq<Event>, e: Event, gk: GroupKey)
    ensures Members(g, es + [e], gk) == Members(g, es, gk) + if Belongs(g, e, gk) then [e] else []
  {
    assert (es + [e])[..|es|] == es;
  }

  lemma FlattenedAppend(items: seq<Item>, item: Item, key: Name)
    ensures Flattened(items + [item], key) == Flattened(items, key) +
      if item.Group? && item.events != [] && item.events[0].key == key then item.events else []
  {
    assert (items + [item])[..|items|] == items;
  }

  /** All events of a group key that were handed out or are still buffered, in order. */
  function Stream(batches: seq<Batch>, buffer: Buffer, gk: GroupKey): seq<Event> {
    Flattened(Handed(batches, gk.group), gk.key) + Buffered(buffer, gk)
  }

  /** The handed-out and buffered events have grown by exactly the events `es`, in order. */
  ghost predicate Conserved(
      g: Grouping, batches: seq<Batch>, buffer: Buffer, batches0: seq<Batch>, buffer0: Buffer, es: seq<Event>) {
    && (forall n :: n !in g.groupOf && n !in g.size ==> Handed(batches, n) == Handed(batches0, n) + Singles(es, n))
    && (forall gk: GroupKey :: gk.group in g.size ==>
          Stream(batches, buffer, gk) == Stream(batches0, buffer0, gk) + Members(g, es, gk))
  }

  lemma SingleKeepsConserved(
      g: Grouping, batches: seq<Batch>, batch: Batch, buffer: Buffer, batches0: seq<Batch>, buffer0: Buffer,
      es: seq<Event>, e: Event)
    requires Conserved(g, batches + [batch], buffer, batches0, buffer0, es)
    requires g.Valid(es + [e]) && e.name !in g.groupOf
    ensures Conserved(g, batches + [Pushed(batch, e.name, Single(e))], buffer, batches0, buffer0, es + [e])
  {
    var batches' := batches + [Pushed(batch, e.name, Single(e))];
    assert e in es + [e];
    forall n | n !in g.groupOf && n !in g.size
      ensures Handed(batches', n) == Handed(batches0, n) + Singles(es + [e], n)
    {
      HandedPushed(batches, batch, e.name, Single(e), n);
      SinglesAppend(es, e, n);
      hide Handed, Singles, Pushed, Stream;
      Associates(Handed(batches0, n), Singles(es, n), if e.name == n then [Single(e)] else []);
    }
    forall gk: GroupKey | gk.group in g.size
      ensures Stream(batches', buffer, gk) == Stream(batches0, buffer0, gk) + Members(g, es + [e], gk)
    {
      HandedPushed(batches, batch, e.name, Single(e), gk.group);
      MembersAppend(g, es, e, gk);
      hide Handed, Members, Pushed, Flattened, Buffered, Singles;
      assert Handed(batches + [batch], gk.group) + [] == Handed(batches + [batch], gk.group);
      assert Members(g, es, gk) + [] == Members(g, es, gk);
    }
  }

  lemma Associates<T>(a: seq<T>, b: seq<T>, c: seq<T>)
    ensures (a + b) + c == a + (b + c)
  {
  }

  lemma StreamBuffered(batches: seq<Batch>, buffer: Buffer, gk: GroupKey, e: Event, k: GroupKey)
    ensures Stream(batches, buffer[gk := Buffered(buffer, gk) + [e]], k)
      == Stream(batches, buffer, k) + if k == gk then [e] else []
  {
    var flat := Flattened(Handed(batches, k.group), k.key);
    hide Flattened, Handed;
    if k == gk {
      assert flat + (Buffered(buffer, k) + [e]) == (flat + Buffered(buffer, k)) + [e];
    } else {
      assert flat + Buffered(buffer, k) + [] == flat + Buffered(buffer, k);
    }
  }

  lemma FlattenedPushed(batches: seq<Batch>, batch: Batch, gk: GroupKey, events: seq<Event>, k: GroupKey)
    requires events != [] && events[0].key == gk.key
    ensures Flattened(Handed(batches + [Pushed(batch, gk.group, Group(events))], k.group), k.key)
      == Flattened(Handed(batches + [batch], k.group), k.key) + if k == gk then events else []
  {
    HandedPushed(batches, batch, gk.group, Group(events), k.group);
    FlattenedAppend(Handed(batches + [batch], k.group), Group(events), k.key);
    hide Flattened, Handed, Pushed;
    assert Handed(batches + [batch], k.group) + [] == Handed(batches + [batch], k.group);
  }

  lemma EmptyRight<T>(a: seq<T>)
    ensures a + [] == a
  {
  }

  lemma StreamGrouped(batches: seq<Batch>, batch: Batch, buffer: Buffer, gk: GroupKey, k: GroupKey)
    requires gk in buffer && buffer[gk] != [] && buffer[gk][0].key == gk.key
    ensures Stream(batches + [Pushed(batch, gk.group, Group(buffer[gk]))], buffer - {gk}, k)
      == Stream(batches + [batch], buffer, k)
  {
    FlattenedPushed(batches, batch, gk, buffer[gk], k);
    hide Flattened, Handed, Pushed;
    var flat := Flattened(Handed(batches + [batch], k.group), k.key);
    if k == gk {
      EmptyRight(flat + buffer[gk]);
    } else {
      EmptyRight(flat);
    }
  }

  lemma BufferedKeepsConserved(
      g: Grouping, batches: seq<Batch>, buffer: Buffer, batches0: seq<Batch>, buffer0: Buffer,
      es: seq<Event>, e: Event, gk: GroupKey)
    requires Conserved(g, batches, buffer, batches0, buffer0, es)
    requires Belongs(g, e, gk)
    ensures Conserved(g, batches, buffer[gk := Buffered(buffer, gk) + [e]], batches0, buffer0, es + [e])
  {
    var buffer' := buffer[gk := Buffered(buffer, gk) + [e]];
    forall n | n !in g.groupOf && n !in g.size
      ensures Handed(batches, n) == Handed(batches0, n) + Singles(es + [e], n)
    {
      SinglesAppend(es, e, n);
      assert Singles(es, n) + [] == Singles(es, n);
    }
    forall k: GroupKey | k.group in g.size
      ensures Stream(batches, buffer', k) == Stream(batches0, buffer0, k) + Members(g, es + [e], k)
    {
      StreamBuffered(batches, buffer, gk, e, k);
      MembersAppend(g, es, e, k);
      hide Stream, Members, Handed, Singles;
      Associates(Stream(batches0, buffer0, k), Members(g, es, k), if Belongs(g, e, k) then [e] else []);
    }
  }

  lemma GroupKeepsConserved(
      g: Grouping, batches: seq<Batch>, batch: Batch, buffer: Buffer, batches0: seq<Batch>, buffer0: Buffer,
      es: seq<Event>, gk: GroupKey)
    requires Conserved(g, batches + [batch], buffer, batches0, buffer0, es)
    requires gk in buffer && buffer[gk] != [] && buffer[gk][0].key == gk.key && gk.group in g.size
    ensures Conserved(g, batches + [Pushed(batch, gk.group, Group(buffer[gk]))], buffer - {gk}, batches0, buffer0, es)
  {
    var item := Group(buffer[gk]);
    var batches' := batches + [Pushed(batch, gk.group, item)];
    forall n | n !in g.groupOf && n !in g.size
      ensures Handed(batches', n) == Handed(batches + [batch], n)
    {
      HandedPushed(batches, batch, gk.group, item, n);
      assert Handed(batches + [batch], n) + [] == Handed(batches + [batch], n);
    }
    forall k: GroupKey | k.group in g.size
      ensures Stream(batches', buffer - {gk}, k) == Stream(batches + [batch], buffer, k)
    {
      StreamGrouped(batches, batch, buffer, gk, k);
    }
  }

  lemma FlushKeepsConserved(
      g: Grouping, batches: seq<Batch>, buffer: Buffer, batches0: seq<Batch>, buffer0: Buffer, es: seq<Event>)
    requires Conserved(g, batches, buffer, batches0, buffer0, es)
    ensures Conserved(g, batches + [map[]], buffer, batches0, buffer0, es)
  {
    forall n
      ensures Handed(batches + [map[]], n) == Handed(batches, n)
    {
      HandedFlushed(batches, n);
    }
  }

  // ----- Calls of handlers -----

  /** One call of the handler of a name, with the items it gets. */
  datatype HandlerCall = HandlerCall(name: Name, items: seq<Item>)

  /** The calls for one batch: each of its names once, with all its items. */
  ghost predicate OneCallPerName(batch: Batch, calls: seq<HandlerCall>) {
    && (forall i, j :: 0 <= i < j < |calls| ==> calls[i].name != calls[j].name)
    && (forall i :: 0 <= i < |calls| ==> calls[i].name in batch && calls[i].items == batch[calls[i].name])
    && (forall n :: n in batch ==> exists i :: 0 <= i < |calls| && calls[i].name == n)
  }

  /** The calls for a sequence of batches, batch by batch. */
  ghost predicate CallsFor(batches: seq<Batch>, calls: seq<seq<HandlerCall>>) {
    |calls| == |batches| && forall k :: 0 <= k < |batches| ==> OneCallPerName(batches[k], calls[k])
  }

  function AllCalls(calls: seq<seq<HandlerCall>>): seq<HandlerCall> {
    if calls == [] then [] else AllCalls(calls[..|calls| - 1]) + calls[|calls| - 1]
  }

  /** The items that the calls hand to the handler of a name, in order. */
  function ItemsCalled(calls: seq<HandlerCall>, n: Name): seq<Item> {
    if calls == [] then []
    else
      ItemsCalled(calls[..|calls| - 1], n) + if calls[|calls| - 1].name == n then calls[|calls| - 1].items else []
  }

  lemma {:induction false} ItemsCalledConcat(a: seq<HandlerCall>, b: seq<HandlerCall>, n: Name)
    ensures ItemsCalled(a + b, n) == ItemsCalled(a, n) + ItemsCalled(b, n)
    decreases |b|
  {
    if b == [] {
      assert a + b == a;
    } else {
      var front, last := b[..|b| - 1], b[|b| - 1];
      ItemsCalledConcat(a, front, n);
      assert (a + b)[..|a + b| - 1] == a + front;
      Associates(ItemsCalled(a, n), ItemsCalled(front, n), if last.name == n then last.items else []);
    }
  }

  lemma {:induction false} NoItemsCalled(calls: seq<HandlerCall>, n: Name)
    requires forall i :: 0 <= i < |calls| ==> calls[i].name != n
    ensures ItemsCalled(calls, n) == []
  {
    if calls != [] {
      NoItemsCalled(calls[..|calls| - 1], n);
    }
  }

  lemma ItemsCalledAround(calls: seq<HandlerCall>, i: nat, n: Name)
    requires i < |calls| && calls[i].name == n
    requires ItemsCalled(calls[..i], n) == [] && ItemsCalled(calls[i + 1..], n) == []
    ensures ItemsCalled(calls, n) == calls[i].items
  {
    assert calls == (calls[..i] + [calls[i]]) + calls[i + 1..];
    ItemsCalledConcat(calls[..i] + [calls[i]], calls[i + 1..], n);
    assert (calls[..i] + [calls[i]])[..i] == calls[..i];
  }

  /** A handler gets from the calls for a batch exactly what the batch holds for it. */
  lemma ItemsOfBatch(batch: Batch, calls: seq<HandlerCall>, n: Name)
    requires OneCallPerName(batch, calls)
    ensures ItemsCalled(calls, n) == ItemsOf(batch, n)
  {
    hide ItemsCalled;
    if n in batch {
      var i :| 0 <= i < |calls| && calls[i].name == n;
      NoItemsCalled(calls[..i], n);
      NoItemsCalled(calls[i + 1..], n);
      ItemsCalledAround(calls, i, n);
    } else {
      NoItemsCalled(calls, n);
    }
  }

  /** What the handlers are called with is what was handed out. */
  lemma {:induction false} HandedIsCalled(batches: seq<Batch>, calls: seq<seq<HandlerCall>>, n: Name)
    requires CallsFor(batches, calls)
    ensures ItemsCalled(AllCalls(calls), n) == Handed(batches, n)
    decreases |batches|
  {
    if batches != [] {
      var k := |batches| - 1;
      HandedIsCalled(batches[..k], calls[..k], n);
      ItemsOfBatch(batches[k], calls[k], n);
      ItemsCalledConcat(AllCalls(calls[..k]), calls[k], n);
    }
  }

  lemma AllCallsAppend(calls: seq<seq<HandlerCall>>, more: seq<HandlerCall>)
    ensures AllCalls(calls + [more]) == AllCalls(calls) + more
  {
    assert (calls + [more])[..|calls|] == calls;
  }

  // ----- Which events get marked as processed -----

  /** The ids of the single events among the items; a group has no id of its own. */
  function SingleIds(items: seq<Item>): set<nat> {
    set i | 0 <= i < |items| && items[i].Single? :: items[i].event.id
  }

  /** The single events of a batch under some names, as far as their handlers succeeded. */
  ghost function Marked(batch: Batch, names: set<Name>, succeeds: (Name, seq<Item>) -> bool): set<nat> {
    set name, id | name in names && name in batch && succeeds(name, batch[name]) && id in SingleIds(batch[name]) :: id
  }

  ghost function MarkedIn(batches: seq<Batch>, succeeds: (Name, seq<Item>) -> bool): set<nat> {
    if batches == [] then {}
    else
      var last := batches[|batches| - 1];
      MarkedIn(batches[..|batches| - 1], succeeds) + Marked(last, last.Keys, succeeds)
  }

  lemma MarkedOneMore(batch: Batch, names: set<Name>, name: Name, succeeds: (Name, seq<Item>) -> bool)
    requires name in batch
    ensures Marked(batch, names + {name}, succeeds)
      == Marked(batch, names, succeeds) + if succeeds(name, batch[name]) then SingleIds(batch[name]) else {}
  {
    hide SingleIds;
  }

  ghost function GroupedIds(g: Grouping, es: seq<Event>): set<nat> {
    set e | e in es && e.name in g.groupOf :: e.id
  }

  lemma MarkedInAppend(batches: seq<Batch>, batch: Batch, succeeds: (Name, seq<Item>) -> bool)
    ensures MarkedIn(batches + [batch], succeeds) == MarkedIn(batches, succeeds) + Marked(batch, batch.Keys, succeeds)
  {
    assert (batches + [batch])[..|batches|] == batches;
  }

  // ----- Sequences of calls -----

  lemma {:induction false} SinglesConcat(a: seq<Event>, b: seq<Event>, n: Name)
    ensures Singles(a + b, n) == Singles(a, n) + Singles(b, n)
    decreases |b|
  {
    if b == [] {
      assert a + b == a;
    } else {
      var front, last := b[..|b| - 1], b[|b| - 1];
      SinglesConcat(a, front, n);
      assert a + b == (a + front) + [last] && b == front + [last];
      SinglesAppend(a + front, last, n);
      SinglesAppend(front, last, n);
    }
  }

  lemma {:induction false} MembersConcat(g: Grouping, a: seq<Event>, b: seq<Event>, gk: GroupKey)
    ensures Members(g, a + b, gk) == Members(g, a, gk) + Members(g, b, gk)
    decreases |b|
  {
    if b == [] {
      assert a + b == a;
    } else {
      var front, last := b[..|b| - 1], b[|b| - 1];
      MembersConcat(g, a, front, gk);
      assert a + b == (a + front) + [last] && b == front + [last];
      MembersAppend(g, a + front, last, gk);
      MembersAppend(g, front, last, gk);
    }
  }

  /** Conservation holds over any sequence of calls, not just over one. */
  lemma ConservedOverCalls(
      g: Grouping, batches0: seq<Batch>, buffer0: Buffer, batches1: seq<Batch>, buffer1: Buffer,
      batches2: seq<Batch>, buffer2: Buffer, es1: seq<Event>, es2: seq<Event>)
    requires Conserved(g, batches1, buffer1, batches0, buffer0, es1)
    requires Conserved(g, batches2, buffer2, batches1, buffer1, es2)
    ensures Conserved(g, batches2, buffer2, batches0, buffer0, es1 + es2)
  {
    forall n | n !in g.groupOf && n !in g.size
      ensures Handed(batches2, n) == Handed(batches0, n) + Singles(es1 + es2, n)
    {
      SinglesConcat(es1, es2, n);
      hide Handed, Singles, Stream, Members;
      Associates(Handed(batches0, n), Singles(es1, n), Singles(es2, n));
    }
    forall gk: GroupKey | gk.group in g.size
      ensures Stream(batches2, buffer2, gk) == Stream(batches0, buffer0, gk) + Members(g, es1 + es2, gk)
    {
      MembersConcat(g, es1, es2, gk);
      hide Handed, Singles, Stream, Members;
      Associates(Stream(batches0, buffer0, gk), Members(g, es1, gk), Members(g, es2, gk));
    }
  }

  lemma {:induction false} SinglesCount(es: seq<Event>, e: Event)
    ensures multiset(Singles(es, e.name))[Single(e)] == multiset(es)[e]
  {
    if es != [] {
      SinglesCount(es[..|es| - 1], e);
      assert es == es[..|es| - 1] + [es[|es| - 1]];
    }
  }

  lemma {:induction false} MembersCount(g: Grouping, es: seq<Event>, e: Event, gk: GroupKey)
    ensures multiset(Members(g, es, gk))[e] == if Belongs(g, e, gk) then multiset(es)[e] else 0
  {
    if es != [] {
      MembersCount(g, es[..|es| - 1], e, gk);
      assert es == es[..|es| - 1] + [es[|es| - 1]];
    }
  }

  /** Starting from nothing, every event outside groups is handed out exactly as often as it arrived, and every grouped
      event is, as often as it arrived, either still buffered or in a group that was handed out. */
  lemma EveryEventIsAccountedFor(g: Grouping, batches: seq<Batch>, buffer: Buffer, es: seq<Event>, e: Event)
    requires Conserved(g, batches, buffer, [], map[], es) && g.Valid(es) && e in es
    ensures e.name !in g.groupOf ==> multiset(Handed(batches, e.name))[Single(e)] == multiset(es)[e]
    ensures e.name in g.groupOf ==>
      var gk := GroupKey(g.groupOf[e.name], e.key);
      multiset(Flattened(Handed(batches, gk.group), gk.key))[e] + multiset(Buffered(buffer, gk))[e] == multiset(es)[e]
  {
    hide Handed, Singles, Stream, Members, Flattened, Buffered;
    if e.name !in g.groupOf {
      HandedFromNothing(g, batches, buffer, es, e.name);
      SinglesCount(es, e);
    } else {
      var gk := GroupKey(g.groupOf[e.name], e.key);
      StreamFromNothing(g, batches, buffer, es, gk);
      MembersCount(g, es, e, gk);
    }
  }

  lemma HandedFromNothing(g: Grouping, batches: seq<Batch>, buffer: Buffer, es: seq<Event>, n: Name)
    requires Conserved(g, batches, buffer, [], map[], es) && n !in g.groupOf && n !in g.size
    ensures Handed(batches, n) == Singles(es, n)
  {
    assert Handed([], n) == [];
    hide Handed, Singles, Stream;
    assert [] + Singles(es, n) == Singles(es, n);
  }

  lemma StreamFromNothing(g: Grouping, batches: seq<Batch>, buffer: Buffer, es: seq<Event>, gk: GroupKey)
    requires Conserved(g, batches, buffer, [], map[], es) && gk.group in g.size
    ensures Flattened(Handed(batches, gk.group), gk.key) + Buffered(buffer, gk) == Members(g, es, gk)
  {
    EmptyStream(gk);
    hide Flattened, Handed, Members, Buffered, Singles;
    assert Stream(batches, buffer, gk) == Stream([], map[], gk) + Members(g, es, gk);
    assert [] + Members(g, es, gk) == Members(g, es, gk);
  }

  lemma EmptyStream(gk: GroupKey)
    ensures Stream([], map[], gk) == []
  {
  }
}
