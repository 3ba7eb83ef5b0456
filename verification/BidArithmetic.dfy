/** Suggested token amounts, and the bid a node computes back from the tokens of an agreement. */
module BidArithmetic {
  import opened Arithmetic
  import LinearSum

  const BYTES_IN_KILOBYTE := 1024
  const LOW_BID_SUGGESTION_OFFSET := 9
  const MED_BID_SUGGESTION_OFFSET := 11
  const HIGH_BID_SUGGESTION_OFFSET := 14

  datatype Result<+T> = Ok(value: T) | NoPeers | DivisionByZero

  datatype Agreement = Agreement(
    startTime: int, epochLength: int, epochsNumber: int, tokenAmount: nat, updateTokenAmount: nat)

  // ----- Suggestion -----

  /** The sort of the peers by ask, on the asks alone. */
  predicate Sorted(asks: seq<nat>) {
    forall i, j :: 0 <= i < j < |asks| ==> asks[i] <= asks[j]
  }

  function KbSize(assertionSize: nat): nat {
    if assertionSize < BYTES_IN_KILOBYTE then BYTES_IN_KILOBYTE else assertionSize
  }

  /** Tokens for an ask in wei per kilobyte and epoch. */
  function TokensFor(ask: nat, kbSize: nat, epochsNumber: nat, r0: nat): nat {
    ask * kbSize * epochsNumber * r0 / BYTES_IN_KILOBYTE
  }

  function EffectiveOffset(askOffset: nat, peers: nat): nat
    requires peers >= 1
  {
    if askOffset < peers - 1 then askOffset else peers - 1
  }

  function CalculateBidSuggestion(
      askOffset: nat, sorted: seq<nat>, kbSize: nat, epochsNumber: nat, r0: nat): Result<nat>
  {
    if sorted == [] then NoPeers
    else Ok(TokensFor(sorted[EffectiveOffset(askOffset, |sorted|)], kbSize, epochsNumber, r0))
  }

  lemma TokensMono(ask1: nat, ask2: nat, kbSize: nat, epochsNumber: nat, r0: nat)
    requires ask1 <= ask2
    ensures TokensFor(ask1, kbSize, epochsNumber, r0) <= TokensFor(ask2, kbSize, epochsNumber, r0)
  {
    MulMono(ask1, ask2, kbSize);
    MulMono(ask1 * kbSize, ask2 * kbSize, epochsNumber);
    MulMono(ask1 * kbSize * epochsNumber, ask2 * kbSize * epochsNumber, r0);
    DivMono(ask1 * kbSize * epochsNumber * r0, ask2 * kbSize * epochsNumber * r0, BYTES_IN_KILOBYTE);
  }

  /** A suggestion from a lower rank is never higher, so that low <= med <= high; without peers all three fail. */
  lemma SuggestionsAreOrdered(sorted: seq<nat>, kbSize: nat, epochsNumber: nat, r0: nat)
    requires Sorted(sorted)
    ensures var low := CalculateBidSuggestion(LOW_BID_SUGGESTION_OFFSET, sorted, kbSize, epochsNumber, r0);
      var med := CalculateBidSuggestion(MED_BID_SUGGESTION_OFFSET, sorted, kbSize, epochsNumber, r0);
      var high := CalculateBidSuggestion(HIGH_BID_SUGGESTION_OFFSET, sorted, kbSize, epochsNumber, r0);
      if sorted == [] then low == med == high == NoPeers
      else low.Ok? && med.Ok? && high.Ok? && low.value <= med.value <= high.value
  {
    if sorted != [] {
      var i := EffectiveOffset(LOW_BID_SUGGESTION_OFFSET, |sorted|);
      var j := EffectiveOffset(MED_BID_SUGGESTION_OFFSET, |sorted|);
      var k := EffectiveOffset(HIGH_BID_SUGGESTION_OFFSET, |sorted|);
      TokensMono(sorted[i], sorted[j], kbSize, epochsNumber, r0);
      TokensMono(sorted[j], sorted[k], kbSize, epochsNumber, r0);
    }
  }

  /** The tokens of a suggestion for an ask: its price per kilobyte, epoch and replica, for at least a kilobyte, rounded
      down to whole wei. */
  predicate IsPrice(tokens: nat, ask: nat, size: nat, epochsNumber: nat, r0: nat) {
    var kb := if size < 1024 then 1024 else size;
    1024 * tokens <= ask * kb * epochsNumber * r0 < 1024 * (tokens + 1)
  }

  lemma TokensArePrice(ask: nat, size: nat, epochsNumber: nat, r0: nat)
    ensures IsPrice(TokensFor(ask, KbSize(size), epochsNumber, r0), ask, size, epochsNumber, r0)
  {
  }

  /** The three suggestions are the prices of the asks of the 10th, 12th and 15th cheapest peer, or of the dearest one
      if there are fewer peers. */
  lemma SuggestionsAreRankedAsks(sorted: seq<nat>, size: nat, epochsNumber: nat, r0: nat)
    requires sorted != []
    ensures var low := CalculateBidSuggestion(LOW_BID_SUGGESTION_OFFSET, sorted, KbSize(size), epochsNumber, r0);
      low.Ok? && IsPrice(low.value, sorted[if |sorted| < 10 then |sorted| - 1 else 9], size, epochsNumber, r0)
    ensures var med := CalculateBidSuggestion(MED_BID_SUGGESTION_OFFSET, sorted, KbSize(size), epochsNumber, r0);
      med.Ok? && IsPrice(med.value, sorted[if |sorted| < 12 then |sorted| - 1 else 11], size, epochsNumber, r0)
    ensures var high := CalculateBidSuggestion(HIGH_BID_SUGGESTION_OFFSET, sorted, KbSize(size), epochsNumber, r0);
      high.Ok? && IsPrice(high.value, sorted[if |sorted| < 15 then |sorted| - 1 else 14], size, epochsNumber, r0)
  {
    TokensArePrice(sorted[if |sorted| < 10 then |sorted| - 1 else 9], size, epochsNumber, r0);
    TokensArePrice(sorted[if |sorted| < 12 then |sorted| - 1 else 11], size, epochsNumber, r0);
    TokensArePrice(sorted[if |sorted| < 15 then |sorted| - 1 else 14], size, epochsNumber, r0);
    hide IsPrice, TokensFor, KbSize;
  }

  /** A suggestion pays for no dearer peer than the one at its rank. */
  lemma SuggestionIsNoHigher(askOffset: nat, sorted: seq<nat>, kbSize: nat, epochsNumber: nat, r0: nat, i: nat)
    requires Sorted(sorted) && askOffset <= i < |sorted|
    ensures var suggestion := CalculateBidSuggestion(askOffset, sorted, kbSize, epochsNumber, r0);
      suggestion.Ok? && suggestion.value <= TokensFor(sorted[i], kbSize, epochsNumber, r0)
  {
    TokensMono(sorted[EffectiveOffset(askOffset, |sorted|)], sorted[i], kbSize, epochsNumber, r0);
  }

  // ----- Bid -----

  /** Epochs are counted with a floor; the length is positive. */
  function CurrentEpoch(a: Agreement, now: int): int
    requires a.epochLength >= 1
  {
    (now - a.startTime) / a.epochLength
  }

  function EpochsLeft(a: Agreement, now: int): int
    requires a.epochLength >= 1
  {
    a.epochsNumber - CurrentEpoch(a, now)
  }

  /** The bid in wei per kilobyte and epoch; it throws in the very epoch in which no epochs are left. */
  function CalculateBid(a: Agreement, now: int, size: nat, r0: nat): Result<int>
    requires a.epochLength >= 1
  {
    var divisor := r0 * EpochsLeft(a, now) * size;
    if divisor == 0 then DivisionByZero
    else Ok(LinearSum.Div((a.tokenAmount + a.updateTokenAmount) * 1024, divisor) + 1)
  }

  /** The paid amount and what a bid is measured against are the same product, except for elapsed epochs and padding. */
  lemma PaidCoversDivisor(ask: nat, kb: nat, e: nat, left: nat, r0: nat, size: nat)
    requires left <= e && size <= kb
    ensures ask * (r0 * left * size) <= ask * kb * e * r0
    ensures left == e && size == kb ==> ask * (r0 * left * size) == ask * kb * e * r0
  {
    MulMono(size, kb, r0 * left);
    MulMono(left, e, kb * r0);
    assert kb * (r0 * left) == left * (kb * r0);
    assert e * (kb * r0) == kb * e * r0;
    MulMono(r0 * left * size, kb * e * r0, ask);
    assert ask * kb * e * r0 == (kb * e * r0) * ask;
    assert left == e && size == kb ==> r0 * left * size == kb * e * r0;
  }

  lemma DivisorAtLeastSize(r0: nat, left: nat, size: nat)
    requires r0 >= 1 && left >= 1
    ensures r0 * left * size >= size
  {
    MulMono(1, left, r0);
    MulMono(1, r0 * left, size);
  }

  /** Rounding the tokens down and dividing by at least a kilobyte costs less than one unit of the quotient. */
  lemma FloorsCovered(ask: nat, divisor: nat, x: nat, tokens: nat)
    requires divisor >= 1 && ask * divisor <= x && tokens >= x / 1024
    requires x % 1024 == 0 || divisor >= 1024
    ensures ask <= tokens * 1024 / divisor + 1
  {
    if x % 1024 == 0 {
      DivAtLeast(tokens * 1024, divisor, ask);
    } else if ask >= 1 {
      assert (ask - 1) * divisor == ask * divisor - divisor;
      DivAtLeast(tokens * 1024, divisor, ask - 1);
    }
  }

  /** Two floors cost less than one wei of the ask, so that adding one wei makes up for them. */
  lemma BidCoversAskArithmetic(ask: nat, e: nat, left: nat, r0: nat, size: nat, tokens: nat)
    requires size >= 1 && r0 >= 1 && 1 <= left <= e
    requires tokens >= TokensFor(ask, KbSize(size), e, r0)
    ensures r0 * left * size >= 1
    ensures ask <= tokens * 1024 / (r0 * left * size) + 1
  {
    var kb := KbSize(size);
    DivisorAtLeastSize(r0, left, size);
    PaidCoversDivisor(ask, kb, e, left, r0, size);
    if size < 1024 {
      KilobyteFactor(ask, e, r0);
    }
    FloorsCovered(ask, r0 * left * size, ask * kb * e * r0, tokens);
  }

  lemma KilobyteFactor(ask: nat, e: nat, r0: nat)
    ensures (ask * 1024 * e * r0) % 1024 == 0
  {
    assert ask * 1024 * e * r0 == (ask * e * r0) * 1024 + 0;
    DivModUnique(ask * 1024 * e * r0, 1024, ask * e * r0, 0);
  }

  lemma ExactQuotient(ask: nat, divisor: nat, tokens: nat)
    requires divisor >= 1024 && tokens == ask * divisor / 1024
    ensures tokens * 1024 / divisor == if (ask * divisor) % 1024 == 0 then ask else ask - 1
  {
    var rest := (ask * divisor) % 1024;
    assert tokens * 1024 == ask * divisor - rest;
    if rest == 0 {
      DivModUnique(tokens * 1024, divisor, ask, 0);
    } else {
      assert (ask - 1) * divisor == ask * divisor - divisor;
      DivModUnique(tokens * 1024, divisor, ask - 1, divisor - rest);
    }
  }

  predicate Unexpired(a: Agreement, now: int)
    requires a.epochLength >= 1
  {
    CurrentEpoch(a, now) < a.epochsNumber
  }

  /** The agreement pays at least what was suggested for this ask. */
  predicate PaysFor(a: Agreement, ask: nat, size: nat, r0: nat) {
    a.epochsNumber >= 1 && a.tokenAmount + a.updateTokenAmount >= TokensFor(ask, KbSize(size), a.epochsNumber, r0)
  }

  lemma EpochNotNegative(a: Agreement, now: int)
    requires a.epochLength >= 1 && now >= a.startTime
    ensures CurrentEpoch(a, now) >= 0
  {
  }

  /** After the end of the agreement only an ask of 0 or 1 wei can be met, if the tokens are few enough. */
  predicate MetAfterEnd(a: Agreement, now: int, ask: nat, size: nat, r0: nat)
    requires a.epochLength >= 1
  {
    && EpochsLeft(a, now) < 0 && ask <= 1
    && (a.tokenAmount + a.updateTokenAmount) * 1024 < (2 - ask) * (r0 * -EpochsLeft(a, now) * size)
  }

  /** Once the agreement has started, the bid is at least the ask that the tokens were computed from exactly as long as
      the agreement has not expired, except for asks of 0 or 1 wei that are still met after its end. */
  lemma BidCoversAskIff(a: Agreement, now: int, ask: nat, size: nat, r0: nat)
    requires a.epochLength >= 1 && now >= a.startTime && size >= 1 && r0 >= 1 && PaysFor(a, ask, size, r0)
    ensures var bid := CalculateBid(a, now, size, r0);
      bid.Ok? && bid.value >= ask <==> Unexpired(a, now) || MetAfterEnd(a, now, ask, size, r0)
    ensures CalculateBid(a, now, size, r0).DivisionByZero? <==> EpochsLeft(a, now) == 0
  {
    EpochNotNegative(a, now);
    var left := EpochsLeft(a, now);
    var paid := a.tokenAmount + a.updateTokenAmount;
    if left >= 1 {
      BidCoversAskArithmetic(ask, a.epochsNumber, left, r0, size, paid);
    } else if left <= -1 {
      DivisorAtLeastSize(r0, -left, size);
      assert r0 * left == -(r0 * -left);
      NegatedProduct(r0 * -left, size);
      BidAfterEnd(paid * 1024, r0 * -left * size, ask);
    } else {
      assert r0 * left * size == 0;
    }
  }

  lemma NegatedProduct(a: int, b: int)
    ensures (-a) * b == -(a * b)
  {
  }

  lemma BidAfterEnd(x: nat, k: int, ask: nat)
    requires k >= 1
    ensures LinearSum.Div(x, -k) + 1 >= ask <==> ask <= 1 && x < (2 - ask) * k
  {
    assert LinearSum.Div(x, -k) == -(x / k);
    DivAtLeast(x, k, 1);
    DivAtLeast(x, k, 2);
  }

  /** The bid is what the paid tokens amount to per kilobyte, replica and epoch that is left, rounded down, plus one
      wei; it throws exactly in the epoch in which none is left. */
  lemma BidIsFloorPlusOne(a: Agreement, now: int, size: nat, r0: nat)
    requires a.epochLength >= 1 && size >= 1 && r0 >= 1
    ensures var paid, bid := 1024 * (a.tokenAmount + a.updateTokenAmount), CalculateBid(a, now, size, r0);
      var left := a.epochsNumber - (now - a.startTime) / a.epochLength;
      && (bid.Ok? <==> left != 0) && !bid.NoPeers?
      && (left > 0 ==> (bid.value - 1) * (r0 * left * size) <= paid < bid.value * (r0 * left * size))
      && (left < 0 ==> (1 - bid.value) * (r0 * -left * size) <= paid < (2 - bid.value) * (r0 * -left * size))
  {
    var paid := (a.tokenAmount + a.updateTokenAmount) * 1024;
    var left := EpochsLeft(a, now);
    if left > 0 {
      DivisorAtLeastSize(r0, left, size);
      FloorOf(paid, r0 * left * size);
    } else if left < 0 {
      DivisorAtLeastSize(r0, -left, size);
      assert r0 * left == -(r0 * -left);
      NegatedProduct(r0 * -left, size);
      FloorOf(paid, r0 * -left * size);
      assert LinearSum.Div(paid, r0 * left * size) == -(paid / (r0 * -left * size));
    } else {
      assert r0 * left * size == 0;
    }
  }

  lemma FloorOf(x: nat, k: int)
    requires k >= 1
    ensures (x / k) * k <= x < (x / k + 1) * k
  {
    DivBounds(x, k);
    assert (x / k + 1) * k == (x / k) * k + k;
  }

  /** In the first epoch, for assertions of at least a kilobyte, the bid is the ask or one wei more, and one wei more
      exactly if no token was lost to rounding. */
  lemma FirstEpochBid(a: Agreement, now: int, ask: nat, size: nat, r0: nat)
    requires a.epochLength >= 1 && CurrentEpoch(a, now) == 0 && a.epochsNumber >= 1 && r0 >= 1 && size >= 1024
    requires a.tokenAmount == TokensFor(ask, KbSize(size), a.epochsNumber, r0) && a.updateTokenAmount == 0
    ensures CalculateBid(a, now, size, r0) ==
      Ok(if (ask * size * a.epochsNumber * r0) % 1024 == 0 then ask + 1 else ask)
  {
    var divisor := r0 * a.epochsNumber * size;
    DivisorAtLeastSize(r0, a.epochsNumber, size);
    PaidCoversDivisor(ask, size, a.epochsNumber, a.epochsNumber, r0, size);
    ExactQuotient(ask, divisor, a.tokenAmount);
  }

  /** An agreement that pays the suggestion of a rank bids at least the ask of every peer up to that rank, until it
      expires: of the 10 cheapest peers for the low, 12 for the medium and 15 for the high suggestion. */
  lemma SuggestionCoversPeers(a: Agreement, now: int, askOffset: nat, sorted: seq<nat>, size: nat, r0: nat, i: nat)
    requires Sorted(sorted) && i < |sorted| && i <= askOffset && size >= 1 && r0 >= 1
    requires a.epochLength >= 1 && a.epochsNumber >= 1 && now >= a.startTime && Unexpired(a, now)
    requires CalculateBidSuggestion(askOffset, sorted, KbSize(size), a.epochsNumber, r0) == Ok(a.tokenAmount)
    ensures CalculateBid(a, now, size, r0).Ok? && CalculateBid(a, now, size, r0).value >= sorted[i]
  {
    BidCoversAskIff(a, now, sorted[EffectiveOffset(askOffset, |sorted|)], size, r0);
  }
}
