/** The ingester's order book: numeric levels, a sequence guard, and the refusal of a
    best bid at or above the best ask.  `Trim` keeps the best levels of each side. */
module OrderBook {
  import opened Levels
  import J = Journal

  datatype Violation = SnapshotCrossed | NonMonotonicSeq | CrossedAfterDelta

  // ---------- trimming ----------

  /** The prices to drop, lowest first, until `depth` remain. */
  function LowestExcess(keys: set<real>, depth: nat): seq<real> {
    if |keys| <= depth then [] else [MinOf(keys)] + LowestExcess(keys - {MinOf(keys)}, depth)
  }

  function HighestExcess(keys: set<real>, depth: nat): seq<real> {
    if |keys| <= depth then [] else [MaxOf(keys)] + HighestExcess(keys - {MaxOf(keys)}, depth)
  }

  function PriceSet(prices: seq<real>): set<real> {
    set p | p in prices
  }

  lemma PriceSetPush(prices: seq<real>, p: real)
    ensures PriceSet(prices + [p]) == PriceSet(prices) + {p}
    ensures PriceSet([p] + prices) == {p} + PriceSet(prices)
  {
  }

  lemma PushAssociates<T>(a: seq<T>, x: T, b: seq<T>)
    ensures a + ([x] + b) == (a + [x]) + b
  {
  }

  /** What trimming leaves. */
  function Trimmed(d: Depth<real>, depth: nat): Depth<real> {
    Depth(d.bids - PriceSet(LowestExcess(d.bids.Keys, depth)), d.asks - PriceSet(HighestExcess(d.asks.Keys, depth)))
  }

  lemma MinusTwice(keys: set<real>, m: real, rest: set<real>)
    ensures keys - ({m} + rest) == (keys - {m}) - rest
  {
  }

  lemma MinusNothing(keys: set<real>)
    ensures keys - PriceSet([]) == keys
  {
  }

  lemma {:induction false} LowestCount(keys: set<real>, depth: nat)
    ensures var gone := PriceSet(LowestExcess(keys, depth));
            gone <= keys && |keys - gone| == if |keys| <= depth then |keys| else depth
  {
    if |keys| > depth {
      var m := MinOf(keys);
      LowestCount(keys - {m}, depth);
      PriceSetPush(LowestExcess(keys - {m}, depth), m);
      MinusTwice(keys, m, PriceSet(LowestExcess(keys - {m}, depth)));
    } else {
      MinusNothing(keys);
    }
  }

  lemma {:induction false} LowestAreWorst(keys: set<real>, depth: nat, p: real, q: real)
    requires p in LowestExcess(keys, depth) && q in keys && q !in LowestExcess(keys, depth)
    ensures p < q
  {
    var m := MinOf(keys);
    var rest := LowestExcess(keys - {m}, depth);
    assert LowestExcess(keys, depth) == [m] + rest;
    assert m in [m] + rest;
    if p != m {
      assert p in rest && q !in rest;
      LowestAreWorst(keys - {m}, depth, p, q);
    }
  }

  lemma {:induction false} HighestCount(keys: set<real>, depth: nat)
    ensures var gone := PriceSet(HighestExcess(keys, depth));
            gone <= keys && |keys - gone| == if |keys| <= depth then |keys| else depth
  {
    if |keys| > depth {
      var m := MaxOf(keys);
      HighestCount(keys - {m}, depth);
      PriceSetPush(HighestExcess(keys - {m}, depth), m);
      MinusTwice(keys, m, PriceSet(HighestExcess(keys - {m}, depth)));
    } else {
      MinusNothing(keys);
    }
  }

  lemma {:induction false} HighestAreWorst(keys: set<real>, depth: nat, p: real, q: real)
    requires p in HighestExcess(keys, depth) && q in keys && q !in HighestExcess(keys, depth)
    ensures q < p
  {
    var m := MaxOf(keys);
    var rest := HighestExcess(keys - {m}, depth);
    assert HighestExcess(keys, depth) == [m] + rest;
    assert m in [m] + rest;
    if p != m {
      assert p in rest && q !in rest;
      HighestAreWorst(keys - {m}, depth, p, q);
    }
  }

  /** Trimming keeps exactly the `depth` best levels of each side: as many as there are up
      to `depth`, all better than any level dropped. */
  lemma TrimKeepsBest(d: Depth<real>, depth: nat)
    ensures var t := Trimmed(d, depth);
            && t.bids.Keys <= d.bids.Keys && t.asks.Keys <= d.asks.Keys
            && |t.bids.Keys| == (if |d.bids.Keys| <= depth then |d.bids.Keys| else depth)
            && |t.asks.Keys| == (if |d.asks.Keys| <= depth then |d.asks.Keys| else depth)
            && (forall p, q :: p in d.bids.Keys - t.bids.Keys && q in t.bids.Keys ==> p < q)
            && (forall p, q :: p in d.asks.Keys - t.asks.Keys && q in t.asks.Keys ==> q < p)
            && (forall p :: p in t.bids ==> t.bids[p] == d.bids[p])
            && (forall p :: p in t.asks ==> t.asks[p] == d.asks[p])
  {
    LowestCount(d.bids.Keys, depth);
    HighestCount(d.asks.Keys, depth);
    MinusKeys(d.bids, PriceSet(LowestExcess(d.bids.Keys, depth)));
    MinusKeys(d.asks, PriceSet(HighestExcess(d.asks.Keys, depth)));
    var t := Trimmed(d, depth);
    forall p, q | p in d.bids.Keys - t.bids.Keys && q in t.bids.Keys ensures p < q {
      LowestAreWorst(d.bids.Keys, depth, p, q);
    }
    forall p, q | p in d.asks.Keys - t.asks.Keys && q in t.asks.Keys ensures q < p {
      HighestAreWorst(d.asks.Keys, depth, p, q);
    }
  }

  lemma MinusKeys(s: Side<real>, gone: set<real>)
    ensures (s - gone).Keys == s.Keys - gone
    ensures forall p :: p in s - gone ==> (s - gone)[p] == s[p]
  {
  }

  /** Trimming changes nothing exactly when neither side is deeper than `depth`. */
  lemma TrimIsIdleIff(d: Depth<real>, depth: nat)
    ensures Trimmed(d, depth) == d <==> |d.bids.Keys| <= depth && |d.asks.Keys| <= depth
  {
    LowestCount(d.bids.Keys, depth);
    HighestCount(d.asks.Keys, depth);
    MinusKeys(d.bids, PriceSet(LowestExcess(d.bids.Keys, depth)));
    MinusKeys(d.asks, PriceSet(HighestExcess(d.asks.Keys, depth)));
    if |d.bids.Keys| <= depth && |d.asks.Keys| <= depth {
      MinusEmpty(d.bids);
      MinusEmpty(d.asks);
    }
  }

  lemma MinusEmpty(s: Side<real>)
    ensures s - PriceSet([]) == s
  {
  }

  lemma MinusOneMore(s: Side<real>, prices: seq<real>, p: real)
    ensures (s - PriceSet(prices)) - {p} == s - PriceSet(prices + [p])
  {
    PriceSetPush(prices, p);
  }

  // ---------- the book ----------

  class OrderBook {
    var bids: Side<real>
    var asks: Side<real>
    var sequence: int

    function Levels(): Depth<real>
      reads this
    {
      Depth(bids, asks)
    }

    constructor ()
      ensures Levels() == Empty() && sequence == -1
    {
      bids, asks, sequence := map[], map[], -1;
    }

    /** Nothing is committed if the snapshot itself is crossed. */
    method ApplySnapshot(at: int, u: Update<real>) returns (violation: Option<Violation>)
      modifies this
      ensures violation == if Locked(Build(u)) then Some(SnapshotCrossed) else None
      ensures violation.None? ==> Levels() == Build(u) && sequence == at
      ensures violation.Some? ==> Levels() == old(Levels()) && sequence == old(sequence)
    {
      var newBids, newAsks := map[], map[];
      for i := 0 to |u.bids|
        invariant newBids == Listed(u.bids[..i])
      {
        assert u.bids[..i + 1][..i] == u.bids[..i];
        if u.bids[i].entry.Some? {
          newBids := newBids[u.bids[i].price := u.bids[i].entry.value];
        }
      }
      assert u.bids[..|u.bids|] == u.bids;
      for i := 0 to |u.asks|
        invariant newAsks == Listed(u.asks[..i])
      {
        assert u.asks[..i + 1][..i] == u.asks[..i];
        if u.asks[i].entry.Some? {
          newAsks := newAsks[u.asks[i].price := u.asks[i].entry.value];
        }
      }
      assert u.asks[..|u.asks|] == u.asks;
      if newBids.Keys != {} && newAsks.Keys != {} && MaxOf(newBids.Keys) >= MinOf(newAsks.Keys) {
        return Some(SnapshotCrossed);
      }
      bids, asks, sequence := newBids, newAsks, at;
      return None;
    }

    /** A crossing delta stays applied, without its sequence; the caller marks the book. */
    method ApplyDelta(at: int, u: Update<real>) returns (violation: Option<Violation>)
      modifies this
      ensures violation == if at <= old(sequence) then Some(NonMonotonicSeq)
                           else if Locked(Apply(old(Levels()), u)) then Some(CrossedAfterDelta)
                           else None
      ensures Levels() == if at <= old(sequence) then old(Levels()) else Apply(old(Levels()), u)
      ensures sequence == if violation.None? then at else old(sequence)
    {
      if at <= sequence {
        return Some(NonMonotonicSeq);
      }
      for i := 0 to |u.bids|
        invariant bids == PutAll(old(bids), u.bids[..i])
        invariant asks == old(asks) && sequence == old(sequence)
      {
        assert u.bids[..i + 1][..i] == u.bids[..i];
        if u.bids[i].entry.None? {
          bids := bids - {u.bids[i].price};
        } else {
          bids := bids[u.bids[i].price := u.bids[i].entry.value];
        }
      }
      assert u.bids[..|u.bids|] == u.bids;
      for i := 0 to |u.asks|
        invariant bids == PutAll(old(bids), u.bids)
        invariant asks == PutAll(old(asks), u.asks[..i]) && sequence == old(sequence)
      {
        assert u.asks[..i + 1][..i] == u.asks[..i];
        if u.asks[i].entry.None? {
          asks := asks - {u.asks[i].price};
        } else {
          asks := asks[u.asks[i].price := u.asks[i].entry.value];
        }
      }
      assert u.asks[..|u.asks|] == u.asks;
      if bids.Keys != {} && asks.Keys != {} && MaxOf(bids.Keys) >= MinOf(asks.Keys) {
        return Some(CrossedAfterDelta);
      }
      sequence := at;
      return None;
    }

    /** Drops the worst levels of each side down to `depth`, and names them. */
    method Trim(depth: nat) returns (evictedBids: seq<real>, evictedAsks: seq<real>)
      modifies this`bids, this`asks
      ensures evictedBids == LowestExcess(old(bids).Keys, depth) && evictedAsks == HighestExcess(old(asks).Keys, depth)
      ensures Levels() == Trimmed(old(Levels()), depth)
    {
      evictedBids := TrimBids(depth);
      evictedAsks := TrimAsks(depth);
    }

    method TrimBids(depth: nat) returns (evicted: seq<real>)
      modifies this`bids
      ensures evicted == LowestExcess(old(bids).Keys, depth) && bids == old(bids) - PriceSet(evicted)
    {
      evicted := [];
      MinusEmpty(bids);
      while |bids.Keys| > depth
        invariant evicted + LowestExcess(bids.Keys, depth) == LowestExcess(old(bids).Keys, depth)
        invariant bids == old(bids) - PriceSet(evicted)
        decreases |bids.Keys|
      {
        var p := MinOf(bids.Keys);
        J.ShrinksBy(bids, p);
        MinusOneMore(old(bids), evicted, p);
        PushAssociates(evicted, p, LowestExcess(bids.Keys - {p}, depth));
        evicted := evicted + [p];
        bids := bids - {p};
      }
      assert evicted + [] == evicted;
    }

    method TrimAsks(depth: nat) returns (evicted: seq<real>)
      modifies this`asks
      ensures evicted == HighestExcess(old(asks).Keys, depth) && asks == old(asks) - PriceSet(evicted)
    {
      evicted := [];
      MinusEmpty(asks);
      while |asks.Keys| > depth
        invariant evicted + HighestExcess(asks.Keys, depth) == HighestExcess(old(asks).Keys, depth)
        invariant asks == old(asks) - PriceSet(evicted)
        decreases |asks.Keys|
      {
        var p := MaxOf(asks.Keys);
        J.ShrinksBy(asks, p);
        MinusOneMore(old(asks), evicted, p);
        PushAssociates(evicted, p, HighestExcess(asks.Keys - {p}, depth));
        evicted := evicted + [p];
        asks := asks - {p};
      }
      assert evicted + [] == evicted;
    }

    method Clear()
      modifies this
      ensures Levels() == Empty() && sequence == -1
    {
      bids, asks, sequence := map[], map[], -1;
    }

    /** Every level, best first, as a snapshot lists them. */
    method List() returns (u: Update<real>)
      ensures u == J.ListBook(Levels())
    {
      u := J.ListBook(Depth(bids, asks));
    }
  }
}
