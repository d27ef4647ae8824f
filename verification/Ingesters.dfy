/** The drivers' mutable symbol contexts.  Each method takes exactly the step of the
    function it names in DepthSync.dfy or Kraken.dfy. */
module Ingesters {
  import opened Levels
  import opened Stream
  import OrderBook
  import opened Venue
  import DS = DepthSync
  import K = Kraken
  import J = Journal

  /** How handling one event ended. */
  datatype Ending = Normal | ResyncRequired | BookInvariantError

  function EndingOf(h: DS.Handled): Ending {
    match h
    case Done(_) => Normal
    case Resync(_) => ResyncRequired
    case Broken(_) => BookInvariantError
  }

  /** An event that is not refused: read in and published, unless it does not advance the book
      or the book would lock. */
  predicate Committed(e: Event, ending: Ending, was: DS.Driver, d: DS.Driver) {
    && (ending == Normal <==> e.last > was.bookSeq && !Locked(Apply(was.book, e.update)))
    && (ending == Normal ==>
          d == was.(book := Apply(was.book, e.update), bookSeq := e.last, lastSeq := e.last,
                    published := was.published + [Delta(was.epoch, e.last, e.update, DS.NO_STAMP)]))
    && (ending != Normal ==> ending == BookInvariantError && d.published == was.published)
  }

  /** One symbol of the Binance spot or futures driver. */
  class BinanceSymbol {
    const market: DS.Market
    const book: OrderBook.OrderBook
    var phase: DS.Phase
    var lastSeq: int
    var buffered: seq<Event>
    var fetch: DS.Fetch
    var snapId: Option<int>
    var synced: bool
    var epoch: int
    var published: seq<Message<real>>

    function Value(): DS.Driver
      reads this, book
    {
      DS.Driver(phase, lastSeq, book.Levels(), book.sequence, buffered, fetch, snapId, synced, epoch, published)
    }

    constructor (market: DS.Market)
      ensures Value() == DS.NewDriver() && this.market == market && fresh(book)
    {
      this.market := market;
      book := new OrderBook.OrderBook();
      phase, lastSeq, buffered, fetch := DS.Bootstrap, -1, [], DS.Waiting;
      snapId, synced, epoch, published := None, false, 0, [];
    }

    /** A new connection: everything but the log is forgotten, and the epoch rises even if
        the wall clock went back. */
    method Connect(now: int)
      modifies this, book
      ensures Value() == DS.Step(market, old(Value()), DS.Connect(now))
    {
      epoch := if epoch + 1 > now then epoch + 1 else now;
      buffered, lastSeq := [], -1;
      book.Clear();
      snapId, synced, fetch := None, false, DS.Waiting;
      phase := DS.Buffering;
    }

    method Disconnect()
      modifies this
      ensures Value() == DS.Step(market, old(Value()), DS.Disconnect)
    {
      phase := DS.Stale;
    }

    method FetchDone(result: DS.Fetch)
      modifies this
      ensures Value() == DS.Step(market, old(Value()), DS.Fetched(result))
    {
      fetch := result;
    }

    method CommitEvent(e: Event) returns (ending: Ending)
      modifies this`published, this`lastSeq, book
      ensures var r := DS.Commit(old(Value()), e); Value() == r.d && ending == EndingOf(r)
    {
      var violation := book.ApplyDelta(e.last, e.update);
      if violation.Some? {
        return BookInvariantError;
      }
      published := published + [Delta(epoch, e.last, e.update, DS.NO_STAMP)];
      lastSeq := e.last;
      return Normal;
    }

    /** Spot: consecutive update ids, the first delta straddling the snapshot id. */
    method ApplySpot(e: Event) returns (ending: Ending)
      requires market == DS.Spot
      modifies this, book
      ensures var r := DS.ApplySynced(market, old(Value()), e); Value() == r.d && ending == EndingOf(r)
      ensures e.last <= old(lastSeq) ==> ending == Normal && Value() == old(Value())
      ensures ending == ResyncRequired <==>
                e.last > old(lastSeq)
                && (if old(snapId) == Some(old(lastSeq)) then e.first > old(lastSeq) + 1 else e.first != old(lastSeq) + 1)
      ensures e.last > old(lastSeq) && ending != ResyncRequired ==> Committed(e, ending, old(Value()), Value())
    {
      if e.last <= lastSeq {
        return Normal;
      }
      var isFirst := snapId == Some(lastSeq);
      if isFirst {
        if e.first > lastSeq + 1 {
          return ResyncRequired;
        }
      } else if e.first != lastSeq + 1 {
        return ResyncRequired;
      }
      ending := CommitEvent(e);
    }

    /** Futures: an overlap with the snapshot id once, then the chain of previous ids. */
    method ApplyFutures(e: Event) returns (ending: Ending)
      requires market == DS.Futures
      modifies this, book
      ensures var r := DS.ApplySynced(market, old(Value()), e); Value() == r.d && ending == EndingOf(r)
      ensures ending == ResyncRequired <==>
                if old(synced) then e.prev != old(lastSeq) else e.last >= old(lastSeq) && e.first > old(lastSeq)
      ensures !old(synced) && e.last < old(lastSeq) ==> ending == Normal && Value() == old(Value())
      ensures !old(synced) && e.first <= old(lastSeq) == e.last ==> ending == Normal && Value() == old(Value()).(synced := true)
      ensures ending != ResyncRequired && (old(synced) || e.last > old(lastSeq)) ==>
                Committed(e, ending, old(Value()).(synced := true), Value())
    {
      if !synced {
        if e.last < lastSeq {
          return Normal;
        }
        if !(e.first <= lastSeq <= e.last) {
          return ResyncRequired;
        }
        synced := true;
        if e.last == lastSeq {
          return Normal;
        }
      } else if e.prev != lastSeq {
        return ResyncRequired;
      }
      ending := CommitEvent(e);
    }

    method ApplyDeltaSynced(e: Event) returns (ending: Ending)
      modifies this, book
      ensures var r := DS.ApplySynced(market, old(Value()), e); Value() == r.d && ending == EndingOf(r)
    {
      if market == DS.Spot {
        ending := ApplySpot(e);
      } else {
        ending := ApplyFutures(e);
      }
    }

    /** The first event that cannot be taken ends it. */
    method DrainEvents(events: seq<Event>) returns (ending: Ending)
      modifies this, book
      ensures var r := DS.ApplyMany(market, old(Value()), events); Value() == r.d && ending == EndingOf(r)
    {
      ghost var d := Value();
      ending := Normal;
      for i := 0 to |events|
        invariant DS.ApplyMany(market, d, events[..i]) == DS.Done(Value()) && ending == Normal
      {
        assert events[..i + 1][..i] == events[..i];
        ending := ApplyDeltaSynced(events[i]);
        if ending != Normal {
          Abandoned(market, d, events, i + 1);
          return;
        }
      }
      assert events[..|events|] == events;
    }

    /** The fetched snapshot, what was buffered meanwhile, and the event at hand. */
    method ApplySnapshotAndDrain(e: Event) returns (ending: Ending)
      requires fetch.Ready?
      modifies this, book
      ensures var r := DS.ApplySnapshotAndDrain(market, old(Value()), e); Value() == r.d && ending == EndingOf(r)
    {
      var id, u := fetch.lastId, fetch.update;
      var violation := book.ApplySnapshot(id, u);
      if violation.Some? {
        return BookInvariantError;
      }
      phase, lastSeq, snapId := DS.Live, id, Some(id);
      published := published + [Snapshot(epoch, id, u, DS.NO_STAMP)];
      var events := buffered + [e];
      buffered, fetch := [], DS.Waiting;
      ending := DrainEvents(events);
    }

    method ProcessDelta(e: Event) returns (ending: Ending)
      modifies this, book
      ensures var r := DS.ProcessDelta(market, old(Value()), e); Value() == r.d && ending == EndingOf(r)
    {
      if phase == DS.Buffering {
        match fetch {
          case Waiting =>
            if |buffered| >= DS.MAX_BUFFER_DELTAS {
              return ResyncRequired;
            }
            buffered := buffered + [e];
            return Normal;
          case Failed =>
            return ResyncRequired;
          case Ready(_, _) =>
            ending := ApplySnapshotAndDrain(e);
            return;
        }
      }
      if phase == DS.Live {
        ending := ApplyDeltaSynced(e);
        return;
      }
      return ResyncRequired;
    }

    /** The applier: a failed event leaves the symbol stale. */
    method Deliver(e: Event)
      modifies this, book
      ensures Value() == DS.Step(market, old(Value()), DS.Deliver(e))
    {
      var ending := ProcessDelta(e);
      if ending == ResyncRequired {
        phase := DS.Stale;
      } else if ending == BookInvariantError {
        book.Clear();
        phase := DS.Stale;
      }
    }

    /** The re-snapshot timer. */
    method Retell()
      modifies this
      ensures Value() == DS.Step(market, old(Value()), DS.Retell)
    {
      if phase != DS.Live || book.sequence < 0 {
        return;
      }
      var u := book.List();
      published := published + [Snapshot(epoch, book.sequence, u, DS.NO_STAMP)];
    }
  }

  /** Once a drain has failed, the remaining events change nothing. */
  lemma {:induction false} Abandoned(m: DS.Market, d: DS.Driver, es: seq<Event>, i: nat)
    requires i <= |es| && !DS.ApplyMany(m, d, es[..i]).Done?
    ensures DS.ApplyMany(m, d, es) == DS.ApplyMany(m, d, es[..i])
    decreases |es|
  {
    if i < |es| {
      assert es[..|es| - 1][..i] == es[..i];
      Abandoned(m, d, es[..|es| - 1], i);
    } else {
      assert es[..i] == es;
    }
  }

  // ---------- Kraken ----------

  function KrakenEnding(h: K.Handled): Ending {
    match h
    case Done(_) => Normal
    case Resync(_) => ResyncRequired
    case Broken(_) => BookInvariantError
  }

  class KrakenSymbol {
    const depth: nat
    const book: OrderBook.OrderBook
    var phase: K.Phase
    var lastSeq: int
    var epoch: int
    var published: seq<Message<real>>

    function Value(): K.Driver
      reads this, book
    {
      K.Driver(phase, lastSeq, book.Levels(), book.sequence, epoch, published)
    }

    constructor (depth: nat)
      ensures Value() == K.NewDriver() && this.depth == depth && fresh(book)
    {
      this.depth := depth;
      book := new OrderBook.OrderBook();
      phase, lastSeq, epoch, published := K.Bootstrap, -1, 0, [];
    }

    method Connect(now: int)
      modifies this, book
      ensures Value() == K.Step(depth, old(Value()), K.Connect(now))
    {
      epoch := if epoch + 1 > now then epoch + 1 else now;
      lastSeq := -1;
      book.Clear();
      phase := K.Bootstrap;
    }

    method ProcessSnapshot(u: Update<real>, checksumOk: bool) returns (ending: Ending)
      modifies this, book
      ensures var r := K.OnSnapshot(depth, old(Value()), u, checksumOk); Value() == r.d && ending == KrakenEnding(r)
    {
      var violation := book.ApplySnapshot(0, u);
      if violation.Some? {
        return BookInvariantError;
      }
      var _, _ := book.Trim(depth);
      lastSeq := 0;
      if !checksumOk {
        return ResyncRequired;
      }
      phase := K.Live;
      published := published + [Snapshot(epoch, 0, u, K.NO_STAMP)];
      return Normal;
    }

    /** Applies and trims; what was evicted is relayed with the delta. */
    method ApplyAndTrim(at: int, u: Update<real>) returns (violation: Option<OrderBook.Violation>, relayed: Update<real>)
      modifies book
      ensures violation.Some? <==> at <= old(book.sequence) || Locked(Apply(old(book.Levels()), u))
      ensures violation.Some? ==> book.sequence == old(book.sequence)
                                  && book.Levels() == if at <= old(book.sequence) then old(book.Levels()) else Apply(old(book.Levels()), u)
      ensures violation.None? ==> book.sequence == at && book.Levels() == OrderBook.Trimmed(Apply(old(book.Levels()), u), depth)
                                  && relayed == K.WithEvictions(old(book.Levels()), u, depth)
    {
      relayed := u;
      violation := book.ApplyDelta(at, u);
      if violation.None? {
        var evictedBids, evictedAsks := book.Trim(depth);
        relayed := Update(u.bids + K.Deletes(evictedBids), u.asks + K.Deletes(evictedAsks));
      }
    }

    method ProcessDelta(u: Update<real>, checksumOk: bool) returns (ending: Ending)
      modifies this, book
      ensures var r := K.OnDelta(depth, old(Value()), u, checksumOk); Value() == r.d && ending == KrakenEnding(r)
    {
      if phase != K.Live {
        return ResyncRequired;
      }
      var at := lastSeq + 1;
      var violation, update := ApplyAndTrim(at, u);
      if violation.Some? {
        return BookInvariantError;
      }
      if !checksumOk {
        return ResyncRequired;
      }
      lastSeq := at;
      published := published + [Delta(epoch, at, update, K.NO_STAMP)];
      return Normal;
    }

    /** A failure leaves the symbol stale. */
    method SettleOn(ending: Ending, ghost h: K.Handled)
      requires Value() == h.d && ending == KrakenEnding(h)
      modifies this, book
      ensures Value() == K.Settle(h)
    {
      if ending == ResyncRequired {
        phase := K.Stale;
      } else if ending == BookInvariantError {
        book.Clear();
        phase := K.Stale;
      }
    }

    /** The applier, which stops at the first failure of a connection. */
    method DeliverSnapshot(u: Update<real>, checksumOk: bool)
      modifies this, book
      ensures Value() == K.Step(depth, old(Value()), K.InBandSnapshot(u, checksumOk))
    {
      if phase != K.Stale {
        ghost var h := K.OnSnapshot(depth, Value(), u, checksumOk);
        var ending := ProcessSnapshot(u, checksumOk);
        SettleOn(ending, h);
      }
    }

    method DeliverDelta(u: Update<real>, checksumOk: bool)
      modifies this, book
      ensures Value() == K.Step(depth, old(Value()), K.InBandDelta(u, checksumOk))
    {
      if phase != K.Stale {
        ghost var h := K.OnDelta(depth, Value(), u, checksumOk);
        var ending := ProcessDelta(u, checksumOk);
        SettleOn(ending, h);
      }
    }

    method Retell()
      modifies this
      ensures Value() == K.Step(depth, old(Value()), K.Retell)
    {
      if phase != K.Live || book.sequence < 0 {
        return;
      }
      var u := book.List();
      published := published + [Snapshot(epoch, book.sequence, u, K.NO_STAMP)];
    }
  }
}
