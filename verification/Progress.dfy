/** What the drivers go on to take.  Depth sync must not only refuse a gap: on events that
    follow each other it must go live and stay live.  The theorems here say of a whole
    connection exactly when it does, and which book and log it then ends with. */
module Progress {
  import opened Levels
  import opened Stream
  import opened Venue
  import opened DepthSync
  import DS = DepthSync
  import OrderBook
  import J = Journal
  import K = Kraken

  // ---------- one event on a live Binance symbol ----------

  /** The event ends at or before what the book already holds. */
  predicate Covered(m: Market, d: Driver, e: Event) {
    if m == Spot then e.last <= d.lastSeq else !d.synced && e.last < d.lastSeq
  }

  /** Spot: the first event after the snapshot starts past the next id, a later one anywhere
      else than at it. Futures: the first starts past the snapshot, a later one does not name
      the last event as its predecessor. */
  predicate Gapped(m: Market, d: Driver, e: Event) {
    if m == Spot then
      e.last > d.lastSeq && (if d.snapId == Some(d.lastSeq) then e.first > d.lastSeq + 1 else e.first != d.lastSeq + 1)
    else if d.synced then e.prev != d.lastSeq
    else e.last >= d.lastSeq && e.first > d.lastSeq
  }

  /** The futures event that ends at the snapshot: it starts the chain and changes nothing. */
  predicate Meeting(m: Market, d: Driver, e: Event) {
    m == Futures && !d.synced && e.last == d.lastSeq
  }

  predicate Aligned(d: Driver) {
    d.phase == Live ==> d.lastSeq == d.bookSeq
  }

  lemma {:induction false} ManyAligned(m: Market, d: Driver, es: seq<Event>)
    requires d.phase == Live && d.lastSeq == d.bookSeq
    ensures var r := ApplyMany(m, d, es); r.Done? ==> r.d.phase == Live && r.d.lastSeq == r.d.bookSeq
  {
    if es != [] {
      ManyAligned(m, d, es[..|es| - 1]);
    }
  }

  lemma StepAligned(m: Market, d: Driver, i: Input)
    requires Aligned(d)
    ensures Aligned(DS.Step(m, d, i))
  {
    if i.Deliver? {
      if d.phase == Buffering && d.fetch.Ready? {
        var t := TakeSnapshot(d, d.fetch.lastId, d.fetch.update);
        if t.Done? {
          ManyAligned(m, t.d, d.buffered + [i.e]);
        }
      } else if d.phase == Live {
        ManyAligned(m, d, [i.e]);
      }
    }
  }

  /** A live symbol stands where its book stands, over every run. */
  lemma {:induction false} RunAligned(m: Market, inputs: seq<Input>)
    ensures Aligned(DS.Run(m, inputs))
  {
    if inputs != [] {
      RunAligned(m, inputs[..|inputs| - 1]);
      StepAligned(m, DS.Run(m, inputs[..|inputs| - 1]), inputs[|inputs| - 1]);
    }
  }

  /** The event read into the book, and published. */
  function Taken(m: Market, d: Driver, e: Event): Driver {
    d.(book := Apply(d.book, e.update), bookSeq := e.last, lastSeq := e.last, synced := d.synced || m == Futures,
       published := d.published + [Delta(d.epoch, e.last, e.update, NO_STAMP)])
  }

  /** What an event does to a live symbol, on every run: a covered one nothing, a gapped one a
      resync and nothing else; any other is read in and published, unless the book would lock. */
  lemma LiveStep(m: Market, inputs: seq<Input>, e: Event)
    requires DS.Run(m, inputs).phase == Live
    ensures var d, d' := DS.Run(m, inputs), DS.Run(m, inputs + [Deliver(e)]);
            && (Covered(m, d, e) ==> d' == d)
            && (Gapped(m, d, e) ==> d' == d.(phase := Stale))
            && (Meeting(m, d, e) && !Gapped(m, d, e) ==> d' == d.(synced := true))
            && (!Covered(m, d, e) && !Gapped(m, d, e) && !Meeting(m, d, e) ==>
                  if e.last > d.lastSeq && !Locked(Apply(d.book, e.update)) then d' == Taken(m, d, e)
                  else d'.phase == Stale && d'.book == Empty() && d'.published == d.published)
  {
    RunAligned(m, inputs);
    assert (inputs + [Deliver(e)])[..|inputs|] == inputs;
  }

  /** The re-snapshot timer publishes a live book whole at its own sequence, and does nothing else. */
  lemma RetellShows(m: Market, inputs: seq<Input>) returns (u: Update<real>)
    ensures var d, d' := DS.Run(m, inputs), DS.Run(m, inputs + [Retell]);
            if d.phase == Live && d.lastSeq >= 0 then
              Build(u) == d.book && d' == d.(published := d.published + [Snapshot(d.epoch, d.lastSeq, u, NO_STAMP)])
            else d' == d
  {
    RunAligned(m, inputs);
    assert (inputs + [Retell])[..|inputs|] == inputs;
    u := J.ListBook(DS.Run(m, inputs).book);
    J.ListThenBuild(DS.Run(m, inputs).book);
  }

  // ---------- a run of events that follow each other ----------

  /** Spot events follow by consecutive ids, futures events by naming their predecessor. */
  predicate Follows(m: Market, a: Event, b: Event) {
    if m == Spot then b.first == a.last + 1 && b.first <= b.last else b.prev == a.last && b.prev < b.last
  }

  predicate Consecutive(m: Market, es: seq<Event>) {
    forall i :: 0 <= i < |es| - 1 ==> Follows(m, es[i], es[i + 1])
  }

  /** The first event that reaches past the snapshot (futures: up to it). */
  predicate Opening(m: Market, id: int, es: seq<Event>, i: int) {
    && 0 <= i < |es|
    && if m == Spot then es[i].last > id && (i == 0 || es[i - 1].last <= id) else es[i].last >= id && (i == 0 || es[i - 1].last < id)
  }

  /** That event leaves no id between the snapshot and itself. */
  predicate Meets(m: Market, id: int, es: seq<Event>) {
    forall i :: 0 <= i < |es| && Opening(m, id, es, i) ==> es[i].first <= if m == Spot then id + 1 else id
  }

  /** The events that end past `id`. */
  function Beyond(es: seq<Event>, id: int): seq<Event> {
    if es == [] then []
    else Beyond(es[..|es| - 1], id) + if es[|es| - 1].last > id then [es[|es| - 1]] else []
  }

  function BookAfter(book: Depth<real>, es: seq<Event>): Depth<real> {
    if es == [] then book else Apply(BookAfter(book, es[..|es| - 1]), es[|es| - 1].update)
  }

  /** No event leaves the book locked. */
  predicate NeverLocks(book: Depth<real>, es: seq<Event>) {
    es == [] || (NeverLocks(book, es[..|es| - 1]) && !Locked(BookAfter(book, es)))
  }

  function DeltasFor(epoch: int, es: seq<Event>): seq<Message<real>> {
    if es == [] then []
    else DeltasFor(epoch, es[..|es| - 1]) + [Delta(epoch, es[|es| - 1].last, es[|es| - 1].update, NO_STAMP)]
  }

  /** The last id after a snapshot at `id` and the events. */
  function Reached(id: int, es: seq<Event>): int {
    if es != [] && es[|es| - 1].last > id then es[|es| - 1].last else id
  }

  /** Where a symbol that took a snapshot at `id` stands after the events. */
  function SyncedBy(m: Market, d: Driver, id: int, es: seq<Event>): Driver {
    d.(book := BookAfter(d.book, Beyond(es, id)), bookSeq := Reached(id, es), lastSeq := Reached(id, es),
       synced := m == Futures && es != [] && es[|es| - 1].last >= id,
       published := d.published + DeltasFor(d.epoch, Beyond(es, id)))
  }

  predicate AtSnapshot(d: Driver, id: int) {
    d.phase == Live && d.lastSeq == d.bookSeq == id && d.snapId == Some(id) && !d.synced
  }

  lemma Regroup<T>(a: seq<T>, b: seq<T>, c: seq<T>)
    ensures a + (b + c) == (a + b) + c
  {
  }

  lemma BeyondPush(es: seq<Event>, e: Event, id: int)
    ensures Beyond(es + [e], id) == if e.last > id then Beyond(es, id) + [e] else Beyond(es, id)
  {
    assert (es + [e])[..|es|] == es;
    assert Beyond(es, id) + [] == Beyond(es, id);
  }

  lemma FoldPush(book: Depth<real>, epoch: int, es: seq<Event>, e: Event)
    ensures BookAfter(book, es + [e]) == Apply(BookAfter(book, es), e.update)
    ensures NeverLocks(book, es + [e]) <==> NeverLocks(book, es) && !Locked(Apply(BookAfter(book, es), e.update))
    ensures DeltasFor(epoch, es + [e]) == DeltasFor(epoch, es) + [Delta(epoch, e.last, e.update, NO_STAMP)]
  {
    assert (es + [e])[..|es|] == es;
  }

  lemma OpeningPush(m: Market, id: int, es: seq<Event>, e: Event)
    ensures Meets(m, id, es + [e])
            <==> Meets(m, id, es)
                 && (Opening(m, id, es + [e], |es|) ==> e.first <= if m == Spot then id + 1 else id)
  {
    var all := es + [e];
    forall i | 0 <= i < |es| ensures Opening(m, id, es, i) == Opening(m, id, all, i) && es[i] == all[i] {
    }
    if Meets(m, id, all) {
      forall i | Opening(m, id, es, i) ensures es[i].first <= if m == Spot then id + 1 else id {
        assert Opening(m, id, all, i);
      }
    }
  }

  /** The first event to reach the snapshot meets it, and none past it locks the book. */
  predicate Takeable(m: Market, id: int, book: Depth<real>, es: seq<Event>) {
    Meets(m, id, es) && NeverLocks(book, Beyond(es, id))
  }

  /** What is asked of one more event. */
  predicate TakeableNext(m: Market, id: int, book: Depth<real>, es: seq<Event>, e: Event) {
    && (Opening(m, id, es + [e], |es|) ==> e.first <= if m == Spot then id + 1 else id)
    && (e.last > id ==> !Locked(Apply(BookAfter(book, Beyond(es, id)), e.update)))
  }

  lemma TakeablePush(m: Market, id: int, book: Depth<real>, es: seq<Event>, e: Event)
    ensures Takeable(m, id, book, es + [e]) <==> Takeable(m, id, book, es) && TakeableNext(m, id, book, es, e)
  {
    OpeningPush(m, id, es, e);
    BeyondPush(es, e, id);
    FoldPush(book, 0, Beyond(es, id), e);
  }

  /** An event that ends past the snapshot, read in. */
  lemma CommitSync(m: Market, d: Driver, id: int, es: seq<Event>, e: Event)
    requires AtSnapshot(d, id) && e.last > Reached(id, es)
    ensures var at := SyncedBy(m, d, id, es);
            var r := Commit(if m == Futures then at.(synced := true) else at, e);
            && (r.Done? <==> !Locked(Apply(at.book, e.update)))
            && (r.Done? ==> r.d == SyncedBy(m, d, id, es + [e]))
  {
    BeyondPush(es, e, id);
    FoldPush(d.book, d.epoch, Beyond(es, id), e);
    var at := SyncedBy(m, d, id, es);
    Regroup(d.published, DeltasFor(d.epoch, Beyond(es, id)), [DeltaMessage(at, e)]);
  }

  /** One that does not adds nothing. */
  lemma SkipSync(m: Market, d: Driver, id: int, es: seq<Event>, e: Event)
    requires e.last <= id && Reached(id, es) == id
    ensures SyncedBy(m, d, id, es + [e]) == SyncedBy(m, d, id, es).(synced := m == Futures && e.last == id)
  {
    BeyondPush(es, e, id);
  }

  /** What the driver makes of one more event. */
  lemma Judged(m: Market, d: Driver, id: int, es: seq<Event>, e: Event)
    requires AtSnapshot(d, id) && (es != [] ==> Follows(m, es[|es| - 1], e))
    ensures if e.last > id then e.last > Reached(id, es) else Reached(id, es) == id
    ensures Judge(m, SyncedBy(m, d, id, es), e)
            == if Opening(m, id, es + [e], |es|) && e.first > (if m == Spot then id + 1 else id) then Gap
               else if e.last > id then Take
               else if m == Futures && e.last == id then SkipAndSync
               else Skip
  {
    assert es != [] ==> (es + [e])[|es| - 1] == es[|es| - 1];
  }

  /** One more event, after events that were all taken. */
  lemma MoreSync(m: Market, d: Driver, id: int, es: seq<Event>, e: Event)
    requires AtSnapshot(d, id) && (es != [] ==> Follows(m, es[|es| - 1], e))
    ensures var r := ApplySynced(m, SyncedBy(m, d, id, es), e);
            && (r.Done? <==> TakeableNext(m, id, d.book, es, e))
            && (r.Done? ==> r.d == SyncedBy(m, d, id, es + [e]))
  {
    Judged(m, d, id, es, e);
    if e.last > id {
      CommitSync(m, d, id, es, e);
    } else {
      SkipSync(m, d, id, es, e);
    }
  }

  lemma ApplyManyPush(m: Market, d: Driver, es: seq<Event>, e: Event)
    ensures var r := ApplyMany(m, d, es); ApplyMany(m, d, es + [e]) == if r.Done? then ApplySynced(m, r.d, e) else r
  {
    assert (es + [e])[..|es|] == es;
  }

  lemma NothingSynced(m: Market, d: Driver, id: int)
    requires AtSnapshot(d, id)
    ensures SyncedBy(m, d, id, []) == d && Takeable(m, id, d.book, [])
  {
    assert d.published + [] == d.published;
  }

  /** Events that follow each other are taken to the last exactly when the first to reach the
      snapshot meets it and none locks the book. */
  lemma {:induction false} ManySync(m: Market, d: Driver, id: int, es: seq<Event>)
    requires AtSnapshot(d, id) && Consecutive(m, es)
    ensures var r := ApplyMany(m, d, es);
            && (r.Done? <==> Takeable(m, id, d.book, es))
            && (r.Done? ==> r.d == SyncedBy(m, d, id, es))
  {
    if es == [] {
      NothingSynced(m, d, id);
    } else {
      var rest, e := es[..|es| - 1], es[|es| - 1];
      assert rest != [] ==> Follows(m, es[|es| - 2], es[|es| - 1]);
      ManySync(m, d, id, rest);
      TakeablePush(m, id, d.book, rest, e);
      MoreSync(m, d, id, rest, e);
      ApplyManyPush(m, d, rest, e);
      assert es == rest + [e];
    }
  }

  // ---------- a whole connection ----------

  function Deliveries(es: seq<Event>): seq<Input> {
    if es == [] then [] else Deliveries(es[..|es| - 1]) + [Deliver(es[|es| - 1])]
  }

  lemma RunPush(m: Market, inputs: seq<Input>, i: Input)
    ensures DS.Run(m, inputs + [i]) == DS.Step(m, DS.Run(m, inputs), i)
  {
    assert (inputs + [i])[..|inputs|] == inputs;
  }

  lemma DeliveriesPush(inputs: seq<Input>, es: seq<Event>)
    requires es != []
    ensures inputs + Deliveries(es) == (inputs + Deliveries(es[..|es| - 1])) + [Deliver(es[|es| - 1])]
  {
    Regroup(inputs, Deliveries(es[..|es| - 1]), [Deliver(es[|es| - 1])]);
  }

  /** The events delivered one by one. */
  function DeliverAll(m: Market, d: Driver, es: seq<Event>): Driver {
    if es == [] then d else DS.Step(m, DeliverAll(m, d, es[..|es| - 1]), Deliver(es[|es| - 1]))
  }

  lemma {:induction false} RunDelivers(m: Market, inputs: seq<Input>, es: seq<Event>)
    ensures DS.Run(m, inputs + Deliveries(es)) == DeliverAll(m, DS.Run(m, inputs), es)
  {
    if es == [] {
      assert inputs + [] == inputs;
    } else {
      RunDelivers(m, inputs, es[..|es| - 1]);
      DeliveriesPush(inputs, es);
      RunPush(m, inputs + Deliveries(es[..|es| - 1]), Deliver(es[|es| - 1]));
    }
  }

  /** Up to the cap, events that arrive before the snapshot are kept in order. */
  lemma {:induction false} Buffers(m: Market, d: Driver, es: seq<Event>)
    requires d.phase == Buffering && d.fetch == Waiting && d.buffered == []
    requires |es| <= MAX_BUFFER_DELTAS
    ensures DeliverAll(m, d, es) == d.(buffered := es)
  {
    if es != [] {
      Buffers(m, d, es[..|es| - 1]);
      assert es[..|es| - 1] + [es[|es| - 1]] == es;
    }
  }

  /** Before the snapshot is there, an event raises a resync exactly when the buffer is full or
      the fetch has failed. Nothing is published. */
  lemma BufferingStep(m: Market, inputs: seq<Input>, e: Event)
    requires var d := DS.Run(m, inputs); d.phase == Buffering && !d.fetch.Ready?
    ensures var d, d' := DS.Run(m, inputs), DS.Run(m, inputs + [Deliver(e)]);
            && (d'.phase == Stale <==> |d.buffered| >= MAX_BUFFER_DELTAS || d.fetch == Failed)
            && (d'.phase != Stale ==> d' == d.(buffered := d.buffered + [e]))
            && d'.published == d.published
  {
    RunPush(m, inputs, Deliver(e));
  }

  /** Delivered one by one, events do what they do drained at once. */
  lemma {:induction false} DeliverMore(m: Market, t: Driver, before: seq<Event>, es: seq<Event>)
    requires t.phase == Live && t.lastSeq == t.bookSeq
    ensures var r, d := ApplyMany(m, t, before + es), DeliverAll(m, Settle(ApplyMany(m, t, before)), es);
            (r.Done? ==> d == r.d) && (!r.Done? ==> d.phase == Stale)
  {
    if es == [] {
      assert before + [] == before;
    } else {
      var rest, e := es[..|es| - 1], es[|es| - 1];
      DeliverMore(m, t, before, rest);
      ManyAligned(m, t, before + rest);
      assert (before + es)[..|before + es| - 1] == before + rest;
    }
  }

  /** A new connection, the events that come before its snapshot, the snapshot, and the events
      that come after. */
  function Connection(now: int, before: seq<Event>, id: int, u: Update<real>, es: seq<Event>): seq<Input> {
    [Connect(now)] + Deliveries(before) + [Fetched(Ready(id, u))] + Deliveries(es)
  }

  lemma FetchesInto(m: Market, d: Driver, id: int, u: Update<real>)
    ensures DS.Step(m, d, Fetched(Ready(id, u))) == d.(fetch := Ready(id, u))
  {
  }

  lemma Fetches(m: Market, inputs: seq<Input>, now: int, before: seq<Event>, id: int, u: Update<real>)
    requires |before| <= MAX_BUFFER_DELTAS
    ensures DS.Run(m, inputs + Connection(now, before, id, u, []))
            == DS.Reset(DS.Run(m, inputs), now).(buffered := before, fetch := Ready(id, u))
  {
    var connected := inputs + [Connect(now)];
    RunPush(m, inputs, Connect(now));
    var d := DS.Reset(DS.Run(m, inputs), now);
    RunDelivers(m, connected, before);
    Buffers(m, d, before);
    RunPush(m, connected + Deliveries(before), Fetched(Ready(id, u)));
    FetchesInto(m, d.(buffered := before), id, u);
    ConnectionIs(inputs, now, before, id, u);
  }

  lemma ConnectionIs(inputs: seq<Input>, now: int, before: seq<Event>, id: int, u: Update<real>)
    ensures inputs + Connection(now, before, id, u, [])
            == ((inputs + [Connect(now)]) + Deliveries(before)) + [Fetched(Ready(id, u))]
  {
  }

  /** The event that finds the snapshot takes it, and then everything buffered and itself. */
  lemma Drains(m: Market, inputs: seq<Input>, e: Event)
    requires var d := DS.Run(m, inputs); d.phase == Buffering && d.fetch.Ready?
    ensures var d := DS.Run(m, inputs);
            var t := TakeSnapshot(d, d.fetch.lastId, d.fetch.update);
            DS.Run(m, inputs + [Deliver(e)]) == Settle(if t.Done? then ApplyMany(m, t.d, d.buffered + [e]) else t)
  {
    RunPush(m, inputs, Deliver(e));
  }

  lemma {:induction false} StaleStays(m: Market, d: Driver, es: seq<Event>)
    requires d.phase == Stale
    ensures DeliverAll(m, d, es).phase == Stale
  {
    if es != [] {
      StaleStays(m, d, es[..|es| - 1]);
    }
  }

  /** The symbol once it has gone live: the snapshot's book with every event past the snapshot
      read in, both published under a new epoch, at the last id. */
  predicate LiveAt(d: Driver, was: Driver, now: int, id: int, u: Update<real>, es: seq<Event>) {
    && d.phase == Live && d.lastSeq == d.bookSeq == Reached(id, es) && d.book == BookAfter(Build(u), Beyond(es, id))
    && d.epoch > was.epoch && d.epoch >= now
    && d.published == was.published + [Snapshot(d.epoch, id, u, NO_STAMP)] + DeltasFor(d.epoch, Beyond(es, id))
  }

  /** Progress of depth sync, for every earlier run, every snapshot and every number of events
      before and after it: on events that follow each other, a new connection is live at the end
      exactly when the snapshot's book is not locked, the first event to reach the snapshot meets
      it, and no event locks the book. It then stands at the last event, holding and having
      published all of it. Any other connection is stale. */
  lemma ConnectionSyncs(m: Market, inputs: seq<Input>, now: int, before: seq<Event>, id: int, u: Update<real>, e: Event, more: seq<Event>)
    requires |before| <= MAX_BUFFER_DELTAS && Consecutive(m, before + [e] + more)
    ensures var all, d := before + [e] + more, DS.Run(m, inputs + Connection(now, before, id, u, [e] + more));
            if !Locked(Build(u)) && Takeable(m, id, Build(u), all)
            then LiveAt(d, DS.Run(m, inputs), now, id, u, all)
            else d.phase == Stale
  {
    var fetched := inputs + Connection(now, before, id, u, []);
    Fetches(m, inputs, now, before, id, u);
    Drains(m, fetched, e);
    ConnectionSplits(inputs, now, before, id, u, e, more);
    RunDelivers(m, fetched + [Deliver(e)], more);
    var t := TakeSnapshot(DS.Run(m, fetched), id, u);
    if t.Done? {
      DeliverMore(m, t.d, before + [e], more);
      ManySync(m, t.d, id, before + [e] + more);
    } else {
      StaleStays(m, Settle(t), more);
    }
  }

  lemma ConnectionSplits(inputs: seq<Input>, now: int, before: seq<Event>, id: int, u: Update<real>, e: Event, more: seq<Event>)
    ensures inputs + Connection(now, before, id, u, [e] + more)
            == ((inputs + Connection(now, before, id, u, [])) + [Deliver(e)]) + Deliveries(more)
  {
    DeliveriesCons(e, more);
  }

  lemma {:induction false} DeliveriesCons(e: Event, es: seq<Event>)
    ensures Deliveries([e] + es) == [Deliver(e)] + Deliveries(es)
  {
    if es == [] {
      assert [e] + [] == [e] && [e][..0] == [];
      assert Deliveries([e]) == Deliveries([]) + [Deliver(e)];
    } else {
      assert ([e] + es)[..|es|] == [e] + es[..|es| - 1];
      DeliveriesCons(e, es[..|es| - 1]);
    }
  }

  // ---------- a whole Kraken connection ----------

  predicate AllDeltas(ds: seq<K.Input>) {
    forall k :: 0 <= k < |ds| ==> ds[k].InBandDelta?
  }

  /** The depth-limited book after the deltas. */
  function WindowAfter(depth: nat, book: Depth<real>, ds: seq<K.Input>): Depth<real>
    requires AllDeltas(ds)
  {
    if ds == [] then book
    else OrderBook.Trimmed(Apply(WindowAfter(depth, book, ds[..|ds| - 1]), ds[|ds| - 1].update), depth)
  }

  /** Every checksum matches, and no delta leaves the book locked. */
  predicate AllGood(depth: nat, book: Depth<real>, ds: seq<K.Input>)
    requires AllDeltas(ds)
  {
    ds == [] ||
    var rest, i := ds[..|ds| - 1], ds[|ds| - 1];
    AllGood(depth, book, rest) && i.checksumOk && !Locked(Apply(WindowAfter(depth, book, rest), i.update))
  }

  /** What is published for the deltas: numbered from 1, the evictions relayed. */
  function WindowLog(depth: nat, epoch: int, book: Depth<real>, ds: seq<K.Input>): seq<Message<real>>
    requires AllDeltas(ds)
  {
    if ds == [] then []
    else
      var rest, i := ds[..|ds| - 1], ds[|ds| - 1];
      var relayed := K.WithEvictions(WindowAfter(depth, book, rest), i.update, depth);
      WindowLog(depth, epoch, book, rest) + [Delta(epoch, |ds|, relayed, K.NO_STAMP)]
  }

  predicate WindowLiveAt(depth: nat, d: K.Driver, was: K.Driver, now: int, u: Update<real>, ds: seq<K.Input>)
    requires AllDeltas(ds)
  {
    var first := OrderBook.Trimmed(Build(u), depth);
    && d.phase == K.Live && d.lastSeq == d.bookSeq == |ds| && d.book == WindowAfter(depth, first, ds)
    && d.epoch > was.epoch && d.epoch >= now
    && d.published == was.published + [Snapshot(d.epoch, 0, u, K.NO_STAMP)] + WindowLog(depth, d.epoch, first, ds)
  }

  lemma KrakenPush(depth: nat, inputs: seq<K.Input>, i: K.Input)
    ensures K.Run(depth, inputs + [i]) == K.Step(depth, K.Run(depth, inputs), i)
  {
    assert (inputs + [i])[..|inputs|] == inputs;
  }

  lemma KrakenOpens(depth: nat, inputs: seq<K.Input>, now: int, u: Update<real>, ok: bool)
    ensures var d := K.Run(depth, inputs + [K.Connect(now), K.InBandSnapshot(u, ok)]);
            if !Locked(Build(u)) && ok then WindowLiveAt(depth, d, K.Run(depth, inputs), now, u, []) else d.phase == K.Stale
  {
    KrakenPush(depth, inputs, K.Connect(now));
    KrakenPush(depth, inputs + [K.Connect(now)], K.InBandSnapshot(u, ok));
    assert inputs + [K.Connect(now), K.InBandSnapshot(u, ok)] == (inputs + [K.Connect(now)]) + [K.InBandSnapshot(u, ok)];
    var log := K.Run(depth, inputs).published + [Snapshot(K.Reset(K.Run(depth, inputs), now).epoch, 0, u, K.NO_STAMP)];
    assert log + [] == log;
  }

  lemma WindowPush(depth: nat, epoch: int, book: Depth<real>, ds: seq<K.Input>, i: K.Input)
    requires AllDeltas(ds) && i.InBandDelta?
    ensures WindowAfter(depth, book, ds + [i]) == OrderBook.Trimmed(Apply(WindowAfter(depth, book, ds), i.update), depth)
    ensures WindowLog(depth, epoch, book, ds + [i])
            == WindowLog(depth, epoch, book, ds) + [Delta(epoch, |ds| + 1, K.WithEvictions(WindowAfter(depth, book, ds), i.update, depth), K.NO_STAMP)]
  {
    assert (ds + [i])[..|ds|] == ds;
  }

  lemma DeltaTaken(depth: nat, d: K.Driver, u: Update<real>)
    requires d.phase == K.Live && d.lastSeq == d.bookSeq && !Locked(Apply(d.book, u))
    ensures K.Step(depth, d, K.InBandDelta(u, true))
            == d.(book := OrderBook.Trimmed(Apply(d.book, u), depth), bookSeq := d.bookSeq + 1, lastSeq := d.lastSeq + 1,
                  published := d.published + [K.DeltaMessage(depth, d, u)])
  {
  }

  lemma DeltaRefused(depth: nat, d: K.Driver, u: Update<real>, ok: bool)
    requires d.phase == K.Live && d.lastSeq == d.bookSeq && (!ok || Locked(Apply(d.book, u)))
    ensures K.Step(depth, d, K.InBandDelta(u, ok)).phase == K.Stale
  {
  }

  /** One delta on a live symbol. */
  lemma KrakenDelta(depth: nat, d: K.Driver, was: K.Driver, now: int, u: Update<real>, ds: seq<K.Input>, i: K.Input)
    requires AllDeltas(ds) && i.InBandDelta? && WindowLiveAt(depth, d, was, now, u, ds)
    ensures var d' := K.Step(depth, d, i);
            if i.checksumOk && !Locked(Apply(d.book, i.update)) then WindowLiveAt(depth, d', was, now, u, ds + [i]) else d'.phase == K.Stale
  {
    if i.checksumOk && !Locked(Apply(d.book, i.update)) {
      var first, log := OrderBook.Trimmed(Build(u), depth), was.published + [Snapshot(d.epoch, 0, u, K.NO_STAMP)];
      DeltaTaken(depth, d, i.update);
      WindowPush(depth, d.epoch, first, ds, i);
      Regroup(log, WindowLog(depth, d.epoch, first, ds), [K.DeltaMessage(depth, d, i.update)]);
    } else {
      DeltaRefused(depth, d, i.update, i.checksumOk);
    }
  }

  /** Progress of the Kraken driver, for every earlier run: a new connection is live after its
      snapshot and any number of deltas exactly when every checksum matches and no book locks.
      It then has counted them all, and holds and has published the depth-limited book. */
  lemma {:induction false} KrakenSyncs(depth: nat, inputs: seq<K.Input>, now: int, u: Update<real>, ok: bool, ds: seq<K.Input>)
    requires AllDeltas(ds)
    ensures var d := K.Run(depth, inputs + [K.Connect(now), K.InBandSnapshot(u, ok)] + ds);
            if !Locked(Build(u)) && ok && AllGood(depth, OrderBook.Trimmed(Build(u), depth), ds)
            then WindowLiveAt(depth, d, K.Run(depth, inputs), now, u, ds)
            else d.phase == K.Stale
  {
    var started := inputs + [K.Connect(now), K.InBandSnapshot(u, ok)];
    if ds == [] {
      KrakenOpens(depth, inputs, now, u, ok);
      assert started + [] == started;
    } else {
      var rest, i := ds[..|ds| - 1], ds[|ds| - 1];
      KrakenSyncs(depth, inputs, now, u, ok, rest);
      assert started + ds == (started + rest) + [i] && ds == rest + [i];
      KrakenPush(depth, started + rest, i);
      var d := K.Run(depth, started + rest);
      if d.phase == K.Live {
        KrakenDelta(depth, d, K.Run(depth, inputs), now, u, rest, i);
      }
    }
  }

  /** The Kraken timer does the same. */
  lemma KrakenRetellShows(depth: nat, inputs: seq<K.Input>) returns (u: Update<real>)
    ensures var d, d' := K.Run(depth, inputs), K.Run(depth, inputs + [K.Retell]);
            if d.phase == K.Live && d.bookSeq >= 0 then
              Build(u) == d.book && d' == d.(published := d.published + [Snapshot(d.epoch, d.bookSeq, u, K.NO_STAMP)])
            else d' == d
  {
    KrakenPush(depth, inputs, K.Retell);
    u := J.ListBook(K.Run(depth, inputs).book);
    J.ListThenBuild(K.Run(depth, inputs).book);
  }
}
