/** The gateway's book keeping: one mutable depth book per (exchange, symbol), and the
    aggregator that reads both book topics into it and derives the top-of-book quote. */
module Aggregator {
  import opened Decimal
  import opened Levels
  import opened Stream

  // ---------- wire messages ----------

  datatype WireLevel = WireLevel(px: Token, sz: Token)

  datatype StreamKey = StreamKey(exchange: string, symbol: string)

  /** A message without an epoch counts as epoch 0. */
  datatype WireMessage = WireMessage(
    isDelta: bool, key: StreamKey, sequence: int, bids: seq<WireLevel>, asks: seq<WireLevel>,
    stamp: Stamp, epoch: Option<int>)

  function ToChange(l: WireLevel): Change<WireLevel> {
    Change(Value(l.px), if IsZeroSize(l.sz) then None else Some(l))
  }

  function ToChanges(ls: seq<WireLevel>): (cs: seq<Change<WireLevel>>)
    ensures |cs| == |ls|
  {
    if ls == [] then [] else ToChanges(ls[..|ls| - 1]) + [ToChange(ls[|ls| - 1])]
  }

  /** A wire message as the stream reads it: levels keyed by exact price. */
  function Read(m: WireMessage): Message<WireLevel> {
    var epoch := if m.epoch.Some? then m.epoch.value else 0;
    var update := Update(ToChanges(m.bids), ToChanges(m.asks));
    if m.isDelta then Delta(epoch, m.sequence, update, m.stamp) else Snapshot(epoch, m.sequence, update, m.stamp)
  }

  lemma {:induction false} ToChangesAt(ls: seq<WireLevel>, k: nat)
    requires k < |ls|
    ensures ToChanges(ls)[k] == ToChange(ls[k])
  {
    if k < |ls| - 1 {
      ToChangesAt(ls[..|ls| - 1], k);
    }
  }

  /** The last wire level naming a price decides it: a size of zero, however spelled, deletes
      the level, any other is what the book then holds. */
  lemma DeltaDecides(side: Side<WireLevel>, ls: seq<WireLevel>, p: real, k: nat)
    requires k < |ls| && Value(ls[k].px) == p && forall j :: k < j < |ls| ==> Value(ls[j].px) != p
    ensures p in PutAll(side, ToChanges(ls)) <==> Value(ls[k].sz) != 0.0
    ensures Value(ls[k].sz) != 0.0 ==> PutAll(side, ToChanges(ls))[p] == ls[k]
  {
    forall j | 0 <= j < |ls| ensures ToChanges(ls)[j].price == Value(ls[j].px) {
      ToChangesAt(ls, j);
    }
    ToChangesAt(ls, k);
    PutAllAt(side, ToChanges(ls), p, k);
  }

  // ---------- the book ----------

  class Book {
    var bids: Side<WireLevel>
    var asks: Side<WireLevel>
    var sequence: int
    var epoch: int

    function State(): BookState<WireLevel>
      reads this
    {
      BookState(Depth(bids, asks), sequence, epoch)
    }

    constructor ()
      ensures State() == NewBook()
    {
      bids, asks, sequence, epoch := map[], map[], -1, 0;
    }

    /** Skips a stale same-epoch snapshot unless the book is crossed. */
    method ApplySnapshot(s: Message<WireLevel>) returns (applied: bool)
      modifies this
      ensures applied == old(Accepts(State(), s))
      ensures State() == if applied then Reset(s) else old(State())
    {
      var crossed := IsCrossed();
      if s.epoch == epoch && s.sequence <= sequence && !crossed {
        return false;
      }
      bids, asks := map[], map[];
      var cs := s.update.bids;
      for i := 0 to |cs|
        invariant bids == Listed(cs[..i])
        invariant asks == map[]
      {
        assert cs[..i + 1][..i] == cs[..i];
        if cs[i].entry.Some? {
          bids := bids[cs[i].price := cs[i].entry.value];
        }
      }
      assert cs[..|cs|] == cs;
      cs := s.update.asks;
      for i := 0 to |cs|
        invariant bids == Listed(s.update.bids)
        invariant asks == Listed(cs[..i])
      {
        assert cs[..i + 1][..i] == cs[..i];
        if cs[i].entry.Some? {
          asks := asks[cs[i].price := cs[i].entry.value];
        }
      }
      assert cs[..|cs|] == cs;
      sequence, epoch := s.sequence, s.epoch;
      return true;
    }

    /** Ignores a stale or duplicate delta. */
    method ApplyDelta(d: Message<WireLevel>) returns (applied: bool)
      modifies this
      ensures applied == old(Newer(State(), d))
      ensures State() == if applied then Advance(old(State()), d) else old(State())
    {
      if d.sequence <= sequence {
        return false;
      }
      var cs := d.update.bids;
      for i := 0 to |cs|
        invariant bids == PutAll(old(bids), cs[..i])
        invariant asks == old(asks) && epoch == old(epoch)
      {
        assert cs[..i + 1][..i] == cs[..i];
        if cs[i].entry.None? {
          bids := bids - {cs[i].price};
        } else {
          bids := bids[cs[i].price := cs[i].entry.value];
        }
      }
      assert cs[..|cs|] == cs;
      cs := d.update.asks;
      for i := 0 to |cs|
        invariant bids == PutAll(old(bids), d.update.bids)
        invariant asks == PutAll(old(asks), cs[..i]) && epoch == old(epoch)
      {
        assert cs[..i + 1][..i] == cs[..i];
        if cs[i].entry.None? {
          asks := asks - {cs[i].price};
        } else {
          asks := asks[cs[i].price := cs[i].entry.value];
        }
      }
      assert cs[..|cs|] == cs;
      sequence := d.sequence;
      return true;
    }

    method BestBid() returns (level: Option<WireLevel>)
      ensures IsBestBid(level, State().depth.bids)
    {
      if bids.Keys == {} {
        return None;
      }
      return Some(bids[MaxOf(bids.Keys)]);
    }

    method BestAsk() returns (level: Option<WireLevel>)
      ensures IsBestAsk(level, State().depth.asks)
    {
      if asks.Keys == {} {
        return None;
      }
      return Some(asks[MinOf(asks.Keys)]);
    }

    method IsCrossed() returns (crossed: bool)
      ensures crossed == Crossed(State().depth)
    {
      if bids.Keys == {} || asks.Keys == {} {
        return false;
      }
      return MinOf(asks.Keys) < MaxOf(bids.Keys);
    }
  }

  /** None on an empty side, else the entry at a price no other price beats. */
  ghost predicate IsBestBid<E>(level: Option<E>, bids: Side<E>) {
    && (level.None? <==> bids.Keys == {})
    && (level.Some? ==> exists p :: p in bids && bids[p] == level.value && forall q :: q in bids ==> q <= p)
  }

  ghost predicate IsBestAsk<E>(level: Option<E>, asks: Side<E>) {
    && (level.None? <==> asks.Keys == {})
    && (level.Some? ==> exists p :: p in asks && asks[p] == level.value && forall q :: q in asks ==> p <= q)
  }

  /** There is one such entry, the one the quote is derived from. */
  lemma BestIsTop(bid: Option<WireLevel>, ask: Option<WireLevel>, d: Depth<WireLevel>)
    requires IsBestBid(bid, d.bids) && IsBestAsk(ask, d.asks)
    ensures bid == TopBid(d) && ask == TopAsk(d)
  {
    if bid.Some? {
      var p :| p in d.bids && d.bids[p] == bid.value && forall q :: q in d.bids ==> q <= p;
      assert MaxOf(d.bids.Keys) in d.bids && p in d.bids.Keys;
    }
    if ask.Some? {
      var p :| p in d.asks && d.asks[p] == ask.value && forall q :: q in d.asks ==> p <= q;
      assert MinOf(d.asks.Keys) in d.asks && p in d.asks.Keys;
    }
  }

  function TopBid(d: Depth<WireLevel>): Option<WireLevel> {
    if d.bids.Keys == {} then None else Some(d.bids[MaxOf(d.bids.Keys)])
  }

  function TopAsk(d: Depth<WireLevel>): Option<WireLevel> {
    if d.asks.Keys == {} then None else Some(d.asks[MinOf(d.asks.Keys)])
  }

  // ---------- the derived quote ----------

  datatype Bbo = Bbo(key: StreamKey, bid: WireLevel, ask: WireLevel, stamp: Stamp)

  /** The quote a message leaves on top of a two-sided book. */
  function Quote(key: StreamKey, d: Depth<WireLevel>, stamp: Stamp): Option<Bbo> {
    if TopBid(d).Some? && TopAsk(d).Some? then Some(Bbo(key, TopBid(d).value, TopAsk(d).value, stamp)) else None
  }

  predicate SameTop(a: Bbo, b: Bbo) {
    a.bid == b.bid && a.ask == b.ask
  }

  /** The quote that is new against the previous one, by its spelled prices and sizes. */
  function Emitted(prev: Option<Bbo>, quote: Option<Bbo>): Option<Bbo> {
    if quote.Some? && !(prev.Some? && SameTop(prev.value, quote.value)) then quote else None
  }

  /** The quote holds the book's best bid and its best ask. */
  ghost predicate Shows(quote: Option<Bbo>, d: Depth<WireLevel>) {
    quote.Some? && IsBestBid(Some(quote.value.bid), d.bids) && IsBestAsk(Some(quote.value.ask), d.asks)
  }

  /** Nothing is said exactly when a side is empty or the previous quote still shows the top;
      what is said shows it, under the stream's key and with the given stamps. */
  ghost predicate Announces(bbo: Option<Bbo>, prev: Option<Bbo>, key: StreamKey, d: Depth<WireLevel>, stamp: Stamp) {
    && (bbo.None? <==> d.bids.Keys == {} || d.asks.Keys == {} || Shows(prev, d))
    && (bbo.Some? ==> Shows(bbo, d) && bbo.value.key == key && bbo.value.stamp == stamp)
  }

  lemma EmittedAnnounces(prev: Option<Bbo>, key: StreamKey, d: Depth<WireLevel>, stamp: Stamp)
    ensures Announces(Emitted(prev, Quote(key, d, stamp)), prev, key, d, stamp)
  {
    if TopBid(d).Some? && TopAsk(d).Some? {
      TopShows(d);
      if Shows(prev, d) {
        BestIsTop(Some(prev.value.bid), Some(prev.value.ask), d);
      }
    }
  }

  lemma TopShows(d: Depth<WireLevel>)
    ensures IsBestBid(TopBid(d), d.bids) && IsBestAsk(TopAsk(d), d.asks)
  {
    if d.bids.Keys != {} {
      assert MaxOf(d.bids.Keys) in d.bids && forall q :: q in d.bids ==> q in d.bids.Keys;
    }
    if d.asks.Keys != {} {
      assert MinOf(d.asks.Keys) in d.asks && forall q :: q in d.asks ==> q in d.asks.Keys;
    }
  }

  /** What one message adds to the counters. */
  datatype Marks = Marks(skippedStale: bool, healed: bool, replayed: nat, underrun: bool)

  const NO_MARKS := Marks(false, false, 0, false)

  function MarksOf(r: Report<WireLevel>): Marks {
    Marks(r.skippedStale, r.healed, r.replayed, r.underrun)
  }

  datatype Metrics = Metrics(crossed: nat, snapshotStale: nat, resnapshotHeal: nat, healReplayDepth: nat, healUnderrun: nat)

  function Count(m: Metrics, marks: Marks): Metrics {
    Metrics(
      m.crossed,
      m.snapshotStale + (if marks.skippedStale then 1 else 0),
      m.resnapshotHeal + (if marks.healed then 1 else 0),
      m.healReplayDepth + marks.replayed,
      m.healUnderrun + (if marks.underrun then 1 else 0))
  }

  function CountCrossed(m: Metrics, crossed: bool): Metrics {
    if crossed then m.(crossed := m.crossed + 1) else m
  }

  /** The step moved the book, so its top is looked at again. */
  predicate Requoted(r: Outcome<WireLevel>) {
    r.report.last.Some? && r.state.book.Some?
  }

  function QuoteAfter(key: StreamKey, r: Outcome<WireLevel>): Option<Bbo>
    requires Requoted(r)
  {
    Quote(key, r.state.book.value.depth, r.report.last.value.stamp)
  }

  function QuoteOf(prev: Option<Bbo>, key: StreamKey, r: Outcome<WireLevel>): Option<Bbo> {
    if Requoted(r) then Emitted(prev, QuoteAfter(key, r)) else None
  }

  /** A step that moves nothing says nothing. One that moves the book announces its top with the
      stamps of the message that brought the book to its sequence. */
  ghost predicate Announced(bbo: Option<Bbo>, prev: Option<Bbo>, key: StreamKey, st: StreamState<WireLevel>, m: Message<WireLevel>) {
    var after, last := Step(st, m).state.book, Step(st, m).report.last;
    && (last.None? ==> bbo.None?)
    && (last.Some? ==>
          && after.Some? && Brought(after.value, last.value)
          && Announces(bbo, prev, key, after.value.depth, last.value.stamp))
  }

  lemma StepAnnounces(prev: Option<Bbo>, key: StreamKey, st: StreamState<WireLevel>, m: Message<WireLevel>)
    ensures Announced(QuoteOf(prev, key, Step(st, m)), prev, key, st, m)
  {
    var r := Step(st, m);
    StepLast(st, m);
    if Requoted(r) {
      EmittedAnnounces(prev, key, r.state.book.value.depth, r.report.last.value.stamp);
    }
  }

  /** Each counter, told by the message and the book it met. */
  predicate Counted(before: Metrics, after: Metrics, st: StreamState<WireLevel>, m: Message<WireLevel>) {
    var r, crossed := Step(st, m), Crossed(Held(st).depth);
    && after.snapshotStale == before.snapshotStale + (if IsStale(st, m) && !crossed then 1 else 0)
    && after.resnapshotHeal == before.resnapshotHeal + (if IsStale(st, m) && crossed then 1 else 0)
    && after.healReplayDepth == before.healReplayDepth + r.report.replayed
    && after.healUnderrun == before.healUnderrun + (if r.report.underrun then 1 else 0)
    && after.crossed == before.crossed + (if Requoted(r) && Crossed(r.state.book.value.depth) then 1 else 0)
  }

  function CountsOf(m: Metrics, r: Outcome<WireLevel>): Metrics {
    CountCrossed(Count(m, MarksOf(r.report)), Requoted(r) && Crossed(r.state.book.value.depth))
  }

  lemma StepCounts(before: Metrics, st: StreamState<WireLevel>, m: Message<WireLevel>)
    ensures Counted(before, CountsOf(before, Step(st, m)), st, m)
  {
    StepMarks(st, m);
  }

  // ---------- the aggregator ----------

  /** What an accepted snapshot adds: a heal's depth, and its underrun. */
  function MarksFor(s: Message<WireLevel>, stale: bool, replayed: nat, evicted: Option<Evicted>): Marks {
    var underrun := stale && evicted.Some? && evicted.value.epoch == s.epoch && evicted.value.sequence > s.sequence;
    Marks(false, stale, if stale then replayed else 0, underrun)
  }

  lemma AcceptedStep(st: StreamState<WireLevel>, b: BookState<WireLevel>, s: Message<WireLevel>)
    requires s.Snapshot? && b == Held(st) && Accepts(b, s)
    ensures var t, o := st.tail, Step(st, s);
            var r := Replay(Reset(s), s, t.kept, s.epoch);
            var pruned := Tail(Prune(t.kept, s.epoch, s.sequence), PruneEvicted(t.evicted, s.epoch, s.sequence));
            var d := Drain(r.book, r.last, pruned, st.pending, s.epoch);
            && o.state == StreamState(Some(d.book), d.retained, d.tail) && o.report.last == Some(d.last)
            && MarksOf(o.report) == MarksFor(s, s.epoch == b.epoch && s.sequence <= b.sequence, r.count, t.evicted)
  {
  }

  class Aggregator {
    var books: map<StreamKey, Book>
    var lastBbo: map<StreamKey, Bbo>
    var pending: map<StreamKey, seq<Message<WireLevel>>>
    var appliedTail: map<StreamKey, seq<Message<WireLevel>>>
    var tailEvicted: map<StreamKey, Evicted>
    var metrics: Metrics

    ghost predicate Valid()
      reads `books
    {
      forall j, k :: j in books && k in books && j != k ==> books[j] != books[k]
    }

    /** The state of one stream, gathered from the maps. */
    ghost function StreamOf(key: StreamKey): StreamState<WireLevel>
      reads `books, `pending, `appliedTail, `tailEvicted, books.Values
    {
      StreamState(
        if key in books then Some(books[key].State()) else None,
        PendingOf(key),
        TailOf(key))
    }

    function PendingOf(key: StreamKey): seq<Message<WireLevel>>
      reads `pending
    {
      if key in pending then pending[key] else []
    }

    function TailOf(key: StreamKey): Tail<WireLevel>
      reads `appliedTail, `tailEvicted
    {
      Tail(if key in appliedTail then appliedTail[key] else [],
           if key in tailEvicted then Some(tailEvicted[key]) else None)
    }

    function LastOf(key: StreamKey): Option<Bbo>
      reads `lastBbo
    {
      if key in lastBbo then Some(lastBbo[key]) else None
    }

    constructor ()
      ensures Valid() && forall k :: StreamOf(k) == Fresh() && LastOf(k) == None
    {
      books, lastBbo, pending, appliedTail, tailEvicted := map[], map[], map[], map[], map[];
      metrics := Metrics(0, 0, 0, 0, 0);
    }

    method RecordApplied(key: StreamKey, d: Message<WireLevel>)
      modifies this`appliedTail, this`tailEvicted
      ensures TailOf(key) == Record(old(TailOf(key)), d)
      ensures forall k :: k != key ==> TailOf(k) == old(TailOf(k))
    {
      var tail := if key in appliedTail then appliedTail[key] else [];
      if |tail| >= MAX_APPLIED_TAIL {
        var half := MAX_APPLIED_TAIL / 2;
        var newest := tail[half - 1];
        tail := tail[half..];
        tailEvicted := tailEvicted[key := Evicted(newest.epoch, newest.sequence)];
      }
      appliedTail := appliedTail[key := tail + [d]];
    }

    /** Emits the book's top if it differs from the stream's last quote; a crossed book is
        counted but still quoted. */
    method DeriveBbo(key: StreamKey, book: Book, m: Message<WireLevel>) returns (bbo: Option<Bbo>)
      modifies this`lastBbo, this`metrics
      ensures bbo == Emitted(old(LastOf(key)), Quote(key, book.State().depth, m.stamp))
      ensures Announces(bbo, old(LastOf(key)), key, book.State().depth, m.stamp)
      ensures LastOf(key) == if bbo.Some? then bbo else old(LastOf(key))
      ensures forall k :: k != key ==> LastOf(k) == old(LastOf(k))
      ensures metrics == CountCrossed(old(metrics), Crossed(book.State().depth))
    {
      EmittedAnnounces(LastOf(key), key, book.State().depth, m.stamp);
      var bid := book.BestBid();
      var ask := book.BestAsk();
      BestIsTop(bid, ask, book.State().depth);
      if bid.None? || ask.None? {
        return None;
      }
      var crossed := book.IsCrossed();
      if crossed {
        metrics := metrics.(crossed := metrics.crossed + 1);
      }
      if key in lastBbo && lastBbo[key].bid == bid.value && lastBbo[key].ask == ask.value {
        return None;
      }
      bbo := Some(Bbo(key, bid.value, ask.value, m.stamp));
      lastBbo := lastBbo[key := bbo.value];
    }

    /** One message: its stream takes exactly the step of module Stream, every other stream
        is untouched, and a quote comes out exactly when the book moved and its top differs
        from the last quote. */
    method ApplyBook(w: WireMessage) returns (bbo: Option<Bbo>)
      requires Valid()
      modifies this, books.Values
      ensures Valid()
      ensures fresh(books.Values - old(books.Values))
      ensures var r := Step(old(StreamOf(w.key)), Read(w));
              && StreamOf(w.key) == r.state
              && metrics == CountsOf(old(metrics), r)
              && bbo == QuoteOf(old(LastOf(w.key)), w.key, r)
      ensures Announced(bbo, old(LastOf(w.key)), w.key, old(StreamOf(w.key)), Read(w))
      ensures Counted(old(metrics), metrics, old(StreamOf(w.key)), Read(w))
      ensures LastOf(w.key) == if bbo.Some? then bbo else old(LastOf(w.key))
      ensures forall k :: k != w.key ==> StreamOf(k) == old(StreamOf(k))
      ensures forall k :: k != w.key ==> LastOf(k) == old(LastOf(k))
    {
      var m := Read(w);
      StepAnnounces(LastOf(w.key), w.key, StreamOf(w.key), m);
      StepCounts(metrics, StreamOf(w.key), m);
      var last, marks := None, NO_MARKS;
      if m.Delta? {
        var applied := TakeDelta(w.key, m);
        last := if applied then Some(m) else None;
      } else {
        last, marks := TakeSnapshot(w.key, m);
      }
      bbo := CountAndDerive(w.key, last, marks);
    }

    /** The counters and the quote, once the stream has taken its step. */
    method CountAndDerive(key: StreamKey, last: Option<Message<WireLevel>>, marks: Marks) returns (bbo: Option<Bbo>)
      requires last.Some? ==> key in books
      modifies this`lastBbo, this`metrics
      ensures metrics == CountCrossed(Count(old(metrics), marks), last.Some? && Crossed(books[key].State().depth))
      ensures bbo == if last.Some? then Emitted(old(LastOf(key)), Quote(key, books[key].State().depth, last.value.stamp)) else None
      ensures LastOf(key) == if bbo.Some? then bbo else old(LastOf(key))
      ensures forall k :: k != key ==> LastOf(k) == old(LastOf(k))
      ensures forall k :: StreamOf(k) == old(StreamOf(k))
    {
      metrics := Count(metrics, marks);
      if last.None? {
        return None;
      }
      bbo := DeriveBbo(key, books[key], last.value);
    }

    /** A delta joins the live book of its epoch, or waits in the buffer. */
    method TakeDelta(key: StreamKey, d: Message<WireLevel>) returns (applied: bool)
      requires Valid() && d.Delta?
      modifies this`pending, this`appliedTail, this`tailEvicted, books.Values
      ensures var r := Step(old(StreamOf(key)), d);
              && StreamOf(key) == r.state && MarksOf(r.report) == NO_MARKS
              && r.report.last == if applied then Some(d) else None
      ensures forall k :: k != key ==> StreamOf(k) == old(StreamOf(k))
    {
      if key !in books || books[key].sequence < 0 || d.epoch != books[key].epoch {
        BufferDelta(key, d);
        return false;
      }
      var book := books[key];
      assert forall k :: k in books && k != key ==> books[k] != book;
      applied := book.ApplyDelta(d);
      if applied {
        RecordApplied(key, d);
      }
    }

    method BufferDelta(key: StreamKey, d: Message<WireLevel>)
      modifies this`pending
      ensures PendingOf(key) == Buffer(old(PendingOf(key)), d)
      ensures forall k :: k != key ==> PendingOf(k) == old(PendingOf(k))
    {
      var queue := if key in pending then pending[key] else [];
      if |queue| >= MAX_PENDING_DELTAS {
        queue := queue[1..];
      }
      pending := pending[key := queue + [d]];
    }

    /** A snapshot resets its book unless stale; what follows is read back and drained. */
    method TakeSnapshot(key: StreamKey, s: Message<WireLevel>) returns (last: Option<Message<WireLevel>>, marks: Marks)
      requires Valid() && s.Snapshot?
      modifies this`books, this`pending, this`appliedTail, this`tailEvicted, books.Values
      ensures Valid() && key in books
      ensures fresh(books.Values - old(books.Values))
      ensures var r := Step(old(StreamOf(key)), s);
              StreamOf(key) == r.state && last == r.report.last && marks == MarksOf(r.report)
      ensures forall k :: k != key ==> StreamOf(k) == old(StreamOf(k))
    {
      var book, stale, accepted := OpenBook(key, s);
      if !accepted {
        return None, NO_MARKS.(skippedStale := true);
      }
      AcceptedStep(old(StreamOf(key)), Held(old(StreamOf(key))), s);
      var m, replayed, evicted := Rebuild(key, book, s);
      last, marks := Some(m), MarksFor(s, stale, replayed, evicted);
    }

    /** The stream's book, reset to the snapshot unless that is skipped. */
    method OpenBook(key: StreamKey, s: Message<WireLevel>) returns (book: Book, stale: bool, accepted: bool)
      requires Valid() && s.Snapshot?
      modifies this`books, books.Values
      ensures Valid() && key in books && books[key] == book
      ensures fresh(books.Values - old(books.Values))
      ensures forall k :: k in books && k != key ==> books[k] != book
      ensures var b := Held(old(StreamOf(key)));
              && accepted == Accepts(b, s) && stale == (s.epoch == b.epoch && s.sequence <= b.sequence)
              && book.State() == (if accepted then Reset(s) else b)
      ensures forall k :: k != key ==> StreamOf(k) == old(StreamOf(k))
    {
      book := BookFor(key);
      stale := s.epoch == book.epoch && s.sequence <= book.sequence;
      accepted := TryReset(key, book, s);
    }

    method TryReset(key: StreamKey, book: Book, s: Message<WireLevel>) returns (accepted: bool)
      requires forall k :: k in books && k != key ==> books[k] != book
      modifies book
      ensures accepted == old(Accepts(book.State(), s))
      ensures book.State() == if accepted then Reset(s) else old(book.State())
      ensures forall k :: k != key ==> StreamOf(k) == old(StreamOf(k))
    {
      accepted := book.ApplySnapshot(s);
    }

    /** The stream's book, created empty on first use. */
    method BookFor(key: StreamKey) returns (book: Book)
      requires Valid()
      modifies this`books
      ensures Valid() && key in books && books[key] == book
      ensures book in old(books.Values) || fresh(book)
      ensures books == old(books)[key := book]
      ensures forall k :: k in books && k != key ==> books[k] != book
      ensures book.State() == if key in old(books) then old(books[key].State()) else NewBook()
      ensures key in old(books) ==> book == old(books[key])
      ensures forall k :: k != key ==> StreamOf(k) == old(StreamOf(k))
    {
      if key !in books {
        book := new Book();
        books := books[key := book];
      } else {
        book := books[key];
      }
    }

    /** An accepted snapshot's aftermath: the tail read back and pruned, the buffer drained. */
    method Rebuild(key: StreamKey, book: Book, s: Message<WireLevel>)
      returns (last: Message<WireLevel>, replayed: nat, evicted: Option<Evicted>)
      requires forall k :: k in books && k != key ==> books[k] != book
      modifies book, this`pending, this`appliedTail, this`tailEvicted
      ensures var t, r := old(TailOf(key)), Replay(old(book.State()), s, old(TailOf(key)).kept, s.epoch);
              var pruned := Tail(Prune(t.kept, s.epoch, s.sequence), PruneEvicted(t.evicted, s.epoch, s.sequence));
              var d := Drain(r.book, r.last, pruned, old(PendingOf(key)), s.epoch);
              && book.State() == d.book && last == d.last && TailOf(key) == d.tail && PendingOf(key) == d.retained
              && replayed == r.count && evicted == t.evicted
      ensures forall k :: k != key ==> StreamOf(k) == old(StreamOf(k))
    {
      last, replayed := ReplayTail(key, book, s);
      evicted := if key in tailEvicted then Some(tailEvicted[key]) else None;
      PruneTail(key, s);
      last := DrainPending(key, book, last, s.epoch);
    }

    method ReplayTail(key: StreamKey, book: Book, s: Message<WireLevel>) returns (last: Message<WireLevel>, replayed: nat)
      modifies book
      ensures Replay(old(book.State()), s, TailOf(key).kept, s.epoch) == Replayed(book.State(), last, replayed)
    {
      var tail := if key in appliedTail then appliedTail[key] else [];
      last, replayed := s, 0;
      for i := 0 to |tail|
        invariant Replay(old(book.State()), s, tail[..i], s.epoch) == Replayed(book.State(), last, replayed)
      {
        assert tail[..i + 1][..i] == tail[..i];
        if tail[i].epoch == s.epoch {
          var applied := book.ApplyDelta(tail[i]);
          if applied {
            last, replayed := tail[i], replayed + 1;
          }
        }
      }
      assert tail[..|tail|] == tail;
    }

    method PruneTail(key: StreamKey, s: Message<WireLevel>)
      modifies this`appliedTail, this`tailEvicted
      ensures TailOf(key) == Tail(Prune(old(TailOf(key)).kept, s.epoch, s.sequence),
                                  PruneEvicted(old(TailOf(key)).evicted, s.epoch, s.sequence))
      ensures forall k :: k != key ==> TailOf(k) == old(TailOf(k))
    {
      var tail := if key in appliedTail then appliedTail[key] else [];
      var kept := [];
      for i := 0 to |tail|
        invariant kept == Prune(tail[..i], s.epoch, s.sequence)
      {
        assert tail[..i + 1][..i] == tail[..i];
        if tail[i].epoch == s.epoch && tail[i].sequence > s.sequence {
          kept := kept + [tail[i]];
        }
      }
      assert tail[..|tail|] == tail;
      if |kept| > 0 {
        appliedTail := appliedTail[key := kept];
      } else {
        appliedTail := appliedTail - {key};
      }
      if key in tailEvicted && (tailEvicted[key].epoch != s.epoch || tailEvicted[key].sequence <= s.sequence) {
        tailEvicted := tailEvicted - {key};
      }
    }

    method DrainPending(key: StreamKey, book: Book, from: Message<WireLevel>, epoch: int) returns (last: Message<WireLevel>)
      modifies book, this`pending, this`appliedTail, this`tailEvicted
      ensures var d := Drain(old(book.State()), from, old(TailOf(key)), old(PendingOf(key)), epoch);
              book.State() == d.book && last == d.last && TailOf(key) == d.tail && PendingOf(key) == d.retained
      ensures forall k :: k != key ==> TailOf(k) == old(TailOf(k)) && PendingOf(k) == old(PendingOf(k))
    {
      var queue := if key in pending then pending[key] else [];
      var retained := [];
      last := from;
      for i := 0 to |queue|
        invariant pending == old(pending)
        invariant var d := Drain(old(book.State()), from, old(TailOf(key)), queue[..i], epoch);
                  book.State() == d.book && last == d.last && TailOf(key) == d.tail && retained == d.retained
        invariant forall k :: k != key ==> TailOf(k) == old(TailOf(k))
      {
        assert queue[..i + 1][..i] == queue[..i];
        if queue[i].epoch != epoch {
          retained := retained + [queue[i]];
        } else {
          last := DrainOne(key, book, queue[i], last);
        }
      }
      assert queue[..|queue|] == queue;
      if |retained| > 0 {
        pending := pending[key := retained];
      } else {
        pending := pending - {key};
      }
    }

    /** A buffered delta of the snapshot's own epoch: applied and recorded unless superseded. */
    method DrainOne(key: StreamKey, book: Book, d: Message<WireLevel>, from: Message<WireLevel>) returns (last: Message<WireLevel>)
      modifies book, this`appliedTail, this`tailEvicted
      ensures var b, newer := old(book.State()), old(Newer(book.State(), d));
              && book.State() == (if newer then Advance(b, d) else b) && last == (if newer then d else from)
              && TailOf(key) == if newer then Record(old(TailOf(key)), d) else old(TailOf(key))
      ensures forall k :: k != key ==> TailOf(k) == old(TailOf(k))
    {
      last := from;
      var applied := book.ApplyDelta(d);
      if applied {
        last := d;
        RecordApplied(key, d);
      }
    }
  }
}
