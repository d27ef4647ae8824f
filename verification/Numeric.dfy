/** The numeric reading of a gateway stream.  The gateway keeps prices and sizes as they
    were spelled; forgetting the spelling commutes with every step, so what is proved of
    numeric streams holds of the books the gateway really keeps. */
module Numeric {
  import opened Decimal
  import opened Levels
  import opened Stream
  import opened Aggregator
  import opened Venue
  import C = Convergence
  import DS = DepthSync
  import K = Kraken

  function NumChange(c: Change<WireLevel>): Change<real> {
    Change(c.price, if c.entry.Some? then Some(Value(c.entry.value.sz)) else None)
  }

  function NumChanges(cs: seq<Change<WireLevel>>): (ns: seq<Change<real>>)
    ensures |ns| == |cs|
    ensures forall i :: 0 <= i < |cs| ==> ns[i] == NumChange(cs[i])
  {
    seq(|cs|, i requires 0 <= i < |cs| => NumChange(cs[i]))
  }

  function NumSide(s: Side<WireLevel>): (n: Side<real>)
    ensures n.Keys == s.Keys
  {
    map p | p in s :: Value(s[p].sz)
  }

  function NumDepth(d: Depth<WireLevel>): Depth<real> {
    Depth(NumSide(d.bids), NumSide(d.asks))
  }

  function NumUpdate(u: Update<WireLevel>): Update<real> {
    Update(NumChanges(u.bids), NumChanges(u.asks))
  }

  function Num(m: Message<WireLevel>): Message<real> {
    if m.Delta? then Delta(m.epoch, m.sequence, NumUpdate(m.update), Stamp(0, 0))
    else Snapshot(m.epoch, m.sequence, NumUpdate(m.update), Stamp(0, 0))
  }

  function NumAll(ms: seq<Message<WireLevel>>): (ns: seq<Message<real>>)
    ensures |ns| == |ms|
    ensures forall i :: 0 <= i < |ms| ==> ns[i] == Num(ms[i])
  {
    seq(|ms|, i requires 0 <= i < |ms| => Num(ms[i]))
  }

  function NumBook(b: BookState<WireLevel>): BookState<real> {
    BookState(NumDepth(b.depth), b.sequence, b.epoch)
  }

  function NumBookOf(b: Option<BookState<WireLevel>>): Option<BookState<real>> {
    if b.Some? then Some(NumBook(b.value)) else None
  }

  function NumTail(t: Tail<WireLevel>): Tail<real> {
    Tail(NumAll(t.kept), t.evicted)
  }

  function NumState(st: StreamState<WireLevel>): StreamState<real> {
    StreamState(NumBookOf(st.book), NumAll(st.pending), NumTail(st.tail))
  }

  // ---------- levels ----------

  lemma NumChangesPrefix(cs: seq<Change<WireLevel>>, i: nat)
    requires i <= |cs|
    ensures NumChanges(cs)[..i] == NumChanges(cs[..i])
  {
  }

  lemma NumPut(s: Side<WireLevel>, c: Change<WireLevel>)
    ensures NumSide(Put(s, c)) == Put(NumSide(s), NumChange(c))
  {
  }

  lemma {:induction false} NumPutAll(s: Side<WireLevel>, cs: seq<Change<WireLevel>>)
    ensures NumSide(PutAll(s, cs)) == PutAll(NumSide(s), NumChanges(cs))
  {
    if cs != [] {
      var rest, c := cs[..|cs| - 1], cs[|cs| - 1];
      NumPutAll(s, rest);
      NumPut(PutAll(s, rest), c);
      NumChangesPrefix(cs, |cs| - 1);
    }
  }

  lemma {:induction false} NumListed(cs: seq<Change<WireLevel>>)
    ensures NumSide(Listed(cs)) == Listed(NumChanges(cs))
  {
    if cs != [] {
      var rest, c := cs[..|cs| - 1], cs[|cs| - 1];
      NumListed(rest);
      NumPut(Listed(rest), c);
      NumChangesPrefix(cs, |cs| - 1);
    }
  }

  lemma NumApply(d: Depth<WireLevel>, u: Update<WireLevel>)
    ensures NumDepth(Apply(d, u)) == Apply(NumDepth(d), NumUpdate(u))
  {
    NumPutAll(d.bids, u.bids);
    NumPutAll(d.asks, u.asks);
  }

  lemma NumReset(s: Message<WireLevel>)
    ensures NumBook(Reset(s)) == Reset(Num(s))
  {
    NumListed(s.update.bids);
    NumListed(s.update.asks);
  }

  // ---------- tail and buffer ----------

  lemma NumAllPrefix(ms: seq<Message<WireLevel>>, i: nat)
    requires i <= |ms|
    ensures NumAll(ms)[..i] == NumAll(ms[..i]) && NumAll(ms)[i..] == NumAll(ms[i..])
  {
  }

  lemma NumAllPush(ms: seq<Message<WireLevel>>, m: Message<WireLevel>)
    ensures NumAll(ms + [m]) == NumAll(ms) + [Num(m)]
  {
  }

  lemma NumRecord(t: Tail<WireLevel>, d: Message<WireLevel>)
    ensures NumTail(Record(t, d)) == Record(NumTail(t), Num(d))
  {
    var half := MAX_APPLIED_TAIL / 2;
    if |t.kept| >= MAX_APPLIED_TAIL {
      NumAllPrefix(t.kept, half);
      NumAllPush(t.kept[half..], d);
    } else {
      NumAllPush(t.kept, d);
    }
  }

  lemma NumBuffer(q: seq<Message<WireLevel>>, d: Message<WireLevel>)
    ensures NumAll(Buffer(q, d)) == Buffer(NumAll(q), Num(d))
  {
    if |q| >= MAX_PENDING_DELTAS {
      NumAllPrefix(q, 1);
      NumAllPush(q[1..], d);
    } else {
      NumAllPush(q, d);
    }
  }

  lemma {:induction false} NumPrune(ds: seq<Message<WireLevel>>, epoch: int, t: int)
    ensures NumAll(Prune(ds, epoch, t)) == Prune(NumAll(ds), epoch, t)
  {
    if ds != [] {
      var rest, d := ds[..|ds| - 1], ds[|ds| - 1];
      NumPrune(rest, epoch, t);
      NumAllPrefix(ds, |ds| - 1);
      NumAllPush(Prune(rest, epoch, t), d);
      assert Prune(rest, epoch, t) + [] == Prune(rest, epoch, t);
    }
  }

  lemma {:induction false} NumReplay(b: BookState<WireLevel>, last: Message<WireLevel>, ds: seq<Message<WireLevel>>, epoch: int)
    ensures var r, n := Replay(b, last, ds, epoch), Replay(NumBook(b), Num(last), NumAll(ds), epoch);
            n == Replayed(NumBook(r.book), Num(r.last), r.count)
  {
    if ds != [] {
      var rest, d := ds[..|ds| - 1], ds[|ds| - 1];
      NumReplay(b, last, rest, epoch);
      NumAllPrefix(ds, |ds| - 1);
      NumApply(Replay(b, last, rest, epoch).book.depth, d.update);
    }
  }

  lemma {:induction false} NumDrain(b: BookState<WireLevel>, last: Message<WireLevel>, tail: Tail<WireLevel>, q: seq<Message<WireLevel>>, epoch: int)
    ensures var r, n := Drain(b, last, tail, q, epoch), Drain(NumBook(b), Num(last), NumTail(tail), NumAll(q), epoch);
            && n.book == NumBook(r.book) && n.last == Num(r.last)
            && n.tail == NumTail(r.tail) && n.retained == NumAll(r.retained)
  {
    if q != [] {
      var rest, d := q[..|q| - 1], q[|q| - 1];
      var r := Drain(b, last, tail, rest, epoch);
      NumDrain(b, last, tail, rest, epoch);
      NumAllPrefix(q, |q| - 1);
      if d.epoch != epoch {
        NumAllPush(r.retained, d);
      } else {
        NumApply(r.book.depth, d.update);
        NumRecord(r.tail, d);
      }
    }
  }

  // ---------- steps ----------

  lemma NumOnDelta(st: StreamState<WireLevel>, d: Message<WireLevel>)
    requires d.Delta?
    ensures Step(NumState(st), Num(d)).state == NumState(Step(st, d).state)
  {
    if !Live(st, d.epoch) {
      NumBuffer(st.pending, d);
    } else {
      NumApply(st.book.value.depth, d.update);
      NumRecord(st.tail, d);
    }
  }

  lemma NumOnSnapshot(st: StreamState<WireLevel>, s: Message<WireLevel>)
    requires s.Snapshot?
    ensures Step(NumState(st), Num(s)).state == NumState(Step(st, s).state)
  {
    var b := if st.book.Some? then st.book.value else NewBook();
    assert NumBook(NewBook()) == NewBook<real>();
    NumReset(s);
    NumReplay(Reset(s), s, st.tail.kept, s.epoch);
    NumPrune(st.tail.kept, s.epoch, s.sequence);
    var r := Replay(Reset(s), s, st.tail.kept, s.epoch);
    var tail := Tail(Prune(st.tail.kept, s.epoch, s.sequence), PruneEvicted(st.tail.evicted, s.epoch, s.sequence));
    NumDrain(r.book, r.last, tail, st.pending, s.epoch);
  }

  /** Forgetting the spelling commutes with whole runs. */
  lemma {:induction false} NumRun(ms: seq<Message<WireLevel>>)
    ensures Run(NumAll(ms)) == NumState(Run(ms))
  {
    if ms != [] {
      var rest, m := ms[..|ms| - 1], ms[|ms| - 1];
      NumRun(rest);
      NumAllPrefix(ms, |ms| - 1);
      if m.Delta? {
        NumOnDelta(Run(rest), m);
      } else {
        NumOnSnapshot(Run(rest), m);
      }
    }
  }

  // ---------- ingester to gateway ----------

  /** `ms`, read numerically, is some interleaving of the topics of `published`. */
  predicate Carries(ms: seq<Message<WireLevel>>, published: seq<Message<real>>) {
    && C.SnapshotsOf(NumAll(ms)) == C.SnapshotsOf(published)
    && C.DeltasOf(NumAll(ms)) == C.DeltasOf(published)
  }

  lemma NumShed(st: StreamState<WireLevel>, m: Message<WireLevel>)
    ensures var r, n := Step(st, m).report, Step(NumState(st), Num(m)).report;
            n.shed == if r.shed.Some? then Some(Num(r.shed.value)) else None
  {
  }

  /** What the gateway's buffer sheds does not depend on the spelling. */
  lemma {:induction false} NumSpared(ms: seq<Message<WireLevel>>, epoch: int, t: int)
    ensures C.Spared(NumAll(ms), epoch, t) <==> C.Spared(ms, epoch, t)
  {
    if ms != [] {
      var rest, m := ms[..|ms| - 1], ms[|ms| - 1];
      NumSpared(rest, epoch, t);
      NumRun(rest);
      NumAllPrefix(ms, |ms| - 1);
      NumShed(Run(rest), m);
    }
  }

  /** End to end for Binance: whatever happened on the wire, the gateway's spelled book is,
      number for number, the live driver's book, unless one of its connection's deltas was
      shed. */
  lemma GatewayKeepsBinanceBook(m: DS.Market, v: History, inputs: seq<DS.Input>, ms: seq<Message<WireLevel>>)
    requires DS.Honest(m, v, inputs) && DS.Run(m, inputs).phase == DS.Live
    requires Carries(ms, DS.Run(m, inputs).published) && C.Spared(ms, DS.Run(m, inputs).epoch, -1)
    ensures var d := DS.Run(m, inputs); NumBookOf(Run(ms).book) == Some(BookState(d.book, d.bookSeq, d.epoch))
  {
    NumSpared(ms, DS.Run(m, inputs).epoch, -1);
    DS.GatewayRebuildsDriver(m, v, inputs, NumAll(ms));
    NumRun(ms);
  }

  /** End to end for Kraken. */
  lemma GatewayKeepsKrakenBook(depth: nat, inputs: seq<K.Input>, ms: seq<Message<WireLevel>>)
    requires K.Modest(depth, inputs) && K.OncePerConnection(depth, inputs) && K.Run(depth, inputs).phase == K.Live
    requires Carries(ms, K.Run(depth, inputs).published) && C.Spared(ms, K.Run(depth, inputs).epoch, -1)
    ensures var d := K.Run(depth, inputs); NumBookOf(Run(ms).book) == Some(BookState(d.book, d.bookSeq, d.epoch))
  {
    NumSpared(ms, K.Run(depth, inputs).epoch, -1);
    K.GatewayRebuildsDriver(depth, inputs, NumAll(ms));
    NumRun(ms);
  }
}
