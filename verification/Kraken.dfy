/** The Kraken driver for one symbol.  Kraken sends no sequence numbers, so the driver
    counts for itself, and it drops levels that leave the depth window without a word,
    so the driver trims its own book and publishes a deletion for each level dropped.
    A checksum mismatch, which demands a resync, is an input of the model. */
module Kraken {
  import opened Levels
  import opened Stream
  import opened OrderBook
  import C = Convergence
  import J = Journal
  import S = Stream

  datatype Phase = Bootstrap | Live | Stale

  datatype Driver = Driver(
    phase: Phase, lastSeq: int, book: Depth<real>, bookSeq: int, epoch: int, published: seq<Message<real>>)

  datatype Handled = Done(d: Driver) | Resync(d: Driver) | Broken(d: Driver)

  const NO_STAMP := Stamp(0, 0)

  function NewDriver(): Driver {
    Driver(Bootstrap, -1, Empty(), -1, 0, [])
  }

  /** The relayed deletions of levels that left the window. */
  function Deletes(prices: seq<real>): (cs: seq<Change<real>>)
    ensures |cs| == |prices|
  {
    seq(|prices|, i requires 0 <= i < |prices| => Change(prices[i], None))
  }

  /** What is published for a delta: the venue's changes, then the evictions. */
  function WithEvictions(book: Depth<real>, u: Update<real>, depth: nat): Update<real> {
    var after := Apply(book, u);
    Update(u.bids + Deletes(LowestExcess(after.bids.Keys, depth)), u.asks + Deletes(HighestExcess(after.asks.Keys, depth)))
  }

  /** The snapshot is published as it came, the book is trimmed. */
  function OnSnapshot(depth: nat, d: Driver, u: Update<real>, checksumOk: bool): Handled {
    if Locked(Build(u)) then Broken(d)
    else
      var d' := d.(book := Trimmed(Build(u), depth), bookSeq := 0, lastSeq := 0);
      if !checksumOk then Resync(d')
      else Done(d'.(phase := Live, published := d.published + [Snapshot(d.epoch, 0, u, NO_STAMP)]))
  }

  function OnDelta(depth: nat, d: Driver, u: Update<real>, checksumOk: bool): Handled {
    if d.phase != Live then Resync(d)
    else
      var at := d.lastSeq + 1;
      if at <= d.bookSeq then Broken(d)
      else if Locked(Apply(d.book, u)) then Broken(d.(book := Apply(d.book, u)))
      else
        var d' := d.(book := Trimmed(Apply(d.book, u), depth), bookSeq := at);
        if !checksumOk then Resync(d') else Done(d'.(lastSeq := at, published := d.published + [DeltaMessage(depth, d, u)]))
  }

  function DeltaMessage(depth: nat, d: Driver, u: Update<real>): Message<real> {
    Delta(d.epoch, d.lastSeq + 1, WithEvictions(d.book, u, depth), NO_STAMP)
  }

  function Settle(h: Handled): Driver {
    match h
    case Done(d) => d
    case Resync(d) => d.(phase := Stale)
    case Broken(d) => d.(book := Empty(), bookSeq := -1, phase := Stale)
  }

  datatype Input =
    | Connect(now: int)
    | Disconnect
    | InBandSnapshot(update: Update<real>, checksumOk: bool)
    | InBandDelta(update: Update<real>, checksumOk: bool)
    | Retell

  function Reset(d: Driver, now: int): Driver {
    Driver(Bootstrap, -1, Empty(), -1, if d.epoch + 1 > now then d.epoch + 1 else now, d.published)
  }

  function Republish(d: Driver): Driver {
    if d.phase == Live && d.bookSeq >= 0 then
      d.(published := d.published + [Snapshot(d.epoch, d.bookSeq, J.ListBook(d.book), NO_STAMP)])
    else d
  }

  /** Once a symbol is stale its connection's applier has stopped. */
  function Step(depth: nat, d: Driver, i: Input): Driver {
    match i
    case Connect(now) => Reset(d, now)
    case Disconnect => d.(phase := Stale)
    case InBandSnapshot(u, ok) => if d.phase == Stale then d else Settle(OnSnapshot(depth, d, u, ok))
    case InBandDelta(u, ok) => if d.phase == Stale then d else Settle(OnDelta(depth, d, u, ok))
    case Retell => Republish(d)
  }

  function Run(depth: nat, inputs: seq<Input>): Driver {
    if inputs == [] then NewDriver() else Step(depth, Run(depth, inputs[..|inputs| - 1]), inputs[|inputs| - 1])
  }

  predicate Shallow(u: Update<real>, depth: nat) {
    |Build(u).bids.Keys| <= depth && |Build(u).asks.Keys| <= depth
  }

  /** No in-band snapshot is deeper than subscribed. */
  predicate Modest(depth: nat, inputs: seq<Input>) {
    forall k :: 0 <= k < |inputs| && inputs[k].InBandSnapshot? ==> Shallow(inputs[k].update, depth)
  }

  /** No in-band snapshot reaches a live book: one snapshot per connection. */
  predicate OncePerConnection(depth: nat, inputs: seq<Input>) {
    inputs == [] ||
    var before, i := inputs[..|inputs| - 1], inputs[|inputs| - 1];
    OncePerConnection(depth, before) && (i.InBandSnapshot? ==> Run(depth, before).phase != Live)
  }

  /** What an input adds to the published messages. */
  function Added(depth: nat, d: Driver, i: Input): seq<Message<real>> {
    var d' := Step(depth, d, i);
    if |d.published| <= |d'.published| then d'.published[|d.published|..] else []
  }

  /** `ms`, the messages since the last in-band snapshot, after one more input. */
  function Next(depth: nat, d: Driver, ms: seq<Message<real>>, i: Input): seq<Message<real>> {
    var added := Added(depth, d, i);
    if i.Connect? || (i.InBandSnapshot? && added != []) then added else ms + added
  }

  /** What was published since the last in-band snapshot taken, from that snapshot on. */
  function Since(depth: nat, inputs: seq<Input>): seq<Message<real>> {
    if inputs == [] then []
    else
      var before, i := inputs[..|inputs| - 1], inputs[|inputs| - 1];
      Next(depth, Run(depth, before), Since(depth, before), i)
  }

  // ---------- evictions relayed ----------

  lemma {:induction false} DeletesRemove(s: Side<real>, prices: seq<real>)
    ensures PutAll(s, Deletes(prices)) == s - PriceSet(prices)
  {
    if prices == [] {
      MinusEmpty(s);
    } else {
      var rest, p := prices[..|prices| - 1], prices[|prices| - 1];
      DeletesRemove(s, rest);
      assert Deletes(prices)[..|prices| - 1] == Deletes(rest);
      MinusOneMore(s, rest, p);
      assert rest + [p] == prices;
    }
  }

  /** Read by the plain level rules, the published delta takes the book to the trimmed one. */
  lemma EvictionsRelayTrim(book: Depth<real>, u: Update<real>, depth: nat)
    ensures Apply(book, WithEvictions(book, u, depth)) == Trimmed(Apply(book, u), depth)
  {
    var after := Apply(book, u);
    var lows, highs := LowestExcess(after.bids.Keys, depth), HighestExcess(after.asks.Keys, depth);
    PutAllConcat(book.bids, u.bids, Deletes(lows));
    PutAllConcat(book.asks, u.asks, Deletes(highs));
    DeletesRemove(after.bids, lows);
    DeletesRemove(after.asks, highs);
  }

  /** The published snapshot stands for the trimmed book exactly when it is no deeper than
      the window; nothing relays what a deeper one loses. */
  lemma SnapshotStandsIff(u: Update<real>, depth: nat)
    ensures Build(u) == Trimmed(Build(u), depth) <==> Shallow(u, depth)
  {
    TrimIsIdleIff(Build(u), depth);
  }

  // ---------- what holds at every step ----------

  function Current(d: Driver): seq<Message<real>> {
    OfEpoch(d.published, d.epoch)
  }

  predicate Within(d: Depth<real>, depth: nat) {
    |d.bids.Keys| <= depth && |d.asks.Keys| <= depth
  }

  predicate Ordered(d: Driver) {
    J.EpochsUpTo(d.published, d.epoch) && J.EpochsAscend(d.published)
  }

  /** `ms` are the messages published since the last in-band snapshot. */
  ghost predicate LiveSound(depth: nat, d: Driver, ms: seq<Message<real>>) {
    && d.lastSeq == d.bookSeq && Within(d.book, depth)
    && J.Keeps(ms, d.epoch, d.book, d.bookSeq)
  }

  ghost predicate Sound(depth: nat, d: Driver, ms: seq<Message<real>>) {
    && Ordered(d)
    && (d.phase == Bootstrap ==> Current(d) == [] && ms == [])
    && (d.phase == Live ==> LiveSound(depth, d, ms))
  }

  lemma Publish(d: Driver, msg: Message<real>)
    requires Ordered(d) && msg.epoch == d.epoch
    ensures OfEpoch(d.published + [msg], d.epoch) == Current(d) + [msg]
    ensures Ordered(d.(published := d.published + [msg]))
  {
    C.OfEpochPush(d.published, msg, d.epoch);
    J.EpochsPush(d.published, msg, d.epoch);
  }

  lemma TrimmedIsWithin(book: Depth<real>, depth: nat)
    ensures Within(Trimmed(book, depth), depth)
  {
    TrimKeepsBest(book, depth);
  }

  lemma AddedIs(depth: nat, d: Driver, i: Input, added: seq<Message<real>>)
    requires Step(depth, d, i).published == d.published + added
    ensures Added(depth, d, i) == added
  {
  }

  lemma SnapshotSound(depth: nat, d: Driver, u: Update<real>, ok: bool)
    requires Ordered(d) && d.phase != Stale && Shallow(u, depth)
    ensures var d', added := Settle(OnSnapshot(depth, d, u, ok)), Added(depth, d, InBandSnapshot(u, ok));
            && Ordered(d') && (d'.phase == Live && added != [] ==> LiveSound(depth, d', added))
            && (added == [] ==> d'.phase == Stale)
  {
    var msg := Snapshot(d.epoch, 0, u, NO_STAMP);
    var r := OnSnapshot(depth, d, u, ok);
    if r.Done? {
      Publish(d, msg);
      J.Opens(msg);
      SnapshotStandsIff(u, depth);
      TrimmedIsWithin(Build(u), depth);
      SnapshotAdds(depth, d, u, ok);
    }
  }

  lemma DeltaKeeps(depth: nat, d: Driver, ms: seq<Message<real>>, u: Update<real>)
    requires Ordered(d) && LiveSound(depth, d, ms) && !Locked(Apply(d.book, u))
    ensures Ordered(d.(published := d.published + [DeltaMessage(depth, d, u)]))
    ensures J.Keeps(ms + [DeltaMessage(depth, d, u)], d.epoch, Trimmed(Apply(d.book, u), depth), d.lastSeq + 1)
    ensures Within(Trimmed(Apply(d.book, u), depth), depth)
  {
    Publish(d, DeltaMessage(depth, d, u));
    EvictionsRelayTrim(d.book, u, depth);
    TrimKeepsBest(Apply(d.book, u), depth);
    UnlockedStays(Apply(d.book, u), Trimmed(Apply(d.book, u), depth));
    J.Advances(ms, d.epoch, d.book, d.bookSeq, DeltaMessage(depth, d, u));
  }

  lemma StaleIsSound(depth: nat, d: Driver, ms: seq<Message<real>>)
    requires Ordered(d) && d.phase == Stale
    ensures Sound(depth, d, ms)
  {
  }

  lemma FailedIsSound(depth: nat, d: Driver, h: Handled, ms: seq<Message<real>>)
    requires Ordered(d) && !h.Done? && h.d.published == d.published && h.d.epoch == d.epoch
    ensures Sound(depth, Settle(h), ms)
  {
    StaleIsSound(depth, Settle(h), ms);
  }

  lemma DeltaAdds(depth: nat, d: Driver, u: Update<real>, ok: bool)
    requires OnDelta(depth, d, u, ok).Done?
    ensures d.phase == Live && Added(depth, d, InBandDelta(u, ok)) == [DeltaMessage(depth, d, u)]
  {
    AddedIs(depth, d, InBandDelta(u, ok), [DeltaMessage(depth, d, u)]);
  }

  lemma SnapshotAdds(depth: nat, d: Driver, u: Update<real>, ok: bool)
    requires d.phase != Stale && OnSnapshot(depth, d, u, ok).Done?
    ensures Added(depth, d, InBandSnapshot(u, ok)) == [Snapshot(d.epoch, 0, u, NO_STAMP)]
  {
    AddedIs(depth, d, InBandSnapshot(u, ok), [Snapshot(d.epoch, 0, u, NO_STAMP)]);
  }

  lemma TakenSound(depth: nat, d: Driver, ms: seq<Message<real>>, u: Update<real>, ok: bool)
    requires Sound(depth, d, ms) && d.phase == Live && OnDelta(depth, d, u, ok).Done?
    ensures Sound(depth, OnDelta(depth, d, u, ok).d, ms + [DeltaMessage(depth, d, u)])
  {
    DeltaKeeps(depth, d, ms, u);
  }

  lemma DeltaSound(depth: nat, d: Driver, ms: seq<Message<real>>, u: Update<real>, ok: bool)
    requires Sound(depth, d, ms) && d.phase == Live
    ensures Sound(depth, Settle(OnDelta(depth, d, u, ok)), ms + Added(depth, d, InBandDelta(u, ok)))
  {
    var h := OnDelta(depth, d, u, ok);
    if h.Done? {
      DeltaAdds(depth, d, u, ok);
      TakenSound(depth, d, ms, u, ok);
    } else {
      FailedIsSound(depth, d, h, ms + Added(depth, d, InBandDelta(u, ok)));
    }
  }

  lemma RetellSound(depth: nat, d: Driver, ms: seq<Message<real>>)
    requires Sound(depth, d, ms)
    ensures Sound(depth, Republish(d), ms + Added(depth, d, Retell))
  {
    if d.phase == Live && d.bookSeq >= 0 {
      var msg := Snapshot(d.epoch, d.bookSeq, J.ListBook(d.book), NO_STAMP);
      Publish(d, msg);
      J.ListThenBuild(d.book);
      J.Reshows(ms, d.epoch, d.book, d.bookSeq, msg);
      AddedIs(depth, d, Retell, [msg]);
    } else {
      assert ms + [] == ms;
    }
  }

  lemma ConnectSound(depth: nat, d: Driver, now: int)
    requires Ordered(d)
    ensures Sound(depth, Reset(d, now), [])
  {
    C.OfEpochNone(d.published, Reset(d, now).epoch);
  }

  lemma StepSound(depth: nat, d: Driver, ms: seq<Message<real>>, i: Input)
    requires Sound(depth, d, ms) && (i.InBandSnapshot? ==> Shallow(i.update, depth))
    ensures Sound(depth, Step(depth, d, i), Next(depth, d, ms, i))
  {
    assert ms + [] == ms;
    match i
    case Connect(now) => ConnectSound(depth, d, now);
    case InBandSnapshot(u, ok) => if d.phase != Stale { SnapshotSound(depth, d, u, ok); }
    case InBandDelta(u, ok) => if d.phase == Live { DeltaSound(depth, d, ms, u, ok); }
    case Retell => RetellSound(depth, d, ms);
    case Disconnect =>
  }

  lemma {:induction false} RunSound(depth: nat, inputs: seq<Input>)
    requires Modest(depth, inputs)
    ensures Sound(depth, Run(depth, inputs), Since(depth, inputs))
  {
    if inputs != [] {
      var before, i := inputs[..|inputs| - 1], inputs[|inputs| - 1];
      RunSound(depth, before);
      StepSound(depth, Run(depth, before), Since(depth, before), i);
    }
  }

  // ---------- one snapshot per connection ----------

  lemma AddedIsCurrent(depth: nat, d: Driver, i: Input)
    requires !i.Connect?
    ensures var d', added := Step(depth, d, i), Added(depth, d, i);
            && d'.published == d.published + added && d'.epoch == d.epoch
            && Current(d') == Current(d) + added
  {
    var d' := Step(depth, d, i);
    assert d.published + [] == d.published && Current(d) + [] == Current(d);
    if d'.published != d.published {
      var msg := d'.published[|d.published|];
      assert d'.published == d.published + [msg];
      C.OfEpochPush(d.published, msg, d.epoch);
    }
  }

  lemma StaleStays(depth: nat, d: Driver, i: Input)
    requires d.phase == Stale && !i.Connect?
    ensures Step(depth, d, i).phase == Stale
  {
  }

  lemma NextIsCurrent(depth: nat, d: Driver, ms: seq<Message<real>>, i: Input)
    requires Sound(depth, d, ms) && (d.phase != Stale ==> ms == Current(d))
    requires i.InBandSnapshot? ==> d.phase != Live
    ensures Step(depth, d, i).phase != Stale ==> Next(depth, d, ms, i) == Current(Step(depth, d, i))
  {
    if i.Connect? {
      ConnectSound(depth, d, i.now);
      AddedIs(depth, d, i, []);
    } else {
      AddedIsCurrent(depth, d, i);
      if d.phase == Stale {
        StaleStays(depth, d, i);
      } else if d.phase == Bootstrap {
        assert ms + Added(depth, d, i) == Added(depth, d, i);
      }
    }
  }

  /** With one snapshot per connection, everything the connection published follows it. */
  lemma {:induction false} SinceIsCurrent(depth: nat, inputs: seq<Input>)
    requires Modest(depth, inputs) && OncePerConnection(depth, inputs)
    ensures Run(depth, inputs).phase != Stale ==> Since(depth, inputs) == Current(Run(depth, inputs))
  {
    if inputs != [] {
      var before, i := inputs[..|inputs| - 1], inputs[|inputs| - 1];
      SinceIsCurrent(depth, before);
      RunSound(depth, before);
      NextIsCurrent(depth, Run(depth, before), Since(depth, before), i);
    }
  }

  /** A step publishes nothing, or one message no lower than the connection's others. */
  lemma NextInSequence(depth: nat, d: Driver, i: Input)
    requires Sound(depth, d, Current(d)) || d.phase == Stale
    requires J.SequencesAscend(d.published) && (i.InBandSnapshot? ==> d.phase != Live)
    ensures J.SequencesAscend(Step(depth, d, i).published)
  {
    var d' := Step(depth, d, i);
    if d'.published != d.published {
      var msg := d'.published[|d.published|];
      assert d'.published == d.published + [msg] && msg.epoch == d.epoch;
      if d.phase == Live {
        J.KeepsBelow(Current(d), d.epoch, d.book, d.bookSeq);
        assert msg.sequence >= d.bookSeq;
      }
      J.SequencesPush(d.published, msg);
    }
  }

  lemma {:induction false} RunInSequence(depth: nat, inputs: seq<Input>)
    requires Modest(depth, inputs) && OncePerConnection(depth, inputs)
    ensures J.SequencesAscend(Run(depth, inputs).published)
  {
    if inputs != [] {
      var before := inputs[..|inputs| - 1];
      RunInSequence(depth, before);
      RunSound(depth, before);
      SinceIsCurrent(depth, before);
      NextInSequence(depth, Run(depth, before), inputs[|inputs| - 1]);
    }
  }

  // ---------- the theorems ----------

  /** At every live state what was published since the last in-band snapshot, read by the
      gateway's level rules, gives exactly the driver's depth-limited book, and every
      re-snapshot shows the state published as of its own sequence. */
  lemma PublishedIsTrimmedBook(depth: nat, inputs: seq<Input>)
    requires Modest(depth, inputs) && Run(depth, inputs).phase == Live
    ensures var d, ms := Run(depth, inputs), Since(depth, inputs);
            var snaps, deltas := C.SnapshotsOf(ms), C.DeltasOf(ms);
            && snaps != []
            && ApplyAll(Build(snaps[0].update), deltas) == d.book && Within(d.book, depth)
            && forall i :: 0 <= i < |snaps| ==> J.Shows(snaps[0], deltas, snaps[i])
  {
    RunSound(depth, inputs);
  }

  /** With one snapshot per connection, what a live driver published is a faithful log that
      stands for its book. */
  lemma PublishesFaithfully(depth: nat, inputs: seq<Input>) returns (first: nat)
    requires Modest(depth, inputs) && OncePerConnection(depth, inputs) && Run(depth, inputs).phase == Live
    ensures var d := Run(depth, inputs);
            J.FaithfulFrom(C.SnapshotsOf(d.published), C.DeltasOf(d.published), first, BookState(d.book, d.bookSeq, d.epoch))
    ensures Ordered(Run(depth, inputs))
  {
    RunSound(depth, inputs);
    SinceIsCurrent(depth, inputs);
    var d := Run(depth, inputs);
    first := J.NewestEpochIsFaithful(d.published, d.epoch, d.book, d.bookSeq);
  }

  /** Hence a gateway reading the two topics in any order ends with the driver's trimmed
      book, unless its full buffer sheds one of the connection's deltas. */
  lemma GatewayRebuildsDriver(depth: nat, inputs: seq<Input>, ms: seq<Message<real>>)
    requires Modest(depth, inputs) && OncePerConnection(depth, inputs) && Run(depth, inputs).phase == Live
    requires C.SnapshotsOf(ms) == C.SnapshotsOf(Run(depth, inputs).published)
    requires C.DeltasOf(ms) == C.DeltasOf(Run(depth, inputs).published)
    requires C.Spared(ms, Run(depth, inputs).epoch, -1)
    ensures var d := Run(depth, inputs); S.Run(ms).book == Some(BookState(d.book, d.bookSeq, d.epoch))
  {
    var first := PublishesFaithfully(depth, inputs);
    var d := Run(depth, inputs);
    J.InterleavingRebuilds(d.published, ms, first, BookState(d.book, d.bookSeq, d.epoch));
  }

  // ---------- a second snapshot ----------

  lemma KeepsUncrossed(ms: seq<Message<real>>, epoch: int, depth: Depth<real>, at: int)
    requires J.Keeps(ms, epoch, depth, at)
    ensures !Crossed(depth) && at >= 0
  {
    var snaps, deltas := C.SnapshotsOf(ms), C.DeltasOf(ms);
    assert deltas[..|deltas|] == deltas;
    UnlockedStays(depth, depth);
    assert snaps[|snaps| - 1].sequence >= snaps[0].sequence;
  }

  lemma RunPush(ms: seq<Message<real>>, m: Message<real>)
    ensures S.Run(ms + [m]) == S.Step(S.Run(ms), m).state
  {
    assert (ms + [m])[..|ms|] == ms;
  }

  /** One snapshot per connection is needed: a second one restarts the driver's count at
      zero, the gateway skips it as stale and stays with the old book. */
  lemma SecondSnapshotIsSkipped(depth: nat, inputs: seq<Input>, u: Update<real>)
    requires Modest(depth, inputs) && OncePerConnection(depth, inputs) && Run(depth, inputs).phase == Live
    requires C.Spared(Run(depth, inputs).published, Run(depth, inputs).epoch, -1)
    requires !Locked(Build(u))
    ensures var d, d' := Run(depth, inputs), Run(depth, inputs + [InBandSnapshot(u, true)]);
            && d'.phase == Live && d'.book == Trimmed(Build(u), depth)
            && S.Run(d'.published).book == Some(BookState(d.book, d.bookSeq, d.epoch))
            && (S.Run(d'.published).book == Some(BookState(d'.book, d'.bookSeq, d'.epoch))
                <==> d.bookSeq == 0 && d.book == d'.book)
  {
    var d, i := Run(depth, inputs), InBandSnapshot(u, true);
    assert (inputs + [i])[..|inputs|] == inputs;
    GatewayRebuildsDriver(depth, inputs, d.published);
    RunSound(depth, inputs);
    KeepsUncrossed(Since(depth, inputs), d.epoch, d.book, d.bookSeq);
    RunPush(d.published, Snapshot(d.epoch, 0, u, NO_STAMP));
  }
}
