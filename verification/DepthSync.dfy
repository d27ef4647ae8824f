/** The two Binance drivers for one symbol: deltas are buffered while a REST snapshot is
    fetched, and then chained onto it by update id.  Spot expects consecutive ids,
    futures an overlap first and afterwards the `pu` chain.

    `Input`s are what can happen to a driver: a new connection, a fetch result, any
    event at any time, the re-snapshot timer.  The theorems hold for every sequence of
    inputs in which the venue tells the truth, however events are dropped, repeated or
    reordered on the way. */
module DepthSync {
  import opened Levels
  import opened Stream
  import opened Venue
  import C = Convergence
  import J = Journal
  import S = Stream
  import opened OrderBook

  datatype Market = Spot | Futures

  datatype Phase = Bootstrap | Buffering | Live | Stale

  datatype Fetch = Waiting | Failed | Ready(lastId: int, update: Update<real>)

  const MAX_BUFFER_DELTAS: nat := 500

  /** `snapId` is the spot driver's record of the snapshot id, `synced` the futures
      driver's mark that the overlap was found. */
  datatype Driver = Driver(
    phase: Phase, lastSeq: int, book: Depth<real>, bookSeq: int, buffered: seq<Event>, fetch: Fetch,
    snapId: Option<int>, synced: bool, epoch: int, published: seq<Message<real>>)

  /** Handling an event ends normally, demands a resync, or breaks a book invariant. */
  datatype Handled = Done(d: Driver) | Resync(d: Driver) | Broken(d: Driver)

  const NO_STAMP := Stamp(0, 0)

  function NewDriver(): Driver {
    Driver(Bootstrap, -1, Empty(), -1, [], Waiting, None, false, 0, [])
  }

  // ---------- one event on a live book ----------

  datatype Verdict = Take | Skip | SkipAndSync | Gap

  function SpotVerdict(d: Driver, e: Event): Verdict {
    if e.last <= d.lastSeq then Skip
    else if d.snapId == Some(d.lastSeq) then (if e.first > d.lastSeq + 1 then Gap else Take)
    else if e.first != d.lastSeq + 1 then Gap
    else Take
  }

  function FuturesVerdict(d: Driver, e: Event): Verdict {
    if !d.synced then
      if e.last < d.lastSeq then Skip
      else if !(e.first <= d.lastSeq <= e.last) then Gap
      else if e.last == d.lastSeq then SkipAndSync
      else Take
    else if e.prev != d.lastSeq then Gap
    else Take
  }

  function Judge(m: Market, d: Driver, e: Event): Verdict {
    if m == Spot then SpotVerdict(d, e) else FuturesVerdict(d, e)
  }

  function DeltaMessage(d: Driver, e: Event): Message<real> {
    Delta(d.epoch, e.last, e.update, NO_STAMP)
  }

  /** Reads the event into the book and publishes it. */
  function Commit(d: Driver, e: Event): Handled {
    if e.last <= d.bookSeq then Broken(d)
    else
      var book := Apply(d.book, e.update);
      if Locked(book) then Broken(d.(book := book))
      else Done(d.(book := book, bookSeq := e.last, published := d.published + [DeltaMessage(d, e)], lastSeq := e.last))
  }

  function ApplySynced(m: Market, d: Driver, e: Event): Handled {
    match Judge(m, d, e)
    case Skip => Done(d)
    case SkipAndSync => Done(d.(synced := true))
    case Gap => Resync(d)
    case Take => Commit(if m == Futures then d.(synced := true) else d, e)
  }

  /** The buffered events in arrival order, up to the first that cannot be taken. */
  function ApplyMany(m: Market, d: Driver, es: seq<Event>): Handled {
    if es == [] then Done(d)
    else
      var r := ApplyMany(m, d, es[..|es| - 1]);
      if r.Done? then ApplySynced(m, r.d, es[|es| - 1]) else r
  }

  function SnapshotMessage(d: Driver, id: int, u: Update<real>): Message<real> {
    Snapshot(d.epoch, id, u, NO_STAMP)
  }

  function TakeSnapshot(d: Driver, id: int, u: Update<real>): Handled {
    if Locked(Build(u)) then Broken(d)
    else
      Done(d.(book := Build(u), bookSeq := id, phase := Live, lastSeq := id, snapId := Some(id),
              published := d.published + [SnapshotMessage(d, id, u)], buffered := [], fetch := Waiting))
  }

  function ApplySnapshotAndDrain(m: Market, d: Driver, e: Event): Handled
    requires d.fetch.Ready?
  {
    var r := TakeSnapshot(d, d.fetch.lastId, d.fetch.update);
    if r.Done? then ApplyMany(m, r.d, d.buffered + [e]) else r
  }

  function ProcessDelta(m: Market, d: Driver, e: Event): Handled {
    match d.phase
    case Buffering =>
      (match d.fetch
       case Waiting => if |d.buffered| >= MAX_BUFFER_DELTAS then Resync(d) else Done(d.(buffered := d.buffered + [e]))
       case Failed => Resync(d)
       case Ready(_, _) => ApplySnapshotAndDrain(m, d, e))
    case Live => ApplySynced(m, d, e)
    case _ => Resync(d)
  }

  /** The applier's handlers: a resync leaves the symbol stale, a broken book is cleared too. */
  function Settle(h: Handled): Driver {
    match h
    case Done(d) => d
    case Resync(d) => d.(phase := Stale)
    case Broken(d) => d.(book := Empty(), bookSeq := -1, phase := Stale)
  }

  // ---------- inputs ----------

  datatype Input =
    | Connect(now: int)
    | Disconnect
    | Fetched(result: Fetch)
    | Deliver(e: Event)
    | Retell

  function Reset(d: Driver, now: int): Driver {
    var epoch := if d.epoch + 1 > now then d.epoch + 1 else now;
    Driver(Buffering, -1, Empty(), -1, [], Waiting, None, false, epoch, d.published)
  }

  /** The re-snapshot timer republishes a live book at its own sequence. */
  function Republish(d: Driver): Driver {
    if d.phase == Live && d.bookSeq >= 0 then
      d.(published := d.published + [SnapshotMessage(d, d.bookSeq, J.ListBook(d.book))])
    else d
  }

  function Step(m: Market, d: Driver, i: Input): Driver {
    match i
    case Connect(now) => Reset(d, now)
    case Disconnect => d.(phase := Stale)
    case Fetched(result) => d.(fetch := result)
    case Deliver(e) => Settle(ProcessDelta(m, d, e))
    case Retell => Republish(d)
  }

  function Run(m: Market, inputs: seq<Input>): Driver {
    if inputs == [] then NewDriver() else Step(m, Run(m, inputs[..|inputs| - 1]), inputs[|inputs| - 1])
  }

  /** The venue tells the truth: what arrives is a true event or a true snapshot. */
  ghost predicate HonestInput(m: Market, v: History, i: Input) {
    match i
    case Fetched(r) => r.Ready? ==> TruthfulSnapshot(v, r.lastId, r.update)
    case Deliver(e) => Truthful(v, e) && (m == Futures ==> Chained(v, e))
    case _ => true
  }

  ghost predicate Honest(m: Market, v: History, inputs: seq<Input>) {
    forall k :: 0 <= k < |inputs| ==> HonestInput(m, v, inputs[k])
  }

  // ---------- what the driver knows ----------

  /** The messages of the current connection. */
  function Current(d: Driver): seq<Message<real>> {
    OfEpoch(d.published, d.epoch)
  }

  predicate NamedBy(ms: seq<Message<real>>, side: Side2, p: real) {
    exists k :: 0 <= k < |ms| && ms[k].Delta? && Names(ChangesOf(ms[k].update, side), p)
  }

  /** The prices the driver answers for: those its first snapshot covers, and those a
      published delta has named. */
  predicate Known(ms: seq<Message<real>>, side: Side2, p: real) {
    ms != [] && (Covers(ms[0].update, side, p) || NamedBy(ms, side, p))
  }

  /** On every known price the book agrees with the venue's state at `lastSeq`. */
  ghost predicate Agrees(v: History, d: Driver) {
    && 0 <= d.lastSeq <= |v|
    && forall side, p :: Known(Current(d), side, p) ==>
         Lookup(SideOf(d.book, side), p) == Lookup(SideOf(After(v, d.lastSeq), side), p)
  }

  /** No epoch lies above the current one, and within each the sequences do not go down. */
  predicate Orderly(d: Driver) {
    J.EpochsUpTo(d.published, d.epoch) && J.SequencesAscend(d.published)
  }

  ghost predicate BufferHonest(m: Market, v: History, d: Driver) {
    && (forall k :: 0 <= k < |d.buffered| ==> HonestInput(m, v, Deliver(d.buffered[k])))
    && HonestInput(m, v, Fetched(d.fetch))
  }

  /** A live driver's book is what it published, and agrees with the venue. */
  ghost predicate LiveSound(v: History, d: Driver) {
    && d.phase == Live && Orderly(d)
    && d.lastSeq == d.bookSeq && Agrees(v, d)
    && J.Keeps(Current(d), d.epoch, d.book, d.bookSeq)
  }

  ghost predicate Sound(m: Market, v: History, d: Driver) {
    && Orderly(d) && BufferHonest(m, v, d)
    && (d.phase == Live ==> LiveSound(v, d))
    && (d.phase == Buffering ==> Current(d) == [])
  }

  // ---------- publishing ----------

  lemma {:induction false} PublishCurrent(d: Driver, msg: Message<real>)
    requires Orderly(d) && msg.epoch == d.epoch && forall x :: x in Current(d) ==> x.sequence <= msg.sequence
    ensures OfEpoch(d.published + [msg], d.epoch) == Current(d) + [msg]
    ensures Orderly(d.(published := d.published + [msg]))
  {
    C.OfEpochPush(d.published, msg, d.epoch);
    J.SequencesPush(d.published, msg);
    EpochsUpToPush(d.published, msg);
  }

  lemma EpochsUpToPush(ms: seq<Message<real>>, msg: Message<real>)
    requires J.EpochsUpTo(ms, msg.epoch)
    ensures J.EpochsUpTo(ms + [msg], msg.epoch)
  {
  }

  lemma PublishLive(v: History, d: Driver, msg: Message<real>)
    requires LiveSound(v, d) && msg.epoch == d.epoch && d.bookSeq <= msg.sequence
    ensures OfEpoch(d.published + [msg], d.epoch) == Current(d) + [msg]
    ensures Orderly(d.(published := d.published + [msg]))
  {
    J.KeepsBelow(Current(d), d.epoch, d.book, d.bookSeq);
    PublishCurrent(d, msg);
  }

  lemma KnownPush(ms: seq<Message<real>>, msg: Message<real>, side: Side2, p: real)
    requires ms != [] && Known(ms + [msg], side, p)
    ensures Known(ms, side, p) || (msg.Delta? && Names(ChangesOf(msg.update, side), p))
  {
    assert (ms + [msg])[0] == ms[0];
    if NamedBy(ms + [msg], side, p) {
      var k :| 0 <= k < |ms + [msg]| && (ms + [msg])[k].Delta? && Names(ChangesOf((ms + [msg])[k].update, side), p);
      if k < |ms| {
        assert ms[k].Delta? && Names(ChangesOf(ms[k].update, side), p);
      }
    }
  }

  lemma KeepsNonEmpty(ms: seq<Message<real>>, epoch: int, depth: Depth<real>, at: int)
    requires J.Keeps(ms, epoch, depth, at)
    ensures ms != []
  {
  }

  // ---------- one event ----------

  /** No update of this book falls between the driver's last id and the event. */
  ghost predicate NothingSkipped(v: History, last: int, e: Event) {
    0 <= last && forall id :: last < id < e.first && id <= |v| ==> Idle(v, id)
  }

  /** A taken event never skips an update, on either market. */
  lemma TakenSkipsNothing(m: Market, v: History, d: Driver, e: Event)
    requires Judge(m, d, e) == Take && HonestInput(m, v, Deliver(e)) && 0 <= d.lastSeq
    ensures NothingSkipped(v, d.lastSeq, e)
  {
  }

  lemma CommitAgrees(v: History, d: Driver, e: Event)
    requires LiveSound(v, d) && Truthful(v, e) && NothingSkipped(v, d.lastSeq, e)
    requires Commit(d, e).Done?
    ensures Agrees(v, Commit(d, e).d)
  {
    var d' := Commit(d, e).d;
    PublishLive(v, d, DeltaMessage(d, e));
    KeepsNonEmpty(Current(d), d.epoch, d.book, d.bookSeq);
    forall side, p | Known(Current(d'), side, p)
      ensures Lookup(SideOf(d'.book, side), p) == Lookup(SideOf(After(v, d'.lastSeq), side), p)
    {
      KnownPush(Current(d), DeltaMessage(d, e), side, p);
      forall id | d.lastSeq < id < e.first ensures !Touches(v, id, side, p) {
        assert Idle(v, id);
      }
      EventCarries(v, d.lastSeq, e, d.book, side, p);
    }
  }

  lemma CommitSound(v: History, d: Driver, e: Event)
    requires LiveSound(v, d) && Truthful(v, e) && NothingSkipped(v, d.lastSeq, e)
    ensures var r := Commit(d, e); if r.Done? then LiveSound(v, r.d) else Orderly(r.d)
  {
    if Commit(d, e).Done? {
      CommitAgrees(v, d, e);
      PublishLive(v, d, DeltaMessage(d, e));
      J.Advances(Current(d), d.epoch, d.book, d.bookSeq, DeltaMessage(d, e));
    }
  }

  lemma SyncedMarkSound(v: History, d: Driver)
    requires LiveSound(v, d)
    ensures LiveSound(v, d.(synced := true))
  {
    assert Current(d.(synced := true)) == Current(d);
  }

  lemma CommitFrame(d: Driver, e: Event)
    ensures Commit(d, e).d.fetch == d.fetch && Commit(d, e).d.buffered == d.buffered
  {
  }

  lemma TakenSound(m: Market, v: History, d: Driver, at: Driver, e: Event)
    requires LiveSound(v, d) && HonestInput(m, v, Deliver(e)) && Judge(m, d, e) == Take
    requires at == if m == Futures then d.(synced := true) else d
    ensures var r := Commit(at, e);
            && (if r.Done? then LiveSound(v, r.d) else Orderly(r.d))
            && r.d.fetch == d.fetch && r.d.buffered == d.buffered
  {
    TakenSkipsNothing(m, v, d, e);
    SyncedMarkSound(v, d);
    CommitSound(v, at, e);
    CommitFrame(at, e);
  }

  lemma ApplySyncedSound(m: Market, v: History, d: Driver, e: Event)
    requires LiveSound(v, d) && HonestInput(m, v, Deliver(e))
    ensures var r := ApplySynced(m, d, e); if r.Done? then LiveSound(v, r.d) else Orderly(r.d)
    ensures ApplySynced(m, d, e).d.fetch == d.fetch && ApplySynced(m, d, e).d.buffered == d.buffered
  {
    SyncedMarkSound(v, d);
    if Judge(m, d, e) == Take {
      TakenSound(m, v, d, if m == Futures then d.(synced := true) else d, e);
    }
  }

  lemma {:induction false} ApplyManySound(m: Market, v: History, d: Driver, es: seq<Event>)
    requires LiveSound(v, d) && forall k :: 0 <= k < |es| ==> HonestInput(m, v, Deliver(es[k]))
    ensures var r := ApplyMany(m, d, es); if r.Done? then LiveSound(v, r.d) else Orderly(r.d)
    ensures ApplyMany(m, d, es).d.fetch == d.fetch && ApplyMany(m, d, es).d.buffered == d.buffered
  {
    if es != [] {
      ApplyManySound(m, v, d, es[..|es| - 1]);
      var r := ApplyMany(m, d, es[..|es| - 1]);
      if r.Done? {
        ApplySyncedSound(m, v, r.d, es[|es| - 1]);
      }
    }
  }

  // ---------- the snapshot ----------

  lemma SnapshotSound(v: History, d: Driver, id: int, u: Update<real>)
    requires Orderly(d) && Current(d) == [] && TruthfulSnapshot(v, id, u)
    ensures var r := TakeSnapshot(d, id, u);
            if r.Done? then LiveSound(v, r.d) && r.d.buffered == [] && r.d.fetch == Waiting else r == Broken(d)
  {
    var msg := SnapshotMessage(d, id, u);
    PublishCurrent(d, msg);
    assert [] + [msg] == [msg];
    var r := TakeSnapshot(d, id, u);
    if r.Done? {
      J.Opens(msg);
      assert Current(r.d) == [msg];
      forall side, p | Known(Current(r.d), side, p)
        ensures Lookup(SideOf(r.d.book, side), p) == Lookup(SideOf(After(v, r.d.lastSeq), side), p)
      {
        assert Covers(u, side, p);
      }
    }
  }

  lemma DrainSound(m: Market, v: History, d: Driver, e: Event)
    requires Sound(m, v, d) && d.phase == Buffering && d.fetch.Ready? && HonestInput(m, v, Deliver(e))
    ensures var r := ApplySnapshotAndDrain(m, d, e); if r.Done? then LiveSound(v, r.d) else Orderly(r.d)
    ensures BufferHonest(m, v, ApplySnapshotAndDrain(m, d, e).d)
  {
    SnapshotSound(v, d, d.fetch.lastId, d.fetch.update);
    var t := TakeSnapshot(d, d.fetch.lastId, d.fetch.update);
    if t.Done? {
      ApplyManySound(m, v, t.d, d.buffered + [e]);
    }
  }

  lemma SettleSound(m: Market, v: History, r: Handled)
    requires BufferHonest(m, v, r.d)
    requires if r.Done? then Sound(m, v, r.d) else Orderly(r.d)
    ensures Sound(m, v, Settle(r))
  {
  }

  lemma DeliverSound(m: Market, v: History, d: Driver, e: Event)
    requires Sound(m, v, d) && HonestInput(m, v, Deliver(e))
    ensures Sound(m, v, Step(m, d, Deliver(e)))
  {
    var r := ProcessDelta(m, d, e);
    if d.phase == Live {
      ApplySyncedSound(m, v, d, e);
    } else if d.phase == Buffering && d.fetch.Ready? {
      DrainSound(m, v, d, e);
    } else if r.Done? {
      BufferingSound(m, v, d, e);
    }
    SettleSound(m, v, r);
  }

  lemma BufferingSound(m: Market, v: History, d: Driver, e: Event)
    requires Sound(m, v, d) && HonestInput(m, v, Deliver(e)) && d.phase == Buffering
    ensures Sound(m, v, d.(buffered := d.buffered + [e]))
  {
  }

  lemma ConnectSound(m: Market, v: History, d: Driver, now: int)
    requires Sound(m, v, d)
    ensures Sound(m, v, Step(m, d, Connect(now)))
  {
    C.OfEpochNone(d.published, Reset(d, now).epoch);
  }

  lemma RetellSound(m: Market, v: History, d: Driver)
    requires Sound(m, v, d)
    ensures Sound(m, v, Step(m, d, Retell))
  {
    if d.phase == Live && d.bookSeq >= 0 {
      var msg := SnapshotMessage(d, d.bookSeq, J.ListBook(d.book));
      var d' := Republish(d);
      PublishLive(v, d, msg);
      J.ListThenBuild(d.book);
      J.Reshows(Current(d), d.epoch, d.book, d.bookSeq, msg);
      KeepsNonEmpty(Current(d), d.epoch, d.book, d.bookSeq);
      forall side, p | Known(Current(d'), side, p) ensures Known(Current(d), side, p) {
        KnownPush(Current(d), msg, side, p);
      }
    }
  }

  lemma StepSound(m: Market, v: History, d: Driver, i: Input)
    requires Sound(m, v, d) && HonestInput(m, v, i)
    ensures Sound(m, v, Step(m, d, i))
  {
    match i
    case Connect(now) => ConnectSound(m, v, d, now);
    case Deliver(e) => DeliverSound(m, v, d, e);
    case Retell => RetellSound(m, v, d);
    case _ =>
  }

  lemma {:induction false} RunSound(m: Market, v: History, inputs: seq<Input>)
    requires Honest(m, v, inputs)
    ensures Sound(m, v, Run(m, inputs))
  {
    if inputs != [] {
      var before, i := inputs[..|inputs| - 1], inputs[|inputs| - 1];
      RunSound(m, v, before);
      assert HonestInput(m, v, i);
      StepSound(m, v, Run(m, before), i);
    }
  }

  // ---------- the theorems ----------

  /** Depth sync never hides a gap: whatever was dropped, repeated or reordered, a live
      driver agrees with the venue's true state at its last id on every price its
      snapshot covers or an applied event has named. */
  lemma NeverHidesAGap(m: Market, v: History, inputs: seq<Input>)
    requires Honest(m, v, inputs) && Run(m, inputs).phase == Live
    ensures Agrees(v, Run(m, inputs))
  {
    RunSound(m, v, inputs);
  }

  /** What a live driver has published, over all its connections, is a faithful log, and
      the log stands for the driver's own book. */
  lemma PublishesFaithfully(m: Market, v: History, inputs: seq<Input>) returns (first: nat)
    requires Honest(m, v, inputs) && Run(m, inputs).phase == Live
    ensures var d := Run(m, inputs);
            J.FaithfulFrom(C.SnapshotsOf(d.published), C.DeltasOf(d.published), first, BookState(d.book, d.bookSeq, d.epoch))
  {
    RunSound(m, v, inputs);
    RunOrdered(m, inputs);
    var d := Run(m, inputs);
    first := J.NewestEpochIsFaithful(d.published, d.epoch, d.book, d.bookSeq);
  }

  /** Hence a gateway that reads the two topics in any order ends with the driver's book,
      levels, sequence and epoch, unless its full buffer sheds one of the connection's
      deltas.  No heal can lose anything: the driver publishes no crossed book. */
  lemma GatewayRebuildsDriver(m: Market, v: History, inputs: seq<Input>, ms: seq<Message<real>>)
    requires Honest(m, v, inputs) && Run(m, inputs).phase == Live
    requires C.SnapshotsOf(ms) == C.SnapshotsOf(Run(m, inputs).published)
    requires C.DeltasOf(ms) == C.DeltasOf(Run(m, inputs).published)
    requires C.Spared(ms, Run(m, inputs).epoch, -1)
    ensures var d := Run(m, inputs); S.Run(ms).book == Some(BookState(d.book, d.bookSeq, d.epoch))
  {
    var first := PublishesFaithfully(m, v, inputs);
    var d := Run(m, inputs);
    J.InterleavingRebuilds(d.published, ms, first, BookState(d.book, d.bookSeq, d.epoch));
  }

  // ---------- epochs never go down ----------

  predicate Ordered(d: Driver) {
    J.EpochsUpTo(d.published, d.epoch) && J.EpochsAscend(d.published)
  }

  lemma PublishOrdered(d: Driver, msg: Message<real>)
    requires Ordered(d) && msg.epoch == d.epoch
    ensures Ordered(d.(published := d.published + [msg]))
  {
    J.EpochsPush(d.published, msg, d.epoch);
  }

  lemma ApplySyncedOrdered(m: Market, d: Driver, e: Event)
    requires Ordered(d)
    ensures var r := ApplySynced(m, d, e); Ordered(r.d) && r.d.epoch == d.epoch
  {
    PublishOrdered(d, DeltaMessage(d, e));
  }

  lemma {:induction false} ApplyManyOrdered(m: Market, d: Driver, es: seq<Event>)
    requires Ordered(d)
    ensures Ordered(ApplyMany(m, d, es).d)
  {
    if es != [] {
      ApplyManyOrdered(m, d, es[..|es| - 1]);
      ApplySyncedOrdered(m, ApplyMany(m, d, es[..|es| - 1]).d, es[|es| - 1]);
    }
  }

  lemma ProcessOrdered(m: Market, d: Driver, e: Event)
    requires Ordered(d)
    ensures Ordered(ProcessDelta(m, d, e).d)
  {
    ApplySyncedOrdered(m, d, e);
    if d.fetch.Ready? {
      PublishOrdered(d, SnapshotMessage(d, d.fetch.lastId, d.fetch.update));
      ApplyManyOrdered(m, TakeSnapshot(d, d.fetch.lastId, d.fetch.update).d, d.buffered + [e]);
    }
  }

  lemma {:induction false} RunOrdered(m: Market, inputs: seq<Input>)
    ensures Ordered(Run(m, inputs))
  {
    if inputs != [] {
      var d, i := Run(m, inputs[..|inputs| - 1]), inputs[|inputs| - 1];
      RunOrdered(m, inputs[..|inputs| - 1]);
      if i.Deliver? {
        ProcessOrdered(m, d, i.e);
      } else if i.Retell? {
        PublishOrdered(d, SnapshotMessage(d, d.bookSeq, J.ListBook(d.book)));
      }
    }
  }
}
