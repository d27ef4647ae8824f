/** The two book topics as an ingester fills them.

    Within one connection epoch a driver publishes its first snapshot, then deltas
    with growing sequences, and now and then a re-snapshot of its own book at its own
    sequence.  `Keeps` says the published messages rebuild the driver's book; the
    lemmas show that each kind of publication keeps it, and that the topics are then
    exactly what the gateway's reconstruction relies on (`Convergence.Faithful`). */
module Journal {
  import opened Levels
  import opened Stream
  import opened Convergence

  /** The snapshots of one epoch, in order, each showing the state published so far. */
  ghost predicate SnapshotsShow<E>(snaps: seq<Message<E>>, deltas: seq<Message<E>>, epoch: int) {
    && snaps != [] && OneEpoch(snaps, epoch) && snaps[0].sequence >= 0
    && (forall i :: 0 <= i < |snaps| ==> snaps[i].Snapshot?)
    && (forall i, j :: 0 <= i <= j < |snaps| ==> snaps[i].sequence <= snaps[j].sequence)
    && (forall i :: 0 <= i < |snaps| ==> Shows(snaps[0], deltas, snaps[i]))
  }

  ghost predicate TopicsKeep<E>(snaps: seq<Message<E>>, deltas: seq<Message<E>>, epoch: int, depth: Depth<E>, at: int) {
    && SnapshotsShow(snaps, deltas, epoch)
    && OneEpoch(deltas, epoch) && Ascends(snaps[0].sequence, deltas)
    && depth == ApplyAll(Build(snaps[0].update), deltas) && NeverLocked(snaps[0], deltas)
    && at == Max(snaps[|snaps| - 1].sequence, Top(snaps[0].sequence, deltas))
  }

  /** `ms`, all of one epoch, opens with a snapshot and rebuilds the book `depth` at `at`. */
  ghost predicate Keeps<E>(ms: seq<Message<E>>, epoch: int, depth: Depth<E>, at: int) {
    TopicsKeep(SnapshotsOf(ms), DeltasOf(ms), epoch, depth, at)
  }

  /** A snapshot shows the state published as of its sequence. */
  predicate Shows<E(==)>(s0: Message<E>, deltas: seq<Message<E>>, s: Message<E>) {
    Build(s.update) == StateAt(s0, deltas, s.sequence)
  }

  lemma PushTopics<E>(ms: seq<Message<E>>, m: Message<E>)
    ensures SnapshotsOf(ms + [m]) == SnapshotsOf(ms) + if m.Snapshot? then [m] else []
    ensures DeltasOf(ms + [m]) == DeltasOf(ms) + if m.Delta? then [m] else []
  {
    assert (ms + [m])[..|ms|] == ms;
  }

  lemma Opens<E>(s: Message<E>)
    requires s.Snapshot? && s.sequence >= 0 && !Locked(Build(s.update))
    ensures Keeps([s], s.epoch, Build(s.update), s.sequence)
  {
    PushTopics([], s);
    assert [] + [s] == [s];
    OpensTopics(s);
  }

  lemma OpensTopics<E>(s: Message<E>)
    requires s.Snapshot? && s.sequence >= 0 && !Locked(Build(s.update))
    ensures TopicsKeep([s], [], s.epoch, Build(s.update), s.sequence)
  {
    StateAtBase(s, []);
  }

  lemma ShowsStable<E>(snaps: seq<Message<E>>, deltas: seq<Message<E>>, epoch: int, d: Message<E>)
    requires SnapshotsShow(snaps, deltas, epoch) && d.sequence > snaps[|snaps| - 1].sequence
    ensures SnapshotsShow(snaps, deltas + [d], epoch)
  {
    forall i | 0 <= i < |snaps| ensures Shows(snaps[0], deltas + [d], snaps[i]) {
      assert snaps[i].sequence <= snaps[|snaps| - 1].sequence;
      StateAtStable(snaps[0], deltas, d, snaps[i].sequence);
    }
  }

  lemma UnlockedPush<E>(s0: Message<E>, deltas: seq<Message<E>>, d: Message<E>)
    requires NeverLocked(s0, deltas) && !Locked(ApplyAll(Build(s0.update), deltas + [d]))
    ensures NeverLocked(s0, deltas + [d])
  {
    var ds := deltas + [d];
    forall k | 0 <= k <= |ds| ensures !Locked(ApplyAll(Build(s0.update), ds[..k])) {
      if k <= |deltas| {
        assert ds[..k] == deltas[..k];
      } else {
        assert ds[..k] == ds;
      }
    }
  }

  /** A delta published above the book that does not lock it keeps the log reading back to the book it
      leaves. */
  lemma Advances<E>(ms: seq<Message<E>>, epoch: int, depth: Depth<E>, at: int, d: Message<E>)
    requires Keeps(ms, epoch, depth, at) && d.Delta? && d.epoch == epoch && d.sequence > at
    requires !Locked(Apply(depth, d.update))
    ensures Keeps(ms + [d], epoch, Apply(depth, d.update), d.sequence)
  {
    var snaps, deltas := SnapshotsOf(ms), DeltasOf(ms);
    PushTopics(ms, d);
    assert snaps + [] == snaps;
    AscendsPush(snaps[0].sequence, deltas, d);
    ApplyPush(Build(snaps[0].update), deltas, d);
    UnlockedPush(snaps[0], deltas, d);
    ShowsStable(snaps, deltas, epoch, d);
  }

  lemma SnapshotsPush<E>(snaps: seq<Message<E>>, deltas: seq<Message<E>>, epoch: int, s: Message<E>)
    requires SnapshotsShow(snaps, deltas, epoch) && s.Snapshot? && s.epoch == epoch
    requires snaps[|snaps| - 1].sequence <= s.sequence && Shows(snaps[0], deltas, s)
    ensures SnapshotsShow(snaps + [s], deltas, epoch)
  {
    assert (snaps + [s])[0] == snaps[0];
    LastStaysLast(snaps, s);
  }

  lemma LastStaysLast<E>(snaps: seq<Message<E>>, s: Message<E>)
    requires snaps != [] && snaps[|snaps| - 1].sequence <= s.sequence
    requires forall i, j :: 0 <= i <= j < |snaps| ==> snaps[i].sequence <= snaps[j].sequence
    ensures forall i, j :: 0 <= i <= j < |snaps + [s]| ==> (snaps + [s])[i].sequence <= (snaps + [s])[j].sequence
  {
  }

  lemma Reshows<E>(ms: seq<Message<E>>, epoch: int, depth: Depth<E>, at: int, s: Message<E>)
    requires Keeps(ms, epoch, depth, at) && s.Snapshot? && s.epoch == epoch && s.sequence == at
    requires Build(s.update) == depth
    ensures Keeps(ms + [s], epoch, depth, at)
  {
    var snaps, deltas := SnapshotsOf(ms), DeltasOf(ms);
    PushTopics(ms, s);
    assert deltas + [] == deltas;
    FullState(snaps[0], deltas, snaps[|snaps| - 1].sequence);
    SnapshotsPush(snaps, deltas, epoch, s);
  }

  // ---------- a driver's whole output ----------

  /** The topics form a faithful log, with its last epoch from `first` and never locked
      there, standing for `book`. */
  ghost predicate FaithfulFrom<E>(snaps: seq<Message<E>>, deltas: seq<Message<E>>, first: nat, book: BookState<E>) {
    && LastEpochFrom(snaps, first) && Faithful(snaps, deltas, first)
    && NeverLocked(snaps[first], Later(deltas, snaps[first]))
    && Reconstructed(snaps, deltas, first) == book
  }

  /** Earlier epochs, then the current one. */
  lemma WholeLogIsFaithful<E>(past: seq<Message<E>>, ms: seq<Message<E>>, epoch: int, depth: Depth<E>, at: int)
    requires Keeps(ms, epoch, depth, at)
    requires forall i :: 0 <= i < |past| ==> past[i].epoch < epoch
    ensures FaithfulFrom(SnapshotsOf(past + ms), DeltasOf(past + ms), |SnapshotsOf(past)|, BookState(depth, at, epoch))
  {
    TopicsOfPrefix(past, ms);
    TopicMembers(past);
    TopicsOfTwo(SnapshotsOf(past), DeltasOf(past), SnapshotsOf(ms), DeltasOf(ms), epoch, depth, at);
  }

  lemma TopicsOfTwo<E>(oldSnaps: seq<Message<E>>, oldDeltas: seq<Message<E>>, snaps: seq<Message<E>>, deltas: seq<Message<E>>,
                       epoch: int, depth: Depth<E>, at: int)
    requires TopicsKeep(snaps, deltas, epoch, depth, at)
    requires NoneOfEpoch(oldSnaps, epoch) && NoneOfEpoch(oldDeltas, epoch)
    requires forall i :: 0 <= i < |oldSnaps| ==> oldSnaps[i].Snapshot?
    ensures FaithfulFrom(oldSnaps + snaps, oldDeltas + deltas, |oldSnaps|, BookState(depth, at, epoch))
  {
    var s, d, first := oldSnaps + snaps, oldDeltas + deltas, |oldSnaps|;
    LastOfTwo(oldSnaps, snaps, epoch);
    LaterOfCurrent(oldDeltas, deltas, snaps[0]);
    SnapshotsAreFaithful(oldSnaps, snaps, deltas, epoch);
    assert s[|s| - 1] == snaps[|snaps| - 1];
    assert Faithful(s, d, first);
  }

  lemma LastOfTwo<E>(before: seq<Message<E>>, snaps: seq<Message<E>>, epoch: int)
    requires snaps != [] && OneEpoch(snaps, epoch) && NoneOfEpoch(before, epoch)
    requires forall i :: 0 <= i < |before| ==> before[i].Snapshot?
    requires forall i :: 0 <= i < |snaps| ==> snaps[i].Snapshot?
    ensures LastEpochFrom(before + snaps, |before|) && (before + snaps)[|before|] == snaps[0]
  {
    var s, first := before + snaps, |before|;
    assert s[first..] == snaps && s[..first] == before;
  }

  lemma SnapshotsAreFaithful<E>(before: seq<Message<E>>, snaps: seq<Message<E>>, deltas: seq<Message<E>>, epoch: int)
    requires SnapshotsShow(snaps, deltas, epoch)
    ensures var s, first := before + snaps, |before|;
            && (forall i, j :: first <= i <= j < |s| ==> s[i].sequence <= s[j].sequence)
            && (forall i :: first <= i < |s| ==> Build(s[i].update) == StateAt(snaps[0], deltas, s[i].sequence))
  {
    var s, first := before + snaps, |before|;
    forall i | first <= i < |s| ensures Build(s[i].update) == StateAt(snaps[0], deltas, s[i].sequence) {
      assert s[i] == snaps[i - first];
      assert Shows(snaps[0], deltas, snaps[i - first]);
    }
  }

  lemma {:induction false} TopicMembers<E>(ms: seq<Message<E>>)
    ensures forall i :: 0 <= i < |SnapshotsOf(ms)| ==> SnapshotsOf(ms)[i] in ms && SnapshotsOf(ms)[i].Snapshot?
    ensures forall i :: 0 <= i < |DeltasOf(ms)| ==> DeltasOf(ms)[i] in ms && DeltasOf(ms)[i].Delta?
  {
    if ms != [] {
      TopicMembers(ms[..|ms| - 1]);
    }
  }

  lemma LaterOfCurrent<E>(past: seq<Message<E>>, ds: seq<Message<E>>, s0: Message<E>)
    requires NoneOfEpoch(past, s0.epoch) && OneEpoch(ds, s0.epoch) && Ascends(s0.sequence, ds)
    ensures OfEpoch(past + ds, s0.epoch) == ds && Later(past + ds, s0) == ds
  {
    OfEpochConcat(past, ds, s0.epoch);
    OfEpochNone(past, s0.epoch);
    OfEpochAll(ds, s0.epoch);
    assert [] + ds == ds;
    AllAbove(s0.sequence, ds);
    AboveAll(ds, s0.sequence);
  }

  // ---------- epochs never go down ----------

  predicate EpochsUpTo<E>(ms: seq<Message<E>>, epoch: int) {
    forall i :: 0 <= i < |ms| ==> ms[i].epoch <= epoch
  }

  predicate EpochsAscend<E>(ms: seq<Message<E>>) {
    forall i, j :: 0 <= i <= j < |ms| ==> ms[i].epoch <= ms[j].epoch
  }

  /** Within an epoch, sequences do not go down. */
  predicate SequencesAscend<E>(ms: seq<Message<E>>) {
    forall i, j :: 0 <= i <= j < |ms| && ms[i].epoch == ms[j].epoch ==> ms[i].sequence <= ms[j].sequence
  }

  lemma {:induction false} OfEpochHas<E>(ms: seq<Message<E>>, epoch: int, m: Message<E>)
    ensures m in OfEpoch(ms, epoch) <==> m in ms && m.epoch == epoch
  {
    if ms != [] {
      var rest, last := ms[..|ms| - 1], ms[|ms| - 1];
      assert ms == rest + [last];
      OfEpochHas(rest, epoch, m);
      OfEpochPush(rest, last, epoch);
    }
  }

  lemma SequencesPush<E>(ms: seq<Message<E>>, m: Message<E>)
    requires SequencesAscend(ms) && forall x :: x in OfEpoch(ms, m.epoch) ==> x.sequence <= m.sequence
    ensures SequencesAscend(ms + [m])
  {
    forall i | 0 <= i < |ms| && ms[i].epoch == m.epoch ensures ms[i].sequence <= m.sequence {
      OfEpochHas(ms, m.epoch, ms[i]);
    }
  }

  /** Nothing published lies above the book's sequence. */
  lemma KeepsBelow<E>(ms: seq<Message<E>>, epoch: int, depth: Depth<E>, at: int)
    requires Keeps(ms, epoch, depth, at)
    ensures forall m :: m in ms ==> m.sequence <= at
  {
    forall m | m in ms ensures m.sequence <= at {
      TopicHas(ms, m);
      TopicsBelow(SnapshotsOf(ms), DeltasOf(ms), epoch, depth, at, m);
    }
  }

  lemma TopicsBelow<E>(snaps: seq<Message<E>>, deltas: seq<Message<E>>, epoch: int, depth: Depth<E>, at: int, m: Message<E>)
    requires TopicsKeep(snaps, deltas, epoch, depth, at) && (m in snaps || m in deltas)
    ensures m.sequence <= at
  {
    if m in snaps {
      var i :| 0 <= i < |snaps| && snaps[i] == m;
      assert snaps[i].sequence <= snaps[|snaps| - 1].sequence;
    } else {
      var i :| 0 <= i < |deltas| && deltas[i] == m;
      assert i < |deltas| - 1 ==> deltas[i].sequence < deltas[|deltas| - 1].sequence;
    }
  }

  lemma {:induction false} TopicHas<E>(ms: seq<Message<E>>, m: Message<E>)
    ensures m in ms <==> m in SnapshotsOf(ms) || m in DeltasOf(ms)
  {
    if ms != [] {
      var rest, last := ms[..|ms| - 1], ms[|ms| - 1];
      assert ms == rest + [last];
      TopicHas(rest, m);
      PushTopics(rest, last);
    }
  }

  lemma EpochsPush<E>(ms: seq<Message<E>>, m: Message<E>, epoch: int)
    requires EpochsUpTo(ms, epoch) && EpochsAscend(ms) && m.epoch == epoch
    ensures EpochsUpTo(ms + [m], epoch) && EpochsAscend(ms + [m])
  {
  }

  lemma NewestIsLast<E>(ms: seq<Message<E>>, epoch: int)
    requires ms != [] && EpochsUpTo(ms, epoch) && EpochsAscend(ms) && ms[|ms| - 1].epoch != epoch
    ensures forall i :: 0 <= i < |ms| ==> ms[i].epoch < epoch
  {
    forall i | 0 <= i < |ms| ensures ms[i].epoch < epoch {
      assert ms[i].epoch <= ms[|ms| - 1].epoch <= epoch;
    }
  }

  /** The messages of the newest epoch are a suffix. */
  lemma {:induction false} SplitEpoch<E>(ms: seq<Message<E>>, epoch: int) returns (k: nat)
    requires EpochsUpTo(ms, epoch) && EpochsAscend(ms)
    ensures k <= |ms| && OfEpoch(ms, epoch) == ms[k..]
    ensures forall i :: 0 <= i < k ==> ms[i].epoch < epoch
  {
    if ms == [] {
      k := 0;
    } else if ms[|ms| - 1].epoch == epoch {
      var rest, m := ms[..|ms| - 1], ms[|ms| - 1];
      assert ms == rest + [m];
      k := SplitEpoch(rest, epoch);
      OfEpochPush(rest, m, epoch);
      SuffixPush(rest, m, k);
    } else {
      k := |ms|;
      NewestIsLast(ms, epoch);
      OfEpochNone(ms, epoch);
    }
  }

  lemma NewestEpochFrom<E>(ms: seq<Message<E>>, before: seq<Message<E>>, now: seq<Message<E>>, epoch: int, depth: Depth<E>, at: int)
    requires ms == before + now && EpochsUpTo(before, epoch - 1) && Keeps(now, epoch, depth, at)
    ensures FaithfulFrom(SnapshotsOf(ms), DeltasOf(ms), |SnapshotsOf(before)|, BookState(depth, at, epoch))
  {
    WholeLogIsFaithful(before, now, epoch, depth, at);
  }

  /** A log whose newest epoch rebuilds a book is faithful as a whole. */
  lemma NewestEpochIsFaithful<E>(ms: seq<Message<E>>, epoch: int, depth: Depth<E>, at: int) returns (first: nat)
    requires EpochsUpTo(ms, epoch) && EpochsAscend(ms) && Keeps(OfEpoch(ms, epoch), epoch, depth, at)
    ensures FaithfulFrom(SnapshotsOf(ms), DeltasOf(ms), first, BookState(depth, at, epoch))
  {
    var k := SplitEpoch(ms, epoch);
    var before, now := ms[..k], ms[k..];
    assert ms == before + now;
    first := |SnapshotsOf(before)|;
    NewestEpochFrom(ms, before, now, epoch, depth, at);
  }

  /** Any interleaving of such topics from which no delta of the last epoch is shed ends
      with that book. */
  lemma InterleavingRebuilds<E>(ms: seq<Message<E>>, ns: seq<Message<E>>, first: nat, book: BookState<E>)
    requires FaithfulFrom(SnapshotsOf(ms), DeltasOf(ms), first, book)
    requires SnapshotsOf(ns) == SnapshotsOf(ms) && DeltasOf(ns) == DeltasOf(ms)
    requires Spared(ns, book.epoch, -1)
    ensures Run(ns).book == Some(book)
  {
    SparedFromLower(ns, book.epoch, -1, SnapshotsOf(ns)[first].sequence);
    UnlockedNeverCrosses(SnapshotsOf(ns)[first], Later(DeltasOf(ns), SnapshotsOf(ns)[first]));
    UncrossedReconstructs(ns, first);
  }

  // ---------- listing a book ----------

  /** A side's levels as a snapshot lists them, best price first. */
  function ListBids<E>(s: Side<E>): seq<Change<E>>
    decreases |s.Keys|
  {
    if s.Keys == {} then []
    else
      var p := MaxOf(s.Keys);
      ShrinksBy(s, p);
      [Change(p, Some(s[p]))] + ListBids(s - {p})
  }

  function ListAsks<E>(s: Side<E>): seq<Change<E>>
    decreases |s.Keys|
  {
    if s.Keys == {} then []
    else
      var p := MinOf(s.Keys);
      ShrinksBy(s, p);
      [Change(p, Some(s[p]))] + ListAsks(s - {p})
  }

  lemma ShrinksBy<E>(s: Side<E>, p: real)
    requires p in s
    ensures (s - {p}).Keys == s.Keys - {p} && |(s - {p}).Keys| < |s.Keys|
  {
    assert (s - {p}).Keys == s.Keys - {p};
  }

  function ListBook<E>(d: Depth<E>): Update<E> {
    Update(ListBids(d.bids), ListAsks(d.asks))
  }

  lemma {:induction false} ListedCons<E>(c: Change<E>, cs: seq<Change<E>>, s: Side<E>)
    requires c.entry.Some? && Listed(cs) == s && c.price !in s
    requires forall i :: 0 <= i < |cs| ==> cs[i].entry.Some? && cs[i].price in s
    ensures Listed([c] + cs) == s[c.price := c.entry.value]
  {
    ListedConcat([c], cs);
    assert [c][..0] == [];
    assert Listed([c]) == map[c.price := c.entry.value];
    var r := Listed([c] + cs);
    assert r == PutAll(map[c.price := c.entry.value], cs);
    ListedIsPutAll(cs);
    PutAllOnto(map[c.price := c.entry.value], cs, c.price);
  }

  lemma {:induction false} ListedConcat<E>(a: seq<Change<E>>, b: seq<Change<E>>)
    requires forall i :: 0 <= i < |b| ==> b[i].entry.Some?
    ensures Listed(a + b) == PutAll(Listed(a), b)
  {
    if b == [] {
      assert a + b == a;
    } else {
      assert (a + b)[..|a + b| - 1] == a + b[..|b| - 1];
      ListedConcat(a, b[..|b| - 1]);
    }
  }

  lemma ListedIsPutAll<E>(cs: seq<Change<E>>)
    requires forall i :: 0 <= i < |cs| ==> cs[i].entry.Some?
    ensures Listed(cs) == PutAll(map[], cs)
  {
    ListedConcat([], cs);
    assert [] + cs == cs;
  }

  lemma {:induction false} PutAllOnto<E>(s: Side<E>, cs: seq<Change<E>>, p: real)
    requires forall i :: 0 <= i < |cs| ==> cs[i].entry.Some? && cs[i].price != p
    requires s.Keys == {p}
    ensures PutAll(s, cs) == PutAll(map[], cs)[p := s[p]] && p !in PutAll(map[], cs)
  {
    if cs != [] {
      PutAllOnto(s, cs[..|cs| - 1], p);
    }
  }

  lemma {:induction false} ListBidsListed<E>(s: Side<E>)
    ensures Listed(ListBids(s)) == s
    ensures forall i :: 0 <= i < |ListBids(s)| ==> ListBids(s)[i].entry.Some? && ListBids(s)[i].price in s
    decreases |s.Keys|
  {
    if s.Keys != {} {
      var p := MaxOf(s.Keys);
      ShrinksBy(s, p);
      ListBidsListed(s - {p});
      ListedCons(Change(p, Some(s[p])), ListBids(s - {p}), s - {p});
      assert (s - {p})[p := s[p]] == s;
    }
  }

  lemma {:induction false} ListAsksListed<E>(s: Side<E>)
    ensures Listed(ListAsks(s)) == s
    ensures forall i :: 0 <= i < |ListAsks(s)| ==> ListAsks(s)[i].entry.Some? && ListAsks(s)[i].price in s
    decreases |s.Keys|
  {
    if s.Keys != {} {
      var p := MinOf(s.Keys);
      ShrinksBy(s, p);
      ListAsksListed(s - {p});
      ListedCons(Change(p, Some(s[p])), ListAsks(s - {p}), s - {p});
      assert (s - {p})[p := s[p]] == s;
    }
  }

  /** Listing a book and building it again gives the book. */
  lemma ListThenBuild<E>(d: Depth<E>)
    ensures Build(ListBook(d)) == d
  {
    ListBidsListed(d.bids);
    ListAsksListed(d.asks);
  }
}
