/** Order insensitivity: every interleaving of a stream's snapshot topic and delta
    topic reconstructs the same book, and a warm restart from the newest snapshot
    reconstructs it too. */
module Convergence {
  import opened Levels
  import opened Stream

  // ---------- the two topics ----------

  function SnapshotsOf<E>(ms: seq<Message<E>>): seq<Message<E>> {
    if ms == [] then []
    else SnapshotsOf(ms[..|ms| - 1]) + if ms[|ms| - 1].Snapshot? then [ms[|ms| - 1]] else []
  }

  function DeltasOf<E>(ms: seq<Message<E>>): seq<Message<E>> {
    if ms == [] then []
    else DeltasOf(ms[..|ms| - 1]) + if ms[|ms| - 1].Delta? then [ms[|ms| - 1]] else []
  }

  /** The position of `t` in an increasing list: how many deltas lie at or below it. */
  function Cut<E>(ds: seq<Message<E>>, t: int): (k: nat)
    ensures k <= |ds|
  {
    AboveMembers(ds, t, 0);
    |ds| - |Above(ds, t)|
  }

  /** The state a connection published as of sequence `t`: its first snapshot and the
      deltas up to `t`. */
  function StateAt<E>(s0: Message<E>, ds: seq<Message<E>>, t: int): Depth<E> {
    ApplyAll(Build(s0.update), ds[..Cut(ds, t)])
  }

  lemma AboveIgnoresLater<E>(ds: seq<Message<E>>, d: Message<E>, t: int)
    requires d.sequence > t
    ensures Cut(ds + [d], t) == Cut(ds, t)
  {
    AbovePush(ds, d, t);
  }

  /** A delta above `t` does not change what was published as of `t`. */
  lemma StateAtStable<E>(s0: Message<E>, ds: seq<Message<E>>, d: Message<E>, t: int)
    requires d.sequence > t
    ensures StateAt(s0, ds + [d], t) == StateAt(s0, ds, t)
  {
    AboveIgnoresLater(ds, d, t);
    assert (ds + [d])[..Cut(ds, t)] == ds[..Cut(ds, t)];
  }

  /** The last connection of a log: its snapshots are `snaps[first..]`. */
  predicate LastEpochFrom<E>(snaps: seq<Message<E>>, first: nat) {
    && first < |snaps|
    && (forall i :: 0 <= i < |snaps| ==> snaps[i].Snapshot?)
    && NoneOfEpoch(snaps[..first], snaps[first].epoch)
    && OneEpoch(snaps[first..], snaps[first].epoch)
  }

  /** The last connection's deltas above its first snapshot. */
  function Later<E>(deltas: seq<Message<E>>, s0: Message<E>): seq<Message<E>> {
    Above(OfEpoch(deltas, s0.epoch), s0.sequence)
  }

  /** Within the last connection: delta sequences increase, snapshot sequences do not go
      down, and every snapshot shows the state published as of its sequence. */
  ghost predicate Faithful<E>(snaps: seq<Message<E>>, deltas: seq<Message<E>>, first: nat)
    requires LastEpochFrom(snaps, first)
  {
    var s0 := snaps[first];
    && s0.sequence >= 0
    && Increasing(OfEpoch(deltas, s0.epoch))
    && (forall i, j :: first <= i <= j < |snaps| ==> snaps[i].sequence <= snaps[j].sequence)
    && (forall i :: first <= i < |snaps| ==>
          Build(snaps[i].update) == StateAt(s0, Later(deltas, s0), snaps[i].sequence))
  }

  /** The book every interleaving must end with: the last connection's first snapshot
      followed by all its later deltas. */
  function Reconstructed<E>(snaps: seq<Message<E>>, deltas: seq<Message<E>>, first: nat): BookState<E>
    requires first < |snaps|
  {
    var s0 := snaps[first];
    var ds := Later(deltas, s0);
    BookState(ApplyAll(Build(s0.update), ds), Max(snaps[|snaps| - 1].sequence, Top(s0.sequence, ds)), s0.epoch)
  }

  /** No delta of the epoch above `t` is shed from a full buffer, and no heal of the epoch
      is counted as an underrun. */
  predicate Quiet<E>(ms: seq<Message<E>>, epoch: int, t: int) {
    ms == [] ||
    var before, m := ms[..|ms| - 1], ms[|ms| - 1];
    var r := Step(Run(before), m).report;
    && Quiet(before, epoch, t)
    && (r.shed.Some? ==> r.shed.value.epoch != epoch || r.shed.value.sequence <= t)
    && (m.epoch == epoch ==> !r.underrun)
  }

  /** The first half of that: no delta of the epoch above `t` is shed from a full buffer. */
  predicate Spared<E>(ms: seq<Message<E>>, epoch: int, t: int) {
    ms == [] ||
    var before, m := ms[..|ms| - 1], ms[|ms| - 1];
    var shed := Step(Run(before), m).report.shed;
    && Spared(before, epoch, t)
    && (shed.Some? ==> shed.value.epoch != epoch || shed.value.sequence <= t)
  }

  /** No state published from `s0` on is crossed. */
  ghost predicate NeverCrossed<E>(s0: Message<E>, ds: seq<Message<E>>) {
    forall k :: 0 <= k <= |ds| ==> !Crossed(ApplyAll(Build(s0.update), ds[..k]))
  }

  /** Nor is any even locked. */
  ghost predicate NeverLocked<E>(s0: Message<E>, ds: seq<Message<E>>) {
    forall k :: 0 <= k <= |ds| ==> !Locked(ApplyAll(Build(s0.update), ds[..k]))
  }

  lemma UnlockedNeverCrosses<E>(s0: Message<E>, ds: seq<Message<E>>)
    requires NeverLocked(s0, ds)
    ensures NeverCrossed(s0, ds)
  {
    forall k | 0 <= k <= |ds| ensures !Crossed(ApplyAll(Build(s0.update), ds[..k])) {
      var d := ApplyAll(Build(s0.update), ds[..k]);
      UnlockedStays(d, d);
    }
  }

  // ---------- list lemmas ----------

  lemma {:induction false} OfEpochConcat<E>(a: seq<Message<E>>, b: seq<Message<E>>, epoch: int)
    ensures OfEpoch(a + b, epoch) == OfEpoch(a, epoch) + OfEpoch(b, epoch)
  {
    if b == [] {
      assert a + b == a;
    } else {
      assert (a + b)[..|a + b| - 1] == a + b[..|b| - 1];
      OfEpochConcat(a, b[..|b| - 1], epoch);
    }
  }

  lemma OfEpochPush<E>(ds: seq<Message<E>>, d: Message<E>, epoch: int)
    ensures OfEpoch(ds + [d], epoch) == OfEpoch(ds, epoch) + if d.epoch == epoch then [d] else []
  {
    assert (ds + [d])[..|ds|] == ds;
  }

  lemma {:induction false} OfEpochNone<E>(ds: seq<Message<E>>, epoch: int)
    requires NoneOfEpoch(ds, epoch)
    ensures OfEpoch(ds, epoch) == []
  {
    if ds != [] {
      OfEpochNone(ds[..|ds| - 1], epoch);
    }
  }

  lemma {:induction false} OfEpochMembers<E>(ds: seq<Message<E>>, epoch: int)
    ensures OneEpoch(OfEpoch(ds, epoch), epoch)
    ensures forall i :: 0 <= i < |OfEpoch(ds, epoch)| ==> OfEpoch(ds, epoch)[i] in ds
  {
    if ds != [] {
      OfEpochMembers(ds[..|ds| - 1], epoch);
    }
  }

  lemma {:induction false} TopicsOfPrefix<E>(ms: seq<Message<E>>, ns: seq<Message<E>>)
    ensures SnapshotsOf(ms + ns) == SnapshotsOf(ms) + SnapshotsOf(ns)
    ensures DeltasOf(ms + ns) == DeltasOf(ms) + DeltasOf(ns)
  {
    if ns == [] {
      assert ms + ns == ms;
    } else {
      assert (ms + ns)[..|ms + ns| - 1] == ms + ns[..|ns| - 1];
      TopicsOfPrefix(ms, ns[..|ns| - 1]);
    }
  }

  // ---------- before the last connection's first snapshot ----------

  /** Nothing of the epoch has been applied, and the buffer holds every delta of the epoch
      above `t` that has been consumed. */
  ghost predicate Waiting<E>(st: StreamState<E>, consumed: seq<Message<E>>, epoch: int, t: int) {
    && (st.book.None? ==> st.tail == Tail([], None))
    && (st.book.Some? ==>
          && st.book.value.epoch != epoch && NoneOfEpoch(st.tail.kept, epoch)
          && (st.tail.evicted.Some? ==> st.tail.evicted.value.epoch != epoch))
    && Above(OfEpoch(st.pending, epoch), t) == Above(OfEpoch(consumed, epoch), t)
  }

  lemma WaitingDelta<E>(st: StreamState<E>, consumed: seq<Message<E>>, epoch: int, t: int, d: Message<E>)
    requires Waiting(st, consumed, epoch, t) && d.Delta?
    requires var shed := Step(st, d).report.shed; shed.Some? ==> shed.value.epoch != epoch || shed.value.sequence <= t
    ensures Waiting(Step(st, d).state, consumed + [d], epoch, t)
  {
    PushOnto(consumed, d, epoch, t);
    if !Live(st, d.epoch) {
      BufferKeeps(st.pending, d, epoch, t);
    } else {
      RecordSpares(st.tail, d, epoch);
    }
  }

  lemma PushOnto<E>(consumed: seq<Message<E>>, d: Message<E>, epoch: int, t: int)
    ensures Above(OfEpoch(consumed + [d], epoch), t) ==
            Above(OfEpoch(consumed, epoch), t) + if d.epoch == epoch && d.sequence > t then [d] else []
  {
    OfEpochPush(consumed, d, epoch);
    if d.epoch == epoch {
      AbovePush(OfEpoch(consumed, epoch), d, t);
    } else {
      assert OfEpoch(consumed + [d], epoch) == OfEpoch(consumed, epoch);
    }
  }

  lemma RecordSpares<E>(tail: Tail<E>, d: Message<E>, epoch: int)
    requires NoneOfEpoch(tail.kept, epoch) && d.epoch != epoch
    requires tail.evicted.Some? ==> tail.evicted.value.epoch != epoch
    ensures NoneOfEpoch(Record(tail, d).kept, epoch)
    ensures Record(tail, d).evicted.Some? ==> Record(tail, d).evicted.value.epoch != epoch
  {
  }

  lemma BufferKeeps<E>(q: seq<Message<E>>, d: Message<E>, epoch: int, t: int)
    requires Shed(q).Some? ==> Shed(q).value.epoch != epoch || Shed(q).value.sequence <= t
    ensures Above(OfEpoch(Buffer(q, d), epoch), t) ==
            Above(OfEpoch(q, epoch), t) + if d.epoch == epoch && d.sequence > t then [d] else []
  {
    if |q| >= MAX_PENDING_DELTAS {
      ShedSpares(q[0], q[1..], epoch, t);
      assert q == [q[0]] + q[1..];
      PushOnto(q[1..], d, epoch, t);
    } else {
      PushOnto(q, d, epoch, t);
    }
  }

  lemma ShedSpares<E>(oldest: Message<E>, q: seq<Message<E>>, epoch: int, t: int)
    requires oldest.epoch != epoch || oldest.sequence <= t
    ensures Above(OfEpoch([oldest] + q, epoch), t) == Above(OfEpoch(q, epoch), t)
  {
    OfEpochConcat([oldest], q, epoch);
    AboveConcat(OfEpoch([oldest], epoch), OfEpoch(q, epoch), t);
    assert [oldest][..0] == [];
    AboveNone(OfEpoch([oldest], epoch), t);
  }

  /** Draining another epoch touches neither this epoch's buffered deltas nor the tail's
      freedom from them. */
  lemma {:induction false} DrainSparesEpoch<E>(b: BookState<E>, last: Message<E>, tail: Tail<E>, q: seq<Message<E>>, other: int, epoch: int)
    requires other != epoch && NoneOfEpoch(tail.kept, epoch)
    requires tail.evicted.Some? ==> tail.evicted.value.epoch != epoch
    ensures var r := Drain(b, last, tail, q, other);
            && OfEpoch(r.retained, epoch) == OfEpoch(q, epoch)
            && r.book.epoch == b.epoch && NoneOfEpoch(r.tail.kept, epoch)
            && (r.tail.evicted.Some? ==> r.tail.evicted.value.epoch != epoch)
  {
    if q != [] {
      var r, d := Drain(b, last, tail, q[..|q| - 1], other), q[|q| - 1];
      DrainSparesEpoch(b, last, tail, q[..|q| - 1], other, epoch);
      if d.epoch != other {
        OfEpochPush(r.retained, d, epoch);
      } else if Newer(r.book, d) {
        RecordSpares(r.tail, d, epoch);
      }
    }
  }

  lemma {:induction false} PruneSparesEpoch<E>(ds: seq<Message<E>>, other: int, t: int, epoch: int)
    requires other != epoch
    ensures NoneOfEpoch(Prune(ds, other, t), epoch)
  {
    if ds != [] {
      PruneSparesEpoch(ds[..|ds| - 1], other, t, epoch);
    }
  }

  lemma {:induction false} ReplayKeepsEpoch<E>(b: BookState<E>, last: Message<E>, ds: seq<Message<E>>, epoch: int)
    ensures Replay(b, last, ds, epoch).book.epoch == b.epoch
  {
    if ds != [] {
      ReplayKeepsEpoch(b, last, ds[..|ds| - 1], epoch);
    }
  }

  lemma WaitingSnapshot<E>(st: StreamState<E>, consumed: seq<Message<E>>, epoch: int, t: int, s: Message<E>)
    requires Waiting(st, consumed, epoch, t) && s.Snapshot? && s.epoch != epoch
    ensures Waiting(Step(st, s).state, consumed, epoch, t)
  {
    var b := if st.book.Some? then st.book.value else NewBook();
    if Accepts(b, s) {
      ReplayKeepsEpoch(Reset(s), s, st.tail.kept, s.epoch);
      PruneSparesEpoch(st.tail.kept, s.epoch, s.sequence, epoch);
      var r := Replay(Reset(s), s, st.tail.kept, s.epoch);
      var tail := Tail(Prune(st.tail.kept, s.epoch, s.sequence), PruneEvicted(st.tail.evicted, s.epoch, s.sequence));
      DrainSparesEpoch(r.book, r.last, tail, st.pending, s.epoch, epoch);
    }
  }

  // ---------- from the first snapshot on ----------

  /** The book shows the published state at its own sequence, which is the last accepted
      snapshot's or the last consumed delta's; the tail holds the newest consumed deltas
      above that snapshot. */
  ghost predicate Synced<E>(st: StreamState<E>, s0: Message<E>, ds: seq<Message<E>>, c: seq<Message<E>>, base: int) {
    var place := Max(base, Top(s0.sequence, c));
    && Increasing(ds) && OneEpoch(ds, s0.epoch)
    && (ds != [] ==> ds[0].sequence > s0.sequence)
    && c <= ds && s0.sequence <= base
    && st.book == Some(BookState(StateAt(s0, ds, place), place, s0.epoch))
    && TailOf(st.tail, Above(c, base), s0.epoch)
    && NoneOfEpoch(st.pending, s0.epoch)
  }

  lemma DrainPush<E>(b: BookState<E>, last: Message<E>, tail: Tail<E>, q: seq<Message<E>>, d: Message<E>, epoch: int)
    ensures var r := Drain(b, last, tail, q, epoch);
            Drain(b, last, tail, q + [d], epoch).applied
            == if d.epoch == epoch && d.sequence > r.book.sequence then r.applied + [d] else r.applied
  {
    assert (q + [d])[..|q|] == q;
  }

  /** The drain applies the epoch's buffered deltas above the snapshot, all of them. */
  lemma {:induction false} DrainApplies<E>(b: BookState<E>, last: Message<E>, tail: Tail<E>, q: seq<Message<E>>, epoch: int)
    requires Increasing(Above(OfEpoch(q, epoch), b.sequence))
    ensures Drain(b, last, tail, q, epoch).applied == Above(OfEpoch(q, epoch), b.sequence)
  {
    if q != [] {
      var q', d := q[..|q| - 1], q[|q| - 1];
      assert q == q' + [d];
      PushOnto(q', d, epoch, b.sequence);
      var before := Above(OfEpoch(q', epoch), b.sequence);
      IncreasingPrefix(before, Above(OfEpoch(q, epoch), b.sequence));
      DrainApplies(b, last, tail, q', epoch);
      DrainPlace(b, last, tail, q', epoch);
      DrainPush(b, last, tail, q', d, epoch);
      if d.epoch == epoch && d.sequence > b.sequence {
        LastIsGreatest(before, d);
      }
    }
  }

  lemma DrainPlace<E>(b: BookState<E>, last: Message<E>, tail: Tail<E>, q: seq<Message<E>>, epoch: int)
    ensures var r := Drain(b, last, tail, q, epoch);
            r.book.sequence == Top(b.sequence, r.applied) && r.book.sequence >= b.sequence
  {
    DrainAdvances(b, last, tail, q, epoch);
    TopOfAscending(b.sequence, Drain(b, last, tail, q, epoch).applied);
  }

  lemma TopOfAscending<E>(t: int, ds: seq<Message<E>>)
    requires Ascends(t, ds)
    ensures Top(t, ds) >= t
  {
    if |ds| > 1 {
      assert ds[0].sequence < ds[|ds| - 1].sequence;
    }
  }

  lemma IncreasingPrefix<E>(a: seq<Message<E>>, b: seq<Message<E>>)
    requires a <= b && Increasing(b)
    ensures Increasing(a)
  {
    forall i, j | 0 <= i < j < |a| ensures a[i].sequence < a[j].sequence {
      assert a[i] == b[i] && a[j] == b[j];
    }
  }

  lemma LastIsGreatest<E>(before: seq<Message<E>>, d: Message<E>)
    requires Increasing(before + [d])
    ensures before != [] ==> before[|before| - 1].sequence < d.sequence
  {
    if before != [] {
      assert (before + [d])[|before| - 1] == before[|before| - 1] && (before + [d])[|before|] == d;
    }
  }

  /** A place below every later delta cuts right after the consumed ones. */
  lemma CutAt<E>(ds: seq<Message<E>>, k: nat, t: int)
    requires Increasing(ds) && k <= |ds|
    requires k > 0 ==> ds[k - 1].sequence <= t
    requires k < |ds| ==> t < ds[k].sequence
    ensures Cut(ds, t) == k
  {
    var l := SplitAt(ds, t);
  }

  lemma SyncedOpens<E>(st: StreamState<E>, consumed: seq<Message<E>>, s0: Message<E>, ds: seq<Message<E>>)
    requires Waiting(st, consumed, s0.epoch, s0.sequence) && s0.Snapshot? && s0.sequence >= 0
    requires Increasing(ds) && OneEpoch(ds, s0.epoch) && (ds != [] ==> ds[0].sequence > s0.sequence)
    requires Later(consumed, s0) <= ds
    ensures Synced(Step(st, s0).state, s0, ds, Later(consumed, s0), s0.sequence)
  {
    var c := Later(consumed, s0);
    OpeningStep(st, s0);
    IncreasingPrefix(c, ds);
    OpeningDrain(st.pending, s0, c);
    PlaceCuts(s0, ds, c, s0.sequence);
    TopOfPrefix(s0, ds, c);
  }

  lemma TopOfPrefix<E>(s0: Message<E>, ds: seq<Message<E>>, c: seq<Message<E>>)
    requires Increasing(ds) && (ds != [] ==> ds[0].sequence > s0.sequence) && c <= ds
    ensures Top(s0.sequence, c) >= s0.sequence
    ensures c == ds[..|c|]
  {
    if c != [] {
      assert c[|c| - 1] == ds[|c| - 1] && ds[0].sequence <= ds[|c| - 1].sequence;
    }
  }

  /** What the first snapshot's drain leaves, when the buffer's deltas above it are `c`. */
  lemma OpeningDrain<E>(q: seq<Message<E>>, s0: Message<E>, c: seq<Message<E>>)
    requires c == Above(OfEpoch(q, s0.epoch), s0.sequence) && Increasing(c)
    ensures var d := Drain(Reset(s0), s0, Tail([], None), q, s0.epoch);
            && d.book == BookState(ApplyAll(Build(s0.update), c), Top(s0.sequence, c), s0.epoch)
            && TailOf(d.tail, Above(c, s0.sequence), s0.epoch)
            && NoneOfEpoch(d.retained, s0.epoch)
  {
    var tail := Tail([], None);
    DrainApplies(Reset(s0), s0, tail, q, s0.epoch);
    DrainAdvances(Reset(s0), s0, tail, q, s0.epoch);
    DrainRetains(Reset(s0), s0, tail, q, s0.epoch);
    DrainFillsTail(Reset(s0), s0, q, s0.epoch);
    AboveMembers(OfEpoch(q, s0.epoch), s0.sequence, s0.epoch);
    AboveAll(c, s0.sequence);
  }

  lemma PlaceCuts<E>(s0: Message<E>, ds: seq<Message<E>>, c: seq<Message<E>>, base: int)
    requires Increasing(ds) && c <= ds && (ds != [] ==> ds[0].sequence > s0.sequence) && s0.sequence <= base
    requires |c| < |ds| ==> base < ds[|c|].sequence
    ensures Cut(ds, Max(base, Top(s0.sequence, c))) == |c|
  {
    CutAt(ds, |c|, Max(base, Top(s0.sequence, c)));
  }

  /** The next delta takes the published state to its own sequence. */
  lemma StateStep<E>(s0: Message<E>, ds: seq<Message<E>>, k: nat, place: int)
    requires Increasing(ds) && k < |ds| && place < ds[k].sequence
    requires k > 0 ==> ds[k - 1].sequence <= place
    ensures StateAt(s0, ds, ds[k].sequence) == Apply(StateAt(s0, ds, place), ds[k].update)
  {
    NextDelta(ds, k);
    CutAt(ds, k, place);
    CutAt(ds, k + 1, ds[k].sequence);
    assert ds[..k + 1] == ds[..k] + [ds[k]];
    ApplyPush(Build(s0.update), ds[..k], ds[k]);
  }

  lemma TailPush<E>(tail: Tail<E>, c: seq<Message<E>>, base: int, epoch: int, d: Message<E>)
    requires TailOf(tail, Above(c, base), epoch) && OneEpoch(c, epoch) && d.sequence > base
    ensures TailOf(Record(tail, d), Above(c + [d], base), epoch)
  {
    AbovePush(c, d, base);
    AboveMembers(c, base, epoch);
    RecordKeepsTail(tail, Above(c, base), epoch, d);
  }

  /** A delta of the epoch advances book and tail, or lies at or below the last accepted
      snapshot and is skipped. */
  lemma SyncedPush<E>(st: StreamState<E>, s0: Message<E>, ds: seq<Message<E>>, c: seq<Message<E>>, base: int, d: Message<E>)
    requires Synced(st, s0, ds, c, base) && s0.sequence >= 0 && d.Delta?
    requires d.epoch == s0.epoch && c + [d] <= ds
    ensures Synced(Step(st, d).state, s0, ds, c + [d], base)
  {
    var place := Max(base, Top(s0.sequence, c));
    if d.sequence > place {
      PlaceMoves(s0, ds, c, place, d);
      OneEpochPrefix(c, ds, s0.epoch);
      TailPush(st.tail, c, base, s0.epoch, d);
    } else {
      PlaceStays(ds, c, d);
      AbovePush(c, d, base);
    }
  }

  /** The next delta, above the book's place, takes the book to the state at its own. */
  lemma PlaceMoves<E>(s0: Message<E>, ds: seq<Message<E>>, c: seq<Message<E>>, place: int, d: Message<E>)
    requires Increasing(ds) && c + [d] <= ds && Top(s0.sequence, c) <= place < d.sequence
    ensures c <= ds && StateAt(s0, ds, d.sequence) == Apply(StateAt(s0, ds, place), d.update)
  {
    var k := |c|;
    assert ds[k] == (c + [d])[k];
    assert k > 0 ==> ds[k - 1] == (c + [d])[k - 1];
    assert c == ds[..k];
    StateStep(s0, ds, k, place);
  }

  lemma PlaceStays<E>(ds: seq<Message<E>>, c: seq<Message<E>>, d: Message<E>)
    requires Increasing(ds) && c + [d] <= ds
    ensures c <= ds && (c != [] ==> c[|c| - 1].sequence < d.sequence)
  {
    var k := |c|;
    assert ds[k] == (c + [d])[k];
    assert k > 0 ==> ds[k - 1] == (c + [d])[k - 1];
    assert c == ds[..k];
  }

  lemma NextDelta<E>(ds: seq<Message<E>>, k: nat)
    requires Increasing(ds) && k < |ds|
    ensures k > 0 ==> ds[k - 1].sequence < ds[k].sequence
    ensures k + 1 < |ds| ==> ds[k].sequence < ds[k + 1].sequence
  {
  }

  lemma SkippedDelta<E>(st: StreamState<E>, d: Message<E>)
    requires d.Delta? && Live(st, d.epoch) && !Newer(st.book.value, d)
    ensures Step(st, d).state == st
  {
  }

  lemma BufferedDelta<E>(st: StreamState<E>, d: Message<E>)
    requires d.Delta? && !Live(st, d.epoch)
    ensures Step(st, d).state == st.(pending := Buffer(st.pending, d))
  {
  }

  lemma BufferSpares<E>(q: seq<Message<E>>, d: Message<E>, epoch: int)
    requires NoneOfEpoch(q, epoch) && d.epoch != epoch
    ensures NoneOfEpoch(Buffer(q, d), epoch)
  {
  }

  lemma SyncedStale<E>(st: StreamState<E>, s0: Message<E>, ds: seq<Message<E>>, c: seq<Message<E>>, base: int, d: Message<E>)
    requires Synced(st, s0, ds, c, base) && s0.sequence >= 0 && d.Delta?
    requires d.epoch != s0.epoch || d.sequence <= s0.sequence
    ensures Synced(Step(st, d).state, s0, ds, c, base)
  {
    if d.epoch == s0.epoch {
      SkippedDelta(st, d);
    } else {
      BufferedDelta(st, d);
      BufferSpares(st.pending, d, s0.epoch);
    }
  }

  /** The published state at `t`, followed by the consumed deltas above `t`, is the
      published state at the later of `t` and the last consumed delta. */
  lemma StateResumes<E>(s0: Message<E>, ds: seq<Message<E>>, c: seq<Message<E>>, t: int)
    requires Increasing(ds) && c <= ds && (ds != [] ==> ds[0].sequence > s0.sequence) && s0.sequence <= t
    ensures Top(t, Above(c, t)) == Max(t, Top(s0.sequence, c))
    ensures ApplyAll(StateAt(s0, ds, t), Above(c, t)) == StateAt(s0, ds, Max(t, Top(s0.sequence, c)))
  {
    IncreasingPrefix(c, ds);
    TopOfPrefix(s0, ds, c);
    var j := SplitAt(c, t);
    if j < |c| {
      assert c[j] == ds[j] && c[|c| - 1] == ds[|c| - 1];
      assert j > 0 ==> c[j - 1] == ds[j - 1];
      ResumeBetween(s0, ds, j, |c|, t);
      assert c[j..] == ds[j..|c|];
    }
  }

  lemma ResumeBetween<E>(s0: Message<E>, ds: seq<Message<E>>, j: nat, k: nat, t: int)
    requires Increasing(ds) && j < k <= |ds| && t < ds[j].sequence
    requires j > 0 ==> ds[j - 1].sequence <= t
    ensures ApplyAll(StateAt(s0, ds, t), ds[j..k]) == StateAt(s0, ds, ds[k - 1].sequence)
  {
    if k < |ds| {
      NextDelta(ds, k);
    }
    CutAt(ds, k, ds[k - 1].sequence);
    CutAt(ds, j, t);
    ApplyAllConcat(Build(s0.update), ds[..j], ds[j..k]);
    assert ds[..j] + ds[j..k] == ds[..k];
  }

  /** A faithful snapshot of the epoch, skipped, taken forward or taken as a heal. */
  lemma SyncedSnapshot<E>(st: StreamState<E>, s0: Message<E>, ds: seq<Message<E>>, c: seq<Message<E>>, base: int, s: Message<E>)
    returns (base': int)
    requires Synced(st, s0, ds, c, base) && s.Snapshot? && s.epoch == s0.epoch && base <= s.sequence
    requires Build(s.update) == StateAt(s0, ds, s.sequence) && !Step(st, s).report.underrun
    ensures Synced(Step(st, s).state, s0, ds, c, base')
    ensures base' <= s.sequence <= Max(base', Top(s0.sequence, c))
  {
    if !Accepts(st.book.value, s) {
      base' := base;
    } else {
      base' := s.sequence;
      RetainedIsAbove(st, s0, ds, c, base, s);
      StateResumes(s0, ds, c, s.sequence);
    }
  }

  /** Past the book's place nothing consumed lies above the snapshot, nor anything kept. */
  lemma NothingAbove<E>(tail: Tail<E>, s0: Message<E>, ds: seq<Message<E>>, c: seq<Message<E>>, base: int, t: int)
    requires Increasing(ds) && c <= ds && t > Max(base, Top(s0.sequence, c))
    requires TailOf(tail, Above(c, base), s0.epoch)
    ensures Above(c, t) == [] && Above(tail.kept, t) == []
  {
    PassedByAll(s0, ds, c, t);
    AboveNone(c, t);
    KeptWithin(tail, c, base, s0.epoch, t);
  }

  lemma ConsumedIsOrdered<E>(s0: Message<E>, ds: seq<Message<E>>, c: seq<Message<E>>, base: int)
    requires Increasing(ds) && OneEpoch(ds, s0.epoch) && c <= ds
    ensures Increasing(c) && OneEpoch(c, s0.epoch) && Increasing(Above(c, base)) && OneEpoch(Above(c, base), s0.epoch)
  {
    IncreasingPrefix(c, ds);
    OneEpochPrefix(c, ds, s0.epoch);
    AboveIsSuffix(c, base);
    AboveMembers(c, base, s0.epoch);
  }

  /** Without an underrun, what an accepted snapshot reads back is every consumed delta
      above it. */
  lemma RetainedIsAbove<E>(st: StreamState<E>, s0: Message<E>, ds: seq<Message<E>>, c: seq<Message<E>>, base: int, s: Message<E>)
    requires Synced(st, s0, ds, c, base) && s.Snapshot? && s.epoch == s0.epoch && base <= s.sequence
    requires Accepts(st.book.value, s) && !Step(st, s).report.underrun
    ensures var r, t := Step(st, s), s.sequence;
            && r.state.book == Some(BookState(ApplyAll(Build(s.update), Above(c, t)), Top(t, Above(c, t)), s0.epoch))
            && r.state.pending == st.pending
            && TailOf(r.state.tail, Above(c, t), s0.epoch)
  {
    var t := s.sequence;
    ConsumedIsOrdered(s0, ds, c, base);
    LaterStep(st, s);
    LaterTail(st.tail, c, base, s0.epoch, t);
    if t > st.book.value.sequence {
      NothingAbove(st.tail, s0, ds, c, base, t);
    }
  }

  lemma OneEpochPrefix<E>(c: seq<Message<E>>, ds: seq<Message<E>>, epoch: int)
    requires c <= ds && OneEpoch(ds, epoch)
    ensures OneEpoch(c, epoch)
  {
    assert forall i :: 0 <= i < |c| ==> c[i] == ds[i];
  }

  lemma PassedByAll<E>(s0: Message<E>, ds: seq<Message<E>>, c: seq<Message<E>>, t: int)
    requires Increasing(ds) && c <= ds && t > Top(s0.sequence, c)
    ensures forall i :: 0 <= i < |c| ==> c[i].sequence <= t
  {
    forall i | 0 <= i < |c| ensures c[i].sequence <= t {
      assert c[i] == ds[i] && c[|c| - 1] == ds[|c| - 1];
    }
  }

  lemma KeptWithin<E>(tail: Tail<E>, c: seq<Message<E>>, base: int, epoch: int, t: int)
    requires TailOf(tail, Above(c, base), epoch)
    requires forall i :: 0 <= i < |c| ==> c[i].sequence <= t
    ensures Above(tail.kept, t) == []
  {
    AboveMembers(c, base, epoch);
    AboveNone(tail.kept, t);
  }

  // ---------- runs ----------

  /** A run's progress through its topics while `s0`, the last connection's first snapshot,
      is awaited or has been passed. */
  ghost predicate Progress<E>(st: StreamState<E>, snaps: seq<Message<E>>, deltas: seq<Message<E>>, first: nat,
                              consumedSnaps: seq<Message<E>>, consumed: seq<Message<E>>, base: int)
    requires first < |snaps|
  {
    var s0 := snaps[first];
    var n := |consumedSnaps|;
    && consumedSnaps <= snaps
    && (n <= first ==> Waiting(st, consumed, s0.epoch, s0.sequence))
    && (n > first ==>
          && Synced(st, s0, Later(deltas, s0), Later(consumed, s0), base)
          && base <= snaps[n - 1].sequence <= Max(base, Top(s0.sequence, Later(consumed, s0))))
  }

  lemma LaterIsPrefix<E>(consumed: seq<Message<E>>, deltas: seq<Message<E>>, s0: Message<E>)
    requires consumed <= deltas
    ensures Later(consumed, s0) <= Later(deltas, s0)
  {
    var rest := deltas[|consumed|..];
    assert deltas == consumed + rest;
    OfEpochConcat(consumed, rest, s0.epoch);
    AboveConcat(OfEpoch(consumed, s0.epoch), OfEpoch(rest, s0.epoch), s0.sequence);
  }

  lemma LaterIsOrdered<E>(deltas: seq<Message<E>>, s0: Message<E>)
    requires Increasing(OfEpoch(deltas, s0.epoch))
    ensures var ds := Later(deltas, s0);
            Increasing(ds) && OneEpoch(ds, s0.epoch) && (ds != [] ==> ds[0].sequence > s0.sequence)
  {
    OfEpochMembers(deltas, s0.epoch);
    AboveMembers(OfEpoch(deltas, s0.epoch), s0.sequence, s0.epoch);
    AboveIsSuffix(OfEpoch(deltas, s0.epoch), s0.sequence);
  }

  lemma ProgressDelta<E>(st: StreamState<E>, snaps: seq<Message<E>>, deltas: seq<Message<E>>, first: nat,
                         consumedSnaps: seq<Message<E>>, consumed: seq<Message<E>>, base: int, d: Message<E>)
    requires LastEpochFrom(snaps, first) && Faithful(snaps, deltas, first) && d.Delta?
    requires Progress(st, snaps, deltas, first, consumedSnaps, consumed, base)
    requires consumed + [d] <= deltas
    requires var shed := Step(st, d).report.shed;
             shed.Some? ==> shed.value.epoch != snaps[first].epoch || shed.value.sequence <= snaps[first].sequence
    ensures Progress(Step(st, d).state, snaps, deltas, first, consumedSnaps, consumed + [d], base)
  {
    var s0 := snaps[first];
    if |consumedSnaps| <= first {
      WaitingDelta(st, consumed, s0.epoch, s0.sequence, d);
    } else {
      var c, c' := Later(consumed, s0), Later(consumed + [d], s0);
      PushOnto(consumed, d, s0.epoch, s0.sequence);
      LaterIsPrefix(consumed + [d], deltas, s0);
      if d.epoch == s0.epoch && d.sequence > s0.sequence {
        SyncedPush(st, s0, Later(deltas, s0), c, base, d);
      } else {
        SyncedStale(st, s0, Later(deltas, s0), c, base, d);
        assert c' == c;
      }
    }
  }

  lemma ProgressSnapshot<E>(st: StreamState<E>, snaps: seq<Message<E>>, deltas: seq<Message<E>>, first: nat,
                            consumedSnaps: seq<Message<E>>, consumed: seq<Message<E>>, base: int, s: Message<E>)
    returns (base': int)
    requires LastEpochFrom(snaps, first) && Faithful(snaps, deltas, first) && s.Snapshot?
    requires Progress(st, snaps, deltas, first, consumedSnaps, consumed, base)
    requires consumedSnaps + [s] <= snaps && consumed <= deltas
    requires s.epoch == snaps[first].epoch ==> !Step(st, s).report.underrun
    ensures Progress(Step(st, s).state, snaps, deltas, first, consumedSnaps + [s], consumed, base')
  {
    var s0, n := snaps[first], |consumedSnaps|;
    assert snaps[n] == (consumedSnaps + [s])[n];
    if n < first {
      base' := base;
      assert snaps[..first][n] == s;
      WaitingSnapshot(st, consumed, s0.epoch, s0.sequence, s);
    } else if n == first {
      base' := s0.sequence;
      LaterIsOrdered(deltas, s0);
      LaterIsPrefix(consumed, deltas, s0);
      SyncedOpens(st, consumed, s0, Later(deltas, s0));
      TopOfPrefix(s0, Later(deltas, s0), Later(consumed, s0));
    } else {
      assert snaps[first..][n - first] == s;
      assert snaps[n - 1].sequence <= snaps[n].sequence;
      base' := SyncedSnapshot(st, s0, Later(deltas, s0), Later(consumed, s0), base, s);
    }
  }

  lemma {:induction false} RunProgresses<E>(ms: seq<Message<E>>, snaps: seq<Message<E>>, deltas: seq<Message<E>>, first: nat)
    returns (base: int)
    requires LastEpochFrom(snaps, first) && Faithful(snaps, deltas, first)
    requires SnapshotsOf(ms) <= snaps && DeltasOf(ms) <= deltas
    requires Quiet(ms, snaps[first].epoch, snaps[first].sequence)
    ensures Progress(Run(ms), snaps, deltas, first, SnapshotsOf(ms), DeltasOf(ms), base)
  {
    if ms == [] {
      base := 0;
    } else {
      var before, m := ms[..|ms| - 1], ms[|ms| - 1];
      TopicsExtend(before, m, ms, snaps, deltas);
      base := RunProgresses(before, snaps, deltas, first);
      if m.Delta? {
        ProgressDelta(Run(before), snaps, deltas, first, SnapshotsOf(before), DeltasOf(before), base, m);
      } else {
        base := ProgressSnapshot(Run(before), snaps, deltas, first, SnapshotsOf(before), DeltasOf(before), base, m);
      }
    }
  }

  lemma TopicsExtend<E>(before: seq<Message<E>>, m: Message<E>, ms: seq<Message<E>>, snaps: seq<Message<E>>, deltas: seq<Message<E>>)
    requires ms == before + [m] && SnapshotsOf(ms) <= snaps && DeltasOf(ms) <= deltas
    ensures SnapshotsOf(before) <= snaps && DeltasOf(before) <= deltas
    ensures if m.Delta? then SnapshotsOf(ms) == SnapshotsOf(before) && DeltasOf(ms) == DeltasOf(before) + [m]
            else SnapshotsOf(ms) == SnapshotsOf(before) + [m] && DeltasOf(ms) == DeltasOf(before)
  {
    assert ms[..|ms| - 1] == before;
  }

  /** Any run over a faithful log ends with the last connection's first snapshot followed
      by all its later deltas, whatever the interleaving of the two topics. */
  lemma RunReconstructs<E>(ms: seq<Message<E>>, first: nat)
    requires LastEpochFrom(SnapshotsOf(ms), first) && Faithful(SnapshotsOf(ms), DeltasOf(ms), first)
    requires Quiet(ms, SnapshotsOf(ms)[first].epoch, SnapshotsOf(ms)[first].sequence)
    ensures Run(ms).book == Some(Reconstructed(SnapshotsOf(ms), DeltasOf(ms), first))
  {
    var base := RunProgresses(ms, SnapshotsOf(ms), DeltasOf(ms), first);
    AllConsumed(Run(ms), SnapshotsOf(ms), DeltasOf(ms), first, base);
  }

  lemma AllConsumed<E>(st: StreamState<E>, snaps: seq<Message<E>>, deltas: seq<Message<E>>, first: nat, base: int)
    requires LastEpochFrom(snaps, first) && Faithful(snaps, deltas, first)
    requires Progress(st, snaps, deltas, first, snaps, deltas, base)
    ensures st.book == Some(Reconstructed(snaps, deltas, first))
  {
    LaterIsOrdered(deltas, snaps[first]);
    FullState(snaps[first], Later(deltas, snaps[first]), base);
    LastPlace(base, snaps[|snaps| - 1].sequence, Top(snaps[first].sequence, Later(deltas, snaps[first])));
  }

  lemma LastPlace(base: int, limit: int, top: int)
    requires base <= limit <= Max(base, top)
    ensures Max(limit, top) == Max(base, top)
  {
  }

  /** Once every delta is at or below `t`, the published state is all of them applied. */
  lemma FullState<E>(s0: Message<E>, ds: seq<Message<E>>, t: int)
    requires Increasing(ds)
    ensures StateAt(s0, ds, Max(t, Top(s0.sequence, ds))) == ApplyAll(Build(s0.update), ds)
  {
    CutAt(ds, |ds|, Max(t, Top(s0.sequence, ds)));
    assert ds[..|ds|] == ds;
  }

  /** Convergence: two interleavings of the same two topics end with the same book. */
  lemma Convergence<E>(ms: seq<Message<E>>, ns: seq<Message<E>>, first: nat)
    requires SnapshotsOf(ms) == SnapshotsOf(ns) && DeltasOf(ms) == DeltasOf(ns)
    requires LastEpochFrom(SnapshotsOf(ms), first) && Faithful(SnapshotsOf(ms), DeltasOf(ms), first)
    requires Quiet(ms, SnapshotsOf(ms)[first].epoch, SnapshotsOf(ms)[first].sequence)
    requires Quiet(ns, SnapshotsOf(ms)[first].epoch, SnapshotsOf(ms)[first].sequence)
    ensures Run(ms).book == Run(ns).book == Some(Reconstructed(SnapshotsOf(ms), DeltasOf(ms), first))
  {
    RunReconstructs(ms, first);
    RunReconstructs(ns, first);
  }

  // ---------- logs that never cross ----------

  lemma {:induction false} SparedFromLower<E>(ms: seq<Message<E>>, epoch: int, t: int, u: int)
    requires Spared(ms, epoch, t) && t <= u
    ensures Spared(ms, epoch, u)
  {
    if ms != [] {
      SparedFromLower(ms[..|ms| - 1], epoch, t, u);
    }
  }

  /** Only a crossed book of the snapshot's own epoch is rewound. */
  lemma UnderrunMeansCrossed<E>(st: StreamState<E>, s: Message<E>)
    requires s.Snapshot? && s.sequence >= 0 && Step(st, s).report.underrun
    ensures st.book.Some? && st.book.value.epoch == s.epoch && Crossed(st.book.value.depth)
  {
  }

  lemma UncrossedState<E>(s0: Message<E>, ds: seq<Message<E>>, t: int)
    requires NeverCrossed(s0, ds)
    ensures !Crossed(StateAt(s0, ds, t))
  {
  }

  /** A book that shows an uncrossed published state is never rewound. */
  lemma UncrossedIsNotHealed<E>(st: StreamState<E>, snaps: seq<Message<E>>, deltas: seq<Message<E>>, first: nat,
                                consumedSnaps: seq<Message<E>>, consumed: seq<Message<E>>, base: int, s: Message<E>)
    requires LastEpochFrom(snaps, first) && Faithful(snaps, deltas, first)
    requires NeverCrossed(snaps[first], Later(deltas, snaps[first]))
    requires Progress(st, snaps, deltas, first, consumedSnaps, consumed, base)
    requires s.Snapshot? && s.epoch == snaps[first].epoch && s.sequence >= 0
    ensures !Step(st, s).report.underrun
  {
    if Step(st, s).report.underrun {
      UnderrunMeansCrossed(st, s);
      var s0 := snaps[first];
      UncrossedState(s0, Later(deltas, s0), Max(base, Top(s0.sequence, Later(consumed, s0))));
      assert false;
    }
  }

  lemma NotNegative<E>(snaps: seq<Message<E>>, deltas: seq<Message<E>>, first: nat, n: nat)
    requires LastEpochFrom(snaps, first) && Faithful(snaps, deltas, first)
    requires n < |snaps| && snaps[n].epoch == snaps[first].epoch
    ensures snaps[n].sequence >= 0
  {
    forall i | 0 <= i < first ensures snaps[i].epoch != snaps[first].epoch {
      assert snaps[..first][i] == snaps[i];
    }
  }

  lemma UncrossedStep<E>(before: seq<Message<E>>, m: Message<E>, snaps: seq<Message<E>>, deltas: seq<Message<E>>, first: nat)
    requires LastEpochFrom(snaps, first) && Faithful(snaps, deltas, first)
    requires NeverCrossed(snaps[first], Later(deltas, snaps[first]))
    requires m.Snapshot? ==> SnapshotsOf(before) + [m] <= snaps
    requires SnapshotsOf(before) <= snaps && DeltasOf(before) <= deltas
    requires Quiet(before, snaps[first].epoch, snaps[first].sequence)
    ensures m.Snapshot? && m.epoch == snaps[first].epoch ==> !Step(Run(before), m).report.underrun
  {
    if m.Snapshot? && m.epoch == snaps[first].epoch {
      var n := |SnapshotsOf(before)|;
      assert (SnapshotsOf(before) + [m])[n] == snaps[n];
      NotNegative(snaps, deltas, first, n);
      var base := RunProgresses(before, snaps, deltas, first);
      UncrossedIsNotHealed(Run(before), snaps, deltas, first, SnapshotsOf(before), DeltasOf(before), base, m);
    }
  }

  lemma SparedPrefix<E>(before: seq<Message<E>>, m: Message<E>, epoch: int, t: int)
    requires Spared(before + [m], epoch, t)
    ensures Spared(before, epoch, t)
  {
    assert (before + [m])[..|before|] == before;
  }

  lemma QuietStep<E>(before: seq<Message<E>>, m: Message<E>, epoch: int, t: int)
    requires Quiet(before, epoch, t) && Spared(before + [m], epoch, t)
    requires m.Snapshot? && m.epoch == epoch ==> !Step(Run(before), m).report.underrun
    ensures Quiet(before + [m], epoch, t)
  {
    assert (before + [m])[..|before|] == before;
  }

  lemma UncrossedStaysQuiet<E>(before: seq<Message<E>>, m: Message<E>, snaps: seq<Message<E>>, deltas: seq<Message<E>>, first: nat)
    requires LastEpochFrom(snaps, first) && Faithful(snaps, deltas, first)
    requires NeverCrossed(snaps[first], Later(deltas, snaps[first]))
    requires SnapshotsOf(before + [m]) <= snaps && DeltasOf(before + [m]) <= deltas
    requires Spared(before + [m], snaps[first].epoch, snaps[first].sequence)
    requires Quiet(before, snaps[first].epoch, snaps[first].sequence)
    ensures Quiet(before + [m], snaps[first].epoch, snaps[first].sequence)
  {
    TopicsExtend(before, m, before + [m], snaps, deltas);
    UncrossedStep(before, m, snaps, deltas, first);
    QuietStep(before, m, snaps[first].epoch, snaps[first].sequence);
  }

  /** Where no published state is crossed, no heal can underrun: sparing the buffered deltas
      is all that convergence needs. */
  lemma {:induction false} UncrossedIsQuiet<E>(ms: seq<Message<E>>, snaps: seq<Message<E>>, deltas: seq<Message<E>>, first: nat)
    requires LastEpochFrom(snaps, first) && Faithful(snaps, deltas, first)
    requires NeverCrossed(snaps[first], Later(deltas, snaps[first]))
    requires SnapshotsOf(ms) <= snaps && DeltasOf(ms) <= deltas
    requires Spared(ms, snaps[first].epoch, snaps[first].sequence)
    ensures Quiet(ms, snaps[first].epoch, snaps[first].sequence)
  {
    if ms != [] {
      var before, m := ms[..|ms| - 1], ms[|ms| - 1];
      assert before + [m] == ms;
      TopicsExtend(before, m, ms, snaps, deltas);
      SparedPrefix(before, m, snaps[first].epoch, snaps[first].sequence);
      UncrossedIsQuiet(before, snaps, deltas, first);
      UncrossedStaysQuiet(before, m, snaps, deltas, first);
    }
  }

  /** So a log that never crosses converges as soon as no needed delta is shed. */
  lemma UncrossedReconstructs<E>(ms: seq<Message<E>>, first: nat)
    requires LastEpochFrom(SnapshotsOf(ms), first) && Faithful(SnapshotsOf(ms), DeltasOf(ms), first)
    requires NeverCrossed(SnapshotsOf(ms)[first], Later(DeltasOf(ms), SnapshotsOf(ms)[first]))
    requires Spared(ms, SnapshotsOf(ms)[first].epoch, SnapshotsOf(ms)[first].sequence)
    ensures Run(ms).book == Some(Reconstructed(SnapshotsOf(ms), DeltasOf(ms), first))
  {
    UncrossedIsQuiet(ms, SnapshotsOf(ms), DeltasOf(ms), first);
    RunReconstructs(ms, first);
  }

  // ---------- runs that cannot overflow ----------

  lemma {:induction false} DrainSize<E>(b: BookState<E>, last: Message<E>, tail: Tail<E>, q: seq<Message<E>>, epoch: int)
    requires |tail.kept| + |q| <= MAX_APPLIED_TAIL
    ensures var r := Drain(b, last, tail, q, epoch);
            |r.tail.kept| + |r.retained| <= |tail.kept| + |q| && r.tail.evicted == tail.evicted
  {
    if q != [] {
      DrainSize(b, last, tail, q[..|q| - 1], epoch);
    }
  }

  lemma {:induction false} PruneSize<E>(ds: seq<Message<E>>, epoch: int, t: int)
    ensures |Prune(ds, epoch, t)| <= |ds|
  {
    if ds != [] {
      PruneSize(ds[..|ds| - 1], epoch, t);
    }
  }

  /** With no more deltas than either buffer holds, nothing is shed and nothing evicted. */
  lemma {:induction false} WithinCaps<E>(ms: seq<Message<E>>, epoch: int, t: int)
    requires |DeltasOf(ms)| <= MAX_PENDING_DELTAS && |DeltasOf(ms)| <= MAX_APPLIED_TAIL
    ensures var st := Run(ms); |st.pending| + |st.tail.kept| <= |DeltasOf(ms)| && st.tail.evicted.None?
    ensures Quiet(ms, epoch, t) && Spared(ms, epoch, t)
  {
    if ms != [] {
      var before, m := ms[..|ms| - 1], ms[|ms| - 1];
      WithinCaps(before, epoch, t);
      var st := Run(before);
      var b := if st.book.Some? then st.book.value else NewBook();
      if m.Snapshot? && Accepts(b, m) {
        PruneSize(st.tail.kept, m.epoch, m.sequence);
        var r := Replay(Reset(m), m, st.tail.kept, m.epoch);
        DrainSize(r.book, r.last, Tail(Prune(st.tail.kept, m.epoch, m.sequence), None), st.pending, m.epoch);
      }
    }
  }

  /** So a log that fits the buffers converges under every interleaving, unconditionally. */
  lemma ConvergenceWithinCaps<E>(ms: seq<Message<E>>, ns: seq<Message<E>>, first: nat)
    requires SnapshotsOf(ms) == SnapshotsOf(ns) && DeltasOf(ms) == DeltasOf(ns)
    requires LastEpochFrom(SnapshotsOf(ms), first) && Faithful(SnapshotsOf(ms), DeltasOf(ms), first)
    requires |DeltasOf(ms)| <= MAX_PENDING_DELTAS && |DeltasOf(ms)| <= MAX_APPLIED_TAIL
    ensures Run(ms).book == Run(ns).book == Some(Reconstructed(SnapshotsOf(ms), DeltasOf(ms), first))
  {
    var s0 := SnapshotsOf(ms)[first];
    WithinCaps(ms, s0.epoch, s0.sequence);
    WithinCaps(ns, s0.epoch, s0.sequence);
    Convergence(ms, ns, first);
  }

  // ---------- warm restart ----------

  lemma {:induction false} OfEpochSuffixIncreasing<E>(ds: seq<Message<E>>, k: nat, epoch: int)
    requires k <= |ds| && Increasing(OfEpoch(ds, epoch))
    ensures Increasing(OfEpoch(ds[k..], epoch))
  {
    var a, b := OfEpoch(ds[..k], epoch), OfEpoch(ds[k..], epoch);
    assert ds == ds[..k] + ds[k..];
    OfEpochConcat(ds[..k], ds[k..], epoch);
    forall i, j | 0 <= i < j < |b| ensures b[i].sequence < b[j].sequence {
      assert b[i] == (a + b)[|a| + i] && b[j] == (a + b)[|a| + j];
    }
  }

  /** The suffix of the delta topic from offset `k` holds every delta of the newest
      snapshot's epoch above its sequence. */
  predicate CoversAfter<E>(deltas: seq<Message<E>>, k: nat, s: Message<E>) {
    k <= |deltas| && forall i :: 0 <= i < k && deltas[i].epoch == s.epoch ==> deltas[i].sequence <= s.sequence
  }

  lemma SkippedIsCovered<E>(deltas: seq<Message<E>>, k: nat, s: Message<E>)
    requires CoversAfter(deltas, k, s)
    ensures Later(deltas[k..], s) == Later(deltas, s)
  {
    var skipped := OfEpoch(deltas[..k], s.epoch);
    assert deltas == deltas[..k] + deltas[k..];
    OfEpochConcat(deltas[..k], deltas[k..], s.epoch);
    AboveConcat(skipped, OfEpoch(deltas[k..], s.epoch), s.sequence);
    OfEpochMembers(deltas[..k], s.epoch);
    AboveNone(skipped, s.sequence);
  }

  /** The first snapshot of the last connection that a reader from `j` on meets. */
  function OpeningFrom(first: nat, j: nat): nat {
    if first < j then j else first
  }

  lemma EpochAt<E>(snaps: seq<Message<E>>, first: nat)
    requires LastEpochFrom(snaps, first)
    ensures forall i :: 0 <= i < first ==> snaps[i].epoch != snaps[first].epoch
    ensures forall i :: first <= i < |snaps| ==> snaps[i].epoch == snaps[first].epoch
  {
    forall i | 0 <= i < first ensures snaps[i].epoch != snaps[first].epoch {
      assert snaps[..first][i] == snaps[i];
    }
    forall i | first <= i < |snaps| ensures snaps[i].epoch == snaps[first].epoch {
      assert snaps[first..][i - first] == snaps[i];
    }
  }

  lemma LastEpochIs<E>(snaps: seq<Message<E>>, first: nat)
    requires first < |snaps| && forall i :: 0 <= i < |snaps| ==> snaps[i].Snapshot?
    requires forall i :: 0 <= i < first ==> snaps[i].epoch != snaps[first].epoch
    requires forall i :: first <= i < |snaps| ==> snaps[i].epoch == snaps[first].epoch
    ensures LastEpochFrom(snaps, first)
  {
  }

  lemma SuffixEpochs<E>(snaps: seq<Message<E>>, first: nat, j: nat)
    requires LastEpochFrom(snaps, first) && j < |snaps|
    ensures var o := OpeningFrom(first, j);
            LastEpochFrom(snaps[j..], o - j) && snaps[j..][o - j] == snaps[o] && snaps[o].epoch == snaps[first].epoch
  {
    var o, rest := OpeningFrom(first, j), snaps[j..];
    EpochAt(snaps, first);
    assert forall i :: 0 <= i < |rest| ==> rest[i] == snaps[i + j];
    LastEpochIs(rest, o - j);
  }

  lemma AboveShrinks<E>(ds: seq<Message<E>>, t: int, u: int)
    requires t <= u
    ensures |Above(ds, u)| <= |Above(ds, t)| && Above(Above(ds, t), u) == Above(ds, u)
  {
    AboveTwice(ds, t, u);
    AboveMembers(Above(ds, t), u, 0);
  }

  lemma CutsCompose<E>(ds: seq<Message<E>>, t: int, u: int)
    requires Increasing(ds) && t <= u
    ensures Cut(ds, t) <= Cut(ds, u) && Above(ds, t) == ds[Cut(ds, t)..]
    ensures Cut(Above(ds, t), u) == Cut(ds, u) - Cut(ds, t)
  {
    AboveIsSuffix(ds, t);
    AboveShrinks(ds, t, u);
  }

  lemma SliceJoins<T>(s: seq<T>, c: nat, k: nat)
    requires c <= k <= |s|
    ensures s[..c] + s[c..][..k - c] == s[..k]
  {
    var all := s[..c] + s[c..][..k - c];
    forall i | 0 <= i < k ensures all[i] == s[i] {
      if i >= c {
        assert all[i] == s[c..][i - c];
      }
    }
  }

  lemma ApplyBetween<E>(depth: Depth<E>, ds: seq<Message<E>>, c: nat, k: nat)
    requires c <= k <= |ds|
    ensures ApplyAll(ApplyAll(depth, ds[..c]), ds[c..][..k - c]) == ApplyAll(depth, ds[..k])
  {
    SliceJoins(ds, c, k);
    ApplyAllConcat(depth, ds[..c], ds[c..][..k - c]);
  }

  /** Read from a later snapshot that shows it, the published state is the same. */
  lemma StateFrom<E>(s0: Message<E>, s: Message<E>, ds: seq<Message<E>>, t: int)
    requires Increasing(ds) && s.sequence <= t && Build(s.update) == StateAt(s0, ds, s.sequence)
    ensures StateAt(s, Above(ds, s.sequence), t) == StateAt(s0, ds, t)
  {
    CutsCompose(ds, s.sequence, t);
    ApplyBetween(Build(s0.update), ds, Cut(ds, s.sequence), Cut(ds, t));
  }

  lemma SuffixShows<E>(snaps: seq<Message<E>>, deltas: seq<Message<E>>, first: nat, o: nat, i: nat)
    requires LastEpochFrom(snaps, first) && Faithful(snaps, deltas, first) && first <= o <= i < |snaps|
    requires snaps[o].epoch == snaps[first].epoch
    ensures Build(snaps[i].update) == StateAt(snaps[o], Later(deltas, snaps[o]), snaps[i].sequence)
  {
    var s0, s := snaps[first], snaps[o];
    LaterIsOrdered(deltas, s0);
    AboveTwice(OfEpoch(deltas, s0.epoch), s0.sequence, s.sequence);
    StateFrom(s0, s, Later(deltas, s0), snaps[i].sequence);
  }

  lemma SuffixIsFaithful<E>(snaps: seq<Message<E>>, deltas: seq<Message<E>>, first: nat, j: nat, k: nat)
    requires LastEpochFrom(snaps, first) && Faithful(snaps, deltas, first) && j < |snaps|
    requires CoversAfter(deltas, k, snaps[OpeningFrom(first, j)])
    ensures var from := OpeningFrom(first, j) - j;
            LastEpochFrom(snaps[j..], from) && Faithful(snaps[j..], deltas[k..], from)
  {
    var o := OpeningFrom(first, j);
    var s, rest := snaps[o], snaps[j..];
    SuffixEpochs(snaps, first, j);
    SkippedIsCovered(deltas, k, s);
    OfEpochSuffixIncreasing(deltas, k, s.epoch);
    forall i | o - j <= i < |rest| ensures Build(rest[i].update) == StateAt(s, Later(deltas[k..], s), rest[i].sequence) {
      SuffixShows(snaps, deltas, first, o, i + j);
    }
  }

  lemma SuffixReconstructs<E>(snaps: seq<Message<E>>, deltas: seq<Message<E>>, first: nat, j: nat, k: nat)
    requires LastEpochFrom(snaps, first) && Faithful(snaps, deltas, first) && j < |snaps|
    requires CoversAfter(deltas, k, snaps[OpeningFrom(first, j)])
    ensures Reconstructed(snaps[j..], deltas[k..], OpeningFrom(first, j) - j) == Reconstructed(snaps, deltas, first)
  {
    var o := OpeningFrom(first, j);
    SuffixEpochs(snaps, first, j);
    SkippedIsCovered(deltas, k, snaps[o]);
    ResumeFromNewest(snaps[first], snaps[o], deltas);
    assert snaps[j..][|snaps| - j - 1] == snaps[|snaps| - 1];
    assert snaps[o].sequence <= snaps[|snaps| - 1].sequence;
  }

  /** The snapshots from any point on, with a delta suffix that covers the first of them that
      counts, are a faithful log and reconstruct what the whole log does. */
  lemma SuffixSuffices<E>(snaps: seq<Message<E>>, deltas: seq<Message<E>>, first: nat, j: nat, k: nat)
    requires LastEpochFrom(snaps, first) && Faithful(snaps, deltas, first) && j < |snaps|
    requires CoversAfter(deltas, k, snaps[OpeningFrom(first, j)])
    ensures var from := OpeningFrom(first, j) - j;
            && LastEpochFrom(snaps[j..], from) && Faithful(snaps[j..], deltas[k..], from)
            && snaps[j..][from] == snaps[OpeningFrom(first, j)]
            && Reconstructed(snaps[j..], deltas[k..], from) == Reconstructed(snaps, deltas, first)
  {
    SuffixIsFaithful(snaps, deltas, first, j, k);
    SuffixReconstructs(snaps, deltas, first, j, k);
  }

  /** The newest snapshot alone, with the delta suffix, is itself a faithful log, and it
      reconstructs what the whole log does. */
  lemma NewestSuffices<E>(snaps: seq<Message<E>>, deltas: seq<Message<E>>, first: nat, k: nat)
    requires LastEpochFrom(snaps, first) && Faithful(snaps, deltas, first)
    requires CoversAfter(deltas, k, snaps[|snaps| - 1])
    ensures var newest := [snaps[|snaps| - 1]];
            && LastEpochFrom(newest, 0) && Faithful(newest, deltas[k..], 0)
            && Reconstructed(newest, deltas[k..], 0) == Reconstructed(snaps, deltas, first)
  {
    assert snaps[|snaps| - 1..] == [snaps[|snaps| - 1]];
    SuffixSuffices(snaps, deltas, first, |snaps| - 1, k);
  }

  lemma ResumeFromNewest<E>(s0: Message<E>, s: Message<E>, deltas: seq<Message<E>>)
    requires s.epoch == s0.epoch && s0.sequence <= s.sequence && Increasing(OfEpoch(deltas, s.epoch))
    requires Build(s.update) == StateAt(s0, Later(deltas, s0), s.sequence)
    ensures ApplyAll(Build(s.update), Later(deltas, s)) == ApplyAll(Build(s0.update), Later(deltas, s0))
    ensures Max(s.sequence, Top(s.sequence, Later(deltas, s))) == Max(s.sequence, Top(s0.sequence, Later(deltas, s0)))
  {
    var ds := Later(deltas, s0);
    LaterIsOrdered(deltas, s0);
    AboveTwice(OfEpoch(deltas, s.epoch), s0.sequence, s.sequence);
    StateResumes(s0, ds, ds, s.sequence);
    FullState(s0, ds, s.sequence);
  }

  lemma StateAtBase<E>(s: Message<E>, ds: seq<Message<E>>)
    requires Increasing(ds) && (ds != [] ==> ds[0].sequence > s.sequence)
    ensures StateAt(s, ds, s.sequence) == Build(s.update)
  {
    CutAt(ds, 0, s.sequence);
    assert ds[..0] == [];
  }

  lemma RunOfTopics<E>(ms: seq<Message<E>>, snaps: seq<Message<E>>, deltas: seq<Message<E>>, first: nat)
    requires SnapshotsOf(ms) == snaps && DeltasOf(ms) == deltas
    requires LastEpochFrom(snaps, first) && Faithful(snaps, deltas, first)
    requires Quiet(ms, snaps[first].epoch, snaps[first].sequence)
    ensures Run(ms).book == Some(Reconstructed(snaps, deltas, first))
  {
    RunReconstructs(ms, first);
  }

  /** Warm restart equals full replay: an empty stream fed, in any interleaving, the snapshots
      from any point on and a covering delta suffix ends with the book of a full replay. */
  lemma WarmRestart<E>(ms: seq<Message<E>>, ws: seq<Message<E>>, first: nat, j: nat, k: nat)
    requires LastEpochFrom(SnapshotsOf(ms), first) && Faithful(SnapshotsOf(ms), DeltasOf(ms), first)
    requires j < |SnapshotsOf(ms)| && CoversAfter(DeltasOf(ms), k, SnapshotsOf(ms)[OpeningFrom(first, j)])
    requires SnapshotsOf(ws) == SnapshotsOf(ms)[j..] && DeltasOf(ws) == DeltasOf(ms)[k..]
    requires Quiet(ms, SnapshotsOf(ms)[first].epoch, SnapshotsOf(ms)[first].sequence)
    requires var s := SnapshotsOf(ms)[OpeningFrom(first, j)]; Quiet(ws, s.epoch, s.sequence)
    ensures Run(ws).book == Run(ms).book
  {
    SuffixSuffices(SnapshotsOf(ms), DeltasOf(ms), first, j, k);
    RunOfTopics(ms, SnapshotsOf(ms), DeltasOf(ms), first);
    RunOfTopics(ws, SnapshotsOf(ms)[j..], DeltasOf(ms)[k..], OpeningFrom(first, j) - j);
  }
}
