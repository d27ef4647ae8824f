/** The pre-snapshot buffer's overflow.  Dropping the oldest entry is described as
    harmless because a snapshot supersedes the oldest deltas; that holds exactly when
    no needed delta is among those dropped, and the buffer is shared by every connection
    of the stream. */
module Overflow {
  import opened Levels
  import opened Stream
  import opened Convergence

  /** A delta the snapshot `s` does not already hold. */
  predicate Needed<E>(d: Message<E>, s: Message<E>) {
    d.epoch == s.epoch && d.sequence > s.sequence
  }

  /** The epoch has no snapshot among `ms`, and its deltas arrive in increasing sequence. */
  predicate Awaiting<E>(ms: seq<Message<E>>, epoch: int) {
    NoneOfEpoch(SnapshotsOf(ms), epoch) && Increasing(OfEpoch(DeltasOf(ms), epoch))
  }

  // ---------- what stays buffered ----------

  lemma LaterPush<E>(ds: seq<Message<E>>, d: Message<E>, s: Message<E>)
    ensures Later(ds + [d], s) == if Needed(d, s) then Later(ds, s) + [d] else Later(ds, s)
  {
    PushOnto(ds, d, s.epoch, s.sequence);
    assert Later(ds, s) + [] == Later(ds, s);
  }

  lemma LaterSplit<E>(a: seq<Message<E>>, b: seq<Message<E>>, s: Message<E>)
    ensures Later(a + b, s) == Later(a, s) + Later(b, s)
  {
    OfEpochConcat(a, b, s.epoch);
    AboveConcat(OfEpoch(a, s.epoch), OfEpoch(b, s.epoch), s.sequence);
  }

  lemma LaterFirst<E>(q: seq<Message<E>>, s: Message<E>)
    requires q != [] && Needed(q[0], s)
    ensures Later(q, s) == [q[0]] + Later(q[1..], s)
  {
    LaterSplit([q[0]], q[1..], s);
    assert q == [q[0]] + q[1..];
    LaterPush([], q[0], s);
    assert [] + [q[0]] == [q[0]];
  }

  /** `kept` is `all` without its first `|all| - |kept|` entries. */
  predicate SuffixOf<E(==)>(kept: seq<Message<E>>, all: seq<Message<E>>) {
    |kept| <= |all| && kept == all[|all| - |kept|..]
  }

  /** The stream has nothing of the epoch but what it buffers; the needed part of that is
      the newest of what was consumed. */
  ghost predicate Holds<E>(st: StreamState<E>, consumed: seq<Message<E>>, s: Message<E>) {
    Waiting(st, st.pending, s.epoch, s.sequence) && SuffixOf(Later(st.pending, s), Later(consumed, s))
  }

  predicate ShedsNeeded<E>(st: StreamState<E>, m: Message<E>, s: Message<E>) {
    var shed := Step(st, m).report.shed; shed.Some? && Needed(shed.value, s)
  }

  lemma SuffixGrows<E>(kept: seq<Message<E>>, all: seq<Message<E>>, d: Message<E>)
    requires SuffixOf(kept, all)
    ensures SuffixOf(kept + [d], all + [d])
    ensures kept != [] ==> SuffixOf(kept[1..] + [d], all + [d]) && SuffixOf(kept[1..], all)
  {
  }

  /** How many needed deltas are no longer buffered. */
  function Gone<E>(q: seq<Message<E>>, consumed: seq<Message<E>>, s: Message<E>): int {
    |Later(consumed, s)| - |Later(q, s)|
  }

  lemma BufferShedsNeeded<E>(q: seq<Message<E>>, consumed: seq<Message<E>>, s: Message<E>, d: Message<E>)
    requires q != [] && Needed(q[0], s) && SuffixOf(Later(q, s), Later(consumed, s))
    ensures SuffixOf(Later(q[1..] + [d], s), Later(consumed + [d], s))
    ensures Gone(q[1..] + [d], consumed + [d], s) == Gone(q, consumed, s) + 1
  {
    SuffixGrows(Later(q, s), Later(consumed, s), d);
    LaterFirst(q, s);
    LaterPush(q[1..], d, s);
    LaterPush(consumed, d, s);
  }

  lemma ShedState<E>(st: StreamState<E>, d: Message<E>, s: Message<E>)
    requires d.Delta? && ShedsNeeded(st, d, s)
    ensures st.pending != [] && Needed(st.pending[0], s)
    ensures Step(st, d).state == st.(pending := st.pending[1..] + [d])
  {
  }

  lemma HoldsShed<E>(st: StreamState<E>, consumed: seq<Message<E>>, s: Message<E>, d: Message<E>)
    requires Holds(st, consumed, s) && d.Delta? && ShedsNeeded(st, d, s)
    ensures Holds(Step(st, d).state, consumed + [d], s)
    ensures Gone(Step(st, d).state.pending, consumed + [d], s) == Gone(st.pending, consumed, s) + 1
  {
    ShedState(st, d, s);
    BufferShedsNeeded(st.pending, consumed, s, d);
  }

  lemma WaitsOnPending<E>(st: StreamState<E>, consumed: seq<Message<E>>, epoch: int, t: int)
    requires Waiting(st, consumed, epoch, t)
    ensures Waiting(st, st.pending, epoch, t)
  {
  }

  lemma BuffersDelta<E>(st: StreamState<E>, s: Message<E>, d: Message<E>)
    requires Waiting(st, st.pending, s.epoch, s.sequence) && d.Delta? && !ShedsNeeded(st, d, s)
    ensures var st' := Step(st, d).state;
            Waiting(st', st'.pending, s.epoch, s.sequence) && Later(st'.pending, s) == Later(st.pending + [d], s)
  {
    WaitingDelta(st, st.pending, s.epoch, s.sequence, d);
    WaitsOnPending(Step(st, d).state, st.pending + [d], s.epoch, s.sequence);
  }

  lemma SuffixLater<E>(q: seq<Message<E>>, consumed: seq<Message<E>>, s: Message<E>, d: Message<E>)
    requires SuffixOf(Later(q, s), Later(consumed, s))
    ensures SuffixOf(Later(q + [d], s), Later(consumed + [d], s))
    ensures Gone(q + [d], consumed + [d], s) == Gone(q, consumed, s)
  {
    LaterPush(q, d, s);
    LaterPush(consumed, d, s);
    SuffixGrows(Later(q, s), Later(consumed, s), d);
  }

  lemma HoldsDelta<E>(st: StreamState<E>, consumed: seq<Message<E>>, s: Message<E>, d: Message<E>)
    requires Holds(st, consumed, s) && d.Delta? && !ShedsNeeded(st, d, s)
    ensures Holds(Step(st, d).state, consumed + [d], s)
    ensures Gone(Step(st, d).state.pending, consumed + [d], s) == Gone(st.pending, consumed, s)
  {
    BuffersDelta(st, s, d);
    SuffixLater(st.pending, consumed, s, d);
  }

  lemma {:induction false} HoldsSnapshot<E>(st: StreamState<E>, consumed: seq<Message<E>>, s: Message<E>, m: Message<E>)
    requires Holds(st, consumed, s) && m.Snapshot? && m.epoch != s.epoch
    ensures Holds(Step(st, m).state, consumed, s)
    ensures Later(Step(st, m).state.pending, s) == Later(st.pending, s) && !ShedsNeeded(st, m, s)
  {
    WaitingSnapshot(st, st.pending, s.epoch, s.sequence, m);
  }

  lemma {:induction false} RunHolds<E>(ms: seq<Message<E>>, s: Message<E>)
    requires NoneOfEpoch(SnapshotsOf(ms), s.epoch)
    ensures Holds(Run(ms), DeltasOf(ms), s)
    ensures Later(Run(ms).pending, s) == Later(DeltasOf(ms), s) <==> Spared(ms, s.epoch, s.sequence)
  {
    if ms != [] {
      var before, m := ms[..|ms| - 1], ms[|ms| - 1];
      assert ms == before + [m];
      TopicsExtend(before, m, ms, SnapshotsOf(ms), DeltasOf(ms));
      if m.Delta? {
        RunHolds(before, s);
        if ShedsNeeded(Run(before), m, s) {
          HoldsShed(Run(before), DeltasOf(before), s, m);
        } else {
          HoldsDelta(Run(before), DeltasOf(before), s, m);
        }
      } else {
        assert SnapshotsOf(ms)[|SnapshotsOf(before)|] == m;
        NoneOfEpochPrefix(SnapshotsOf(before), m, s.epoch);
        RunHolds(before, s);
        HoldsSnapshot(Run(before), DeltasOf(before), s, m);
      }
    }
  }

  lemma NoneOfEpochPrefix<E>(ds: seq<Message<E>>, d: Message<E>, epoch: int)
    requires NoneOfEpoch(ds + [d], epoch)
    ensures NoneOfEpoch(ds, epoch)
  {
    assert forall i :: 0 <= i < |ds| ==> ds[i] == (ds + [d])[i];
  }

  // ---------- what the first snapshot applies ----------

  lemma SuffixIncreases<E>(kept: seq<Message<E>>, all: seq<Message<E>>)
    requires SuffixOf(kept, all) && Increasing(all)
    ensures Increasing(kept)
  {
  }

  /** The first snapshot's drain applies what is left of the needed deltas. */
  lemma BacklogDrains<E>(ms: seq<Message<E>>, s: Message<E>)
    requires Awaiting(ms, s.epoch) && s.Snapshot? && s.sequence >= 0
    ensures var r, c := Step(Run(ms), s), Later(Run(ms).pending, s);
            r.report.applied == c && r.state.book == Some(BookState(ApplyAll(Build(s.update), c), Top(s.sequence, c), s.epoch))
  {
    var q := Run(ms).pending;
    RunHolds(ms, s);
    AboveIsSuffix(OfEpoch(DeltasOf(ms), s.epoch), s.sequence);
    SuffixIncreases(Later(q, s), Later(DeltasOf(ms), s));
    OpeningStep(Run(ms), s);
    DrainApplies(Reset(s), s, Tail([], None), q, s.epoch);
    DrainAdvances(Reset(s), s, Tail([], None), q, s.epoch);
  }

  /** Whatever else the stream consumed, the first snapshot of an epoch applies every
      consumed delta of the epoch above it if and only if none of those was shed. */
  lemma DrainIsWholeIff<E>(ms: seq<Message<E>>, s: Message<E>)
    requires Awaiting(ms, s.epoch) && s.Snapshot? && s.sequence >= 0
    ensures Step(Run(ms), s).report.applied == Later(DeltasOf(ms), s) <==> Spared(ms, s.epoch, s.sequence)
  {
    BacklogDrains(ms, s);
    RunHolds(ms, s);
  }

  // ---------- a backlog of deltas ----------

  predicate AllDeltas<E>(ds: seq<Message<E>>) {
    forall i :: 0 <= i < |ds| ==> ds[i].Delta?
  }

  /** Where the first delta `s` needs lies, at the end if it needs none. */
  function FirstNeeded<E>(ds: seq<Message<E>>, s: Message<E>): (k: nat)
    ensures k <= |ds| && (k < |ds| ==> Needed(ds[k], s))
    ensures forall i :: 0 <= i < k ==> !Needed(ds[i], s)
  {
    if ds == [] then 0
    else
      var k := FirstNeeded(ds[..|ds| - 1], s);
      if k < |ds| - 1 || Needed(ds[|ds| - 1], s) then k else |ds|
  }

  function Shedded(n: nat): nat {
    if n > MAX_PENDING_DELTAS then n - MAX_PENDING_DELTAS else 0
  }

  lemma {:induction false} DeltasOnly<E>(ds: seq<Message<E>>)
    requires AllDeltas(ds)
    ensures SnapshotsOf(ds) == [] && DeltasOf(ds) == ds
  {
    if ds != [] {
      DeltasOnly(ds[..|ds| - 1]);
    }
  }

  lemma BufferHoldsOneMore<E>(rest: seq<Message<E>>, d: Message<E>)
    requires Run(rest) == StreamState(None, rest[Shedded(|rest|)..], Tail([], None)) && d.Delta?
    ensures Run(rest + [d]) == StreamState(None, (rest + [d])[Shedded(|rest| + 1)..], Tail([], None))
  {
    assert (rest + [d])[..|rest|] == rest;
    BufferedDelta(Run(rest), d);
    BufferSlides(rest, d);
  }

  /** The buffer holds the newest deltas up to its capacity. */
  lemma {:induction false} BufferHoldsNewest<E>(ds: seq<Message<E>>)
    requires AllDeltas(ds)
    ensures Run(ds) == StreamState(None, ds[Shedded(|ds|)..], Tail([], None))
  {
    if ds != [] {
      var rest, d := ds[..|ds| - 1], ds[|ds| - 1];
      BufferHoldsNewest(rest);
      BufferHoldsOneMore(rest, d);
      assert ds == rest + [d];
    }
  }

  lemma BufferSlides<E>(rest: seq<Message<E>>, d: Message<E>)
    ensures Buffer(rest[Shedded(|rest|)..], d) == (rest + [d])[Shedded(|rest| + 1)..]
  {
    var k := Shedded(|rest|);
    SuffixPush(rest, d, k);
    if |rest| >= MAX_PENDING_DELTAS {
      assert rest[k..][1..] == rest[k + 1..];
      SuffixPush(rest, d, k + 1);
    }
  }

  predicate NeedsNone<E>(ds: seq<Message<E>>, s: Message<E>) {
    forall i :: 0 <= i < |ds| ==> !Needed(ds[i], s)
  }

  lemma NeedsNonePush<E>(ds: seq<Message<E>>, d: Message<E>, s: Message<E>)
    ensures NeedsNone(ds + [d], s) <==> NeedsNone(ds, s) && !Needed(d, s)
  {
    assert (ds + [d])[|ds|] == d;
    assert forall i :: 0 <= i < |ds| ==> ds[i] == (ds + [d])[i];
  }

  lemma {:induction false} NoneNeeded<E>(ds: seq<Message<E>>, s: Message<E>)
    ensures Later(ds, s) == [] <==> NeedsNone(ds, s)
  {
    if ds != [] {
      var rest, d := ds[..|ds| - 1], ds[|ds| - 1];
      assert ds == rest + [d];
      NoneNeeded(rest, s);
      LaterPush(rest, d, s);
      NeedsNonePush(rest, d, s);
    }
  }

  /** Dropping the first `k` entries loses nothing needed exactly when the first needed one
      is not among them. */
  lemma DropsNoneIff<E>(ds: seq<Message<E>>, k: nat, s: Message<E>)
    requires k <= |ds|
    ensures Later(ds[k..], s) == Later(ds, s) <==> k <= FirstNeeded(ds, s)
  {
    var shed, first := ds[..k], FirstNeeded(ds, s);
    assert ds == shed + ds[k..];
    LaterSplit(shed, ds[k..], s);
    NoneNeeded(shed, s);
    if first < k {
      assert Needed(shed[first], s);
    }
  }

  /** The first snapshot's drain applies every backlogged delta it needs if and only if no
      more deltas than the buffer holds, of whatever epoch, arrived from the first needed
      one on. */
  lemma OverflowLosesIff<E>(ds: seq<Message<E>>, s: Message<E>)
    requires AllDeltas(ds) && Increasing(OfEpoch(ds, s.epoch)) && s.Snapshot? && s.sequence >= 0
    ensures Step(Run(ds), s).report.applied == Later(ds, s) <==> |ds| - FirstNeeded(ds, s) <= MAX_PENDING_DELTAS
  {
    DeltasOnly(ds);
    BacklogDrains(ds, s);
    BufferHoldsNewest(ds);
    DropsNoneIff(ds, Shedded(|ds|), s);
  }

  // ---------- logs that lose a level ----------

  const NOTHING: Update<real> := Update([], [])
  const BID_AT_50: Update<real> := Update([Change(50.0, Some(1.0))], [])
  const STAMP: Stamp := Stamp(1, 2)
  const OPENING: Message<real> := Snapshot(1, 0, NOTHING, STAMP)

  /** One delta setting a bid, then `n` idle deltas of the given epoch. */
  function Flood(n: nat, epoch: int): (ds: seq<Message<real>>)
    ensures |ds| == n + 1 && AllDeltas(ds)
  {
    [Delta(1, 1, BID_AT_50, STAMP)] + seq(n, i => Delta(epoch, i + 2, NOTHING, STAMP))
  }

  lemma {:induction false} IdleApplies(depth: Depth<real>, ds: seq<Message<real>>)
    requires forall i :: 0 <= i < |ds| ==> ds[i].update == NOTHING
    ensures ApplyAll(depth, ds) == depth
  {
    if ds != [] {
      IdleApplies(depth, ds[..|ds| - 1]);
    }
  }

  lemma LaterMembers<E>(ds: seq<Message<E>>, s: Message<E>)
    ensures forall i :: 0 <= i < |Later(ds, s)| ==> Later(ds, s)[i] in ds
  {
    OfEpochMembers(ds, s.epoch);
    AboveMembers(OfEpoch(ds, s.epoch), s.sequence, s.epoch);
  }

  lemma IdleLater(depth: Depth<real>, ds: seq<Message<real>>, s: Message<real>)
    requires forall i :: 0 <= i < |ds| ==> ds[i].update == NOTHING
    ensures ApplyAll(depth, Later(ds, s)) == depth
  {
    LaterMembers(ds, s);
    IdleApplies(depth, Later(ds, s));
  }

  lemma BidApplies(depth: Depth<real>, d: Message<real>)
    requires d.update == BID_AT_50
    ensures 50.0 in ApplyAll(depth, [d]).bids
  {
    assert [d][..0] == [];
    assert [Change(50.0, Some(1.0))][..0] == [];
  }

  /** A needed delta setting the bid, and idle ones behind it. */
  lemma PublishedHasBid(ds: seq<Message<real>>, s: Message<real>)
    requires ds != [] && Needed(ds[0], s) && ds[0].update == BID_AT_50
    requires forall i :: 1 <= i < |ds| ==> ds[i].update == NOTHING
    ensures 50.0 in ApplyAll(Build(s.update), Later(ds, s)).bids
  {
    LaterFirst(ds, s);
    ApplyAllConcat(Build(s.update), [ds[0]], Later(ds[1..], s));
    BidApplies(Build(s.update), ds[0]);
    IdleLater(ApplyAll(Build(s.update), [ds[0]]), ds[1..], s);
  }

  lemma FloodIncreases(n: nat, epoch: int)
    ensures Increasing(OfEpoch(Flood(n, epoch), 1))
  {
    var ds := Flood(n, epoch);
    if epoch == 1 {
      OfEpochAll(ds, 1);
    } else {
      assert ds == [ds[0]] + ds[1..];
      OfEpochConcat([ds[0]], ds[1..], 1);
      OfEpochNone(ds[1..], 1);
      OfEpochAll([ds[0]], 1);
    }
  }

  lemma ShedBidIsMissing(ds: seq<Message<real>>)
    requires AllDeltas(ds) && |ds| == MAX_PENDING_DELTAS + 1 && Increasing(OfEpoch(ds, 1))
    requires forall i :: 1 <= i < |ds| ==> ds[i].update == NOTHING
    ensures var book := Step(Run(ds), OPENING).state.book; book.Some? && book.value.depth == Build(NOTHING)
  {
    DeltasOnly(ds);
    BacklogDrains(ds, OPENING);
    BufferHoldsNewest(ds);
    assert Shedded(|ds|) == 1;
    IdleLater(Build(NOTHING), ds[1..], OPENING);
  }

  /** The concrete failure: behind a delta that sets a bid come as many idle deltas as the
      buffer holds, of its own connection or of any other, and then the snapshot.  The
      published state has the bid, the reconstructed book does not. */
  lemma OverflowLosesLevel(epoch: int)
    ensures var ds := Flood(MAX_PENDING_DELTAS, epoch);
            && Increasing(OfEpoch(ds, 1))
            && 50.0 in ApplyAll(Build(NOTHING), Later(ds, OPENING)).bids
            && Step(Run(ds), OPENING).state.book.Some?
            && 50.0 !in Step(Run(ds), OPENING).state.book.value.depth.bids
  {
    var ds := Flood(MAX_PENDING_DELTAS, epoch);
    FloodIncreases(MAX_PENDING_DELTAS, epoch);
    PublishedHasBid(ds, OPENING);
    ShedBidIsMissing(ds);
  }
}
