/** What a restarted gateway consumes from its old positions before its seeks land.  Those
    messages are described as harmless.  They are, exactly when the stream does not already
    stand at or past the newest snapshot with a different book, and the early deltas above
    that snapshot are taken in the order in which the replay brings them. */
module Straggler {
  import opened Levels
  import opened Stream
  import opened Heal
  import opened Convergence
  import opened Overflow

  // ---------- deltas in arrival order ----------

  /** The deltas a book at `t` takes, in arrival order: each above the one taken before. */
  function Rising<E>(t: int, ds: seq<Message<E>>): seq<Message<E>> {
    if ds == [] then []
    else
      var c, d := Rising(t, ds[..|ds| - 1]), ds[|ds| - 1];
      if d.sequence > Top(t, c) then c + [d] else c
  }

  lemma RisingPush<E>(t: int, ds: seq<Message<E>>, d: Message<E>)
    ensures var c := Rising(t, ds); Rising(t, ds + [d]) == if d.sequence > Top(t, c) then c + [d] else c
  {
    assert (ds + [d])[..|ds|] == ds;
  }

  lemma TopConcat<E>(t: int, a: seq<Message<E>>, b: seq<Message<E>>)
    ensures Top(Top(t, a), b) == Top(t, a + b)
  {
    if b == [] {
      assert a + b == a;
    }
  }

  lemma Regroup<T>(a: seq<T>, b: seq<T>, x: T)
    ensures a + (b + [x]) == (a + b) + [x]
  {
  }

  lemma RisingConcatPush<E>(t: int, a: seq<Message<E>>, b: seq<Message<E>>, d: Message<E>)
    requires Rising(t, a + b) == Rising(t, a) + Rising(Top(t, Rising(t, a)), b)
    ensures Rising(t, (a + b) + [d]) == Rising(t, a) + Rising(Top(t, Rising(t, a)), b + [d])
  {
    var c, u := Rising(t, a), Top(t, Rising(t, a));
    RisingPush(t, a + b, d);
    RisingPush(u, b, d);
    TopConcat(t, c, Rising(u, b));
    Regroup(c, Rising(u, b), d);
  }

  lemma {:induction false} RisingConcat<E>(t: int, a: seq<Message<E>>, b: seq<Message<E>>)
    ensures Rising(t, a + b) == Rising(t, a) + Rising(Top(t, Rising(t, a)), b)
  {
    if b == [] {
      assert a + b == a;
      assert Rising(t, a) + [] == Rising(t, a);
    } else {
      var rest, d := b[..|b| - 1], b[|b| - 1];
      RisingConcat(t, a, rest);
      RisingConcatPush(t, a, rest, d);
      Regroup(a, rest, d);
      assert b == rest + [d];
    }
  }

  /** In-order deltas are all taken from `t` on. */
  lemma {:induction false} RisingInOrder<E>(t: int, ds: seq<Message<E>>)
    requires Increasing(ds)
    ensures Rising(t, ds) == Above(ds, t)
  {
    if ds != [] {
      var rest, d := ds[..|ds| - 1], ds[|ds| - 1];
      assert ds == rest + [d];
      RisingInOrder(t, rest);
      RisingPush(t, rest, d);
      AbovePush(rest, d, t);
      AboveTop(rest, d, t);
      AboveMembers(rest, t, 0);
    }
  }

  lemma TopSplits<E>(all: seq<Message<E>>, k: nat, t: int)
    requires Ascends(t, all) && k <= |all|
    ensures Top(t, all[..k]) >= t
    ensures forall i :: 0 <= i < k ==> all[i].sequence <= Top(t, all[..k])
    ensures forall i :: k <= i < |all| ==> all[i].sequence > Top(t, all[..k])
  {
    AllAbove(t, all);
  }

  /** Past its first `k`, an ascending list is what lies above them. */
  lemma AboveFirst<E>(all: seq<Message<E>>, k: nat, t: int)
    requires Ascends(t, all) && k <= |all|
    ensures Above(all, Top(t, all[..k])) == all[k..]
  {
    TopSplits(all, k, t);
    AboveFrom(all, k, Top(t, all[..k]));
  }

  /** Early deltas followed by an ascending list leave that list exactly when what is taken
      of them are its first. */
  lemma EarlyAreFirstIff<E>(t: int, early: seq<Message<E>>, all: seq<Message<E>>)
    requires Ascends(t, all)
    ensures Rising(t, early + all) == all <==> Rising(t, early) <= all
  {
    var c := Rising(t, early);
    RisingConcat(t, early, all);
    RisingInOrder(Top(t, c), all);
    if c <= all {
      assert c == all[..|c|];
      AboveFirst(all, |c|, t);
    }
  }

  // ---------- what is taken above the newest snapshot ----------

  /** Above `t` it is immaterial where below `t` the book stood. */
  lemma PlaceAbove<E>(applied: seq<Message<E>>, base: int, t: int)
    requires Increasing(applied) && base <= t
    ensures Max(t, Top(base, Above(applied, base))) == Top(t, Above(applied, t))
  {
    var k := SplitAt(applied, base);
    var l := SplitAt(applied, t);
  }

  /** What a delta adds to the deltas applied above the snapshot `s`. */
  lemma TakesAbove<E>(applied: seq<Message<E>>, base: int, later: seq<Message<E>>, s: Message<E>, d: Message<E>)
    requires Increasing(applied) && base <= s.sequence && Above(applied, s.sequence) == Rising(s.sequence, later)
    requires d.epoch == s.epoch
    ensures var taken := if d.sequence > Top(base, Above(applied, base)) then applied + [d] else applied;
            Above(taken, s.sequence) == Rising(s.sequence, if Needed(d, s) then later + [d] else later)
  {
    PlaceAbove(applied, base, s.sequence);
    AbovePush(applied, d, s.sequence);
    RisingPush(s.sequence, later, d);
  }

  /** A drain onto a snapshot at or below `s` takes, above `s`, what a drain onto `s` would. */
  lemma {:induction false} DrainTakes<E>(b: BookState<E>, last: Message<E>, tail: Tail<E>, q: seq<Message<E>>, s: Message<E>)
    requires b.sequence <= s.sequence
    ensures Above(Drain(b, last, tail, q, s.epoch).applied, s.sequence) == Rising(s.sequence, Later(q, s))
  {
    if q != [] {
      var rest, d := q[..|q| - 1], q[|q| - 1];
      assert q == rest + [d];
      var r := Drain(b, last, tail, rest, s.epoch);
      DrainTakes(b, last, tail, rest, s);
      DrainPush(b, last, tail, rest, d, s.epoch);
      DrainAdvances(b, last, tail, rest, s.epoch);
      AllAbove(b.sequence, r.applied);
      AboveAll(r.applied, b.sequence);
      LaterPush(rest, d, s);
      if d.epoch == s.epoch {
        TakesAbove(r.applied, b.sequence, Later(rest, s), s, d);
      }
    }
  }

  // ---------- whole runs ----------

  /** Once a snapshot of the epoch came, so are all later ones. */
  predicate Settles<E>(ms: seq<Message<E>>, epoch: int) {
    forall i, j :: 0 <= i < j < |ms| && ms[i].Snapshot? && ms[j].Snapshot? && ms[i].epoch == epoch ==> ms[j].epoch == epoch
  }

  /** The messages of a restart whose newest snapshot is `s`: older snapshots lie at or
      below it, in order, and no needed delta is shed. */
  ghost predicate Restart<E>(ms: seq<Message<E>>, s: Message<E>) {
    && s.Snapshot? && s.sequence >= 0
    && SnapshotsAscend(ms) && Settles(ms, s.epoch) && Spared(ms, s.epoch, s.sequence)
    && (forall i :: 0 <= i < |ms| && ms[i].Snapshot? && ms[i].epoch == s.epoch ==> ms[i].sequence <= s.sequence)
  }

  lemma RestartPrefix<E>(before: seq<Message<E>>, m: Message<E>, s: Message<E>)
    requires Restart(before + [m], s)
    ensures Restart(before, s)
    ensures m.Snapshot? && m.epoch == s.epoch ==> 0 <= m.sequence <= s.sequence
  {
    var ms := before + [m];
    assert ms[..|before|] == before;
    assert forall i :: 0 <= i < |before| ==> before[i] == ms[i];
    assert ms[|before|] == m;
  }

  /** The stream has entered the epoch of `s`. */
  ghost predicate Entered<E>(h: History<E>, s: Message<E>) {
    h.base.Some? && h.base.value.epoch == s.epoch
  }

  /** What was applied above `s` is what is taken, in arrival order, of the consumed deltas
      above it. */
  ghost predicate TakenAbove<E>(h: History<E>, consumed: seq<Message<E>>, s: Message<E>) {
    && Entered(h, s) && h.base.value.sequence <= s.sequence
    && Above(h.applied, s.sequence) == Rising(s.sequence, Later(consumed, s))
  }

  lemma EnteredDelta<E>(st: StreamState<E>, h: History<E>, consumed: seq<Message<E>>, s: Message<E>, d: Message<E>)
    requires Consistent(st, h) && TakenAbove(h, consumed, s) && d.Delta?
    ensures TakenAbove(Note(h, d, Step(st, d).report), consumed + [d], s)
  {
    var base := h.base.value.sequence;
    LiveMeansNonNegative(st, h);
    LaterPush(consumed, d, s);
    assert h.applied + [] == h.applied;
    if d.epoch == s.epoch {
      TakesAbove(h.applied, base, Later(consumed, s), s, d);
    }
  }

  lemma EnteredSnapshot<E>(st: StreamState<E>, h: History<E>, consumed: seq<Message<E>>, s: Message<E>, m: Message<E>)
    requires Consistent(st, h) && TakenAbove(h, consumed, s) && m.Snapshot?
    requires m.epoch == s.epoch && h.base.value.sequence <= m.sequence <= s.sequence
    ensures TakenAbove(Note(h, m, Step(st, m).report), consumed, s)
  {
    assert h.applied + [] == h.applied;
    if Accepts(st.book.value, m) {
      LaterTracks(st, h, m);
    }
  }

  lemma Enters<E>(st: StreamState<E>, h: History<E>, consumed: seq<Message<E>>, s: Message<E>, m: Message<E>)
    requires Holds(st, consumed, s) && Later(st.pending, s) == Later(consumed, s) && !Entered(h, s)
    requires m.Snapshot? && m.epoch == s.epoch && 0 <= m.sequence <= s.sequence
    ensures TakenAbove(Note(h, m, Step(st, m).report), consumed, s)
  {
    OpeningStep(st, m);
    DrainTakes(Reset(m), m, Tail([], None), st.pending, s);
    var d := Drain(Reset(m), m, Tail([], None), st.pending, s.epoch);
    assert [] + d.applied == d.applied;
  }

  /** An entered stream stays in the epoch. */
  lemma NextIsOfEpoch<E>(before: seq<Message<E>>, m: Message<E>, s: Message<E>)
    requires Restart(before + [m], s) && Entered(Observe(before), s) && m.Snapshot?
    ensures m.epoch == s.epoch && Observe(before).base.value.sequence <= m.sequence
  {
    BaseIsEarlier(before);
    var ms, base := before + [m], Observe(before).base.value;
    var i :| 0 <= i < |before| && before[i] == base;
    assert ms[i] == base && ms[|before|] == m;
  }

  lemma OtherSnapshot<E>(st: StreamState<E>, h: History<E>, s: Message<E>, m: Message<E>)
    requires !Entered(h, s) && m.Snapshot? && m.epoch != s.epoch
    ensures !Entered(Note(h, m, Step(st, m).report), s)
  {
  }

  /** In every restart, however its topics interleave. */
  lemma {:induction false} RunTakes<E>(ms: seq<Message<E>>, s: Message<E>)
    requires Restart(ms, s)
    ensures Entered(Observe(ms), s) <==> !NoneOfEpoch(SnapshotsOf(ms), s.epoch)
    ensures Entered(Observe(ms), s) ==> TakenAbove(Observe(ms), DeltasOf(ms), s)
  {
    if ms != [] {
      var before, m := ms[..|ms| - 1], ms[|ms| - 1];
      assert ms == before + [m];
      RestartPrefix(before, m, s);
      RunTakes(before, s);
      RunConsistent(before);
      TopicsExtend(before, m, ms, SnapshotsOf(ms), DeltasOf(ms));
      if m.Snapshot? {
        NoneOfEpochPush(SnapshotsOf(before), m, s.epoch);
      }
      var st, h := Run(before), Observe(before);
      if Entered(h, s) && m.Delta? {
        EnteredDelta(st, h, DeltasOf(before), s, m);
      } else if Entered(h, s) {
        NextIsOfEpoch(before, m, s);
        EnteredSnapshot(st, h, DeltasOf(before), s, m);
      } else if m.Snapshot? && m.epoch == s.epoch {
        RunHolds(before, s);
        Enters(st, h, DeltasOf(before), s, m);
      } else if m.Snapshot? {
        OtherSnapshot(st, h, s, m);
      }
    }
  }

  lemma NoneOfEpochPush<E>(ds: seq<Message<E>>, d: Message<E>, epoch: int)
    ensures NoneOfEpoch(ds + [d], epoch) <==> NoneOfEpoch(ds, epoch) && d.epoch != epoch
  {
    assert (ds + [d])[|ds|] == d;
    assert forall i :: 0 <= i < |ds| ==> ds[i] == (ds + [d])[i];
  }

  // ---------- the newest snapshot ----------

  /** The book as of `t`: the last accepted snapshot with what was applied above it, up to `t`. */
  function Ground<E>(h: History<E>, t: int): Depth<E> {
    if h.base.None? then Empty() else StateAt(h.base.value, Above(h.applied, h.base.value.sequence), t)
  }

  function BookOf<E>(st: StreamState<E>): BookState<E> {
    if st.book.Some? then st.book.value else NewBook()
  }

  /** Where the newest snapshot meets the stream, it is accepted, or the book already shows
      just what it shows. */
  ghost predicate Stands<E>(prior: seq<Message<E>>, s: Message<E>) {
    Accepts(BookOf(Run(prior)), s) || Ground(Observe(prior), s.sequence) == Build(s.update)
  }

  /** The book rests on what `s` shows, and what was applied above it is `ds`. */
  ghost predicate Rebuilds<E>(ms: seq<Message<E>>, s: Message<E>, ds: seq<Message<E>>) {
    Ground(Observe(ms), s.sequence) == Build(s.update) && Above(Observe(ms).applied, s.sequence) == ds
  }

  /** The stream has passed `s`, and as of `s` shows `ground`. */
  ghost predicate Passed<E>(ms: seq<Message<E>>, s: Message<E>, ground: Depth<E>) {
    var st, h := Run(ms), Observe(ms);
    && Entered(h, s) && st.book.Some? && s.sequence <= st.book.value.sequence && Ground(h, s.sequence) == ground
  }

  lemma GroundOfBase<E>(s: Message<E>, applied: seq<Message<E>>)
    ensures StateAt(s, Above(applied, s.sequence), s.sequence) == Build(s.update)
  {
    var ds := Above(applied, s.sequence);
    AboveTwice(applied, s.sequence, s.sequence);
    assert Cut(ds, s.sequence) == 0 && ds[..0] == [];
  }

  lemma ObservePush<E>(ms: seq<Message<E>>, m: Message<E>)
    ensures Observe(ms + [m]) == Note(Observe(ms), m, Step(Run(ms), m).report)
    ensures Run(ms + [m]) == Step(Run(ms), m).state
  {
    assert (ms + [m])[..|ms|] == ms;
  }

  /** A snapshot that is taken leaves the book at or above it. */
  lemma TakenPasses<E>(prior: seq<Message<E>>, s: Message<E>)
    requires Restart(prior + [s], s) && Accepts(BookOf(Run(prior)), s)
    ensures Passed(prior + [s], s, Build(s.update))
  {
    var ms := prior + [s];
    ObservePush(prior, s);
    RunConsistent(ms);
    GroundOfBase(s, Observe(ms).applied);
    TopIsLast(Observe(ms).applied, s.sequence);
  }

  lemma SkippedPasses<E>(prior: seq<Message<E>>, s: Message<E>)
    requires Restart(prior + [s], s) && !Accepts(BookOf(Run(prior)), s)
    ensures Passed(prior + [s], s, Ground(Observe(prior), s.sequence))
  {
    RestartPrefix(prior, s, s);
    RunConsistent(prior);
    ObservePush(prior, s);
    var h := Observe(prior);
    assert h.applied + [] == h.applied;
  }

  lemma GroundStays<E>(base: Message<E>, applied: seq<Message<E>>, d: Message<E>, t: int)
    requires base.sequence <= t < d.sequence
    ensures StateAt(base, Above(applied + [d], base.sequence), t) == StateAt(base, Above(applied, base.sequence), t)
  {
    AbovePush(applied, d, base.sequence);
    StateAtStable(base, Above(applied, base.sequence), d, t);
  }

  /** What a delta changes on a live book of its epoch, and on any other. */
  lemma DeltaNotes<E>(st: StreamState<E>, h: History<E>, d: Message<E>)
    requires Consistent(st, h) && h.base.Some? && d.Delta?
    ensures var r, b := Step(st, d), st.book.value;
            if d.epoch == b.epoch && Newer(b, d) then
              r.state.book == Some(Advance(b, d)) && Note(h, d, r.report) == h.(applied := h.applied + [d])
            else r.state.book == st.book && Note(h, d, r.report) == h
  {
    LiveMeansNonNegative(st, h);
    assert h.applied + [] == h.applied;
  }

  lemma {:induction false} PassedDelta<E>(ms: seq<Message<E>>, d: Message<E>, s: Message<E>, ground: Depth<E>)
    requires Restart(ms + [d], s) && Passed(ms, s, ground) && d.Delta?
    ensures Passed(ms + [d], s, ground)
  {
    RestartPrefix(ms, d, s);
    RunConsistent(ms);
    RunTakes(ms, s);
    ObservePush(ms, d);
    var b, h := Run(ms).book.value, Observe(ms);
    DeltaNotes(Run(ms), h, d);
    if d.epoch == b.epoch && Newer(b, d) {
      GroundStays(h.base.value, h.applied, d, s.sequence);
    }
  }

  lemma {:induction false} PassedDeltas<E>(ms: seq<Message<E>>, after: seq<Message<E>>, s: Message<E>, ground: Depth<E>)
    requires Restart(ms + after, s) && AllDeltas(after) && Passed(ms, s, ground)
    ensures Passed(ms + after, s, ground)
  {
    if after == [] {
      assert ms + after == ms;
    } else {
      var rest, d := after[..|after| - 1], after[|after| - 1];
      assert after == rest + [d];
      Regroup(ms, rest, d);
      RestartPrefix(ms + rest, d, s);
      PassedDeltas(ms, rest, s, ground);
      PassedDelta(ms + rest, d, s, ground);
    }
  }

  lemma {:induction false} RestartOfPrefix<E>(ms: seq<Message<E>>, after: seq<Message<E>>, s: Message<E>)
    requires Restart(ms + after, s)
    ensures Restart(ms, s)
  {
    if after == [] {
      assert ms + after == ms;
    } else {
      assert ms + after == (ms + after[..|after| - 1]) + [after[|after| - 1]];
      RestartPrefix(ms + after[..|after| - 1], after[|after| - 1], s);
      RestartOfPrefix(ms, after[..|after| - 1], s);
    }
  }

  /** What the restarted book rests on is settled when the newest snapshot arrives. */
  lemma RestsOnNewestIff<E>(prior: seq<Message<E>>, s: Message<E>, after: seq<Message<E>>)
    requires Restart(prior + [s] + after, s) && AllDeltas(after)
    ensures var ground := if Accepts(BookOf(Run(prior)), s) then Build(s.update) else Ground(Observe(prior), s.sequence);
            Passed(prior + [s] + after, s, ground)
  {
    RestartOfPrefix(prior + [s], after, s);
    if Accepts(BookOf(Run(prior)), s) {
      TakenPasses(prior, s);
      PassedDeltas(prior + [s], after, s, Build(s.update));
    } else {
      SkippedPasses(prior, s);
      PassedDeltas(prior + [s], after, s, Ground(Observe(prior), s.sequence));
    }
  }

  lemma DeltasOfRestart<E>(prior: seq<Message<E>>, s: Message<E>, after: seq<Message<E>>)
    requires s.Snapshot? && AllDeltas(after)
    ensures DeltasOf(prior + [s] + after) == DeltasOf(prior) + after
    ensures !NoneOfEpoch(SnapshotsOf(prior + [s] + after), s.epoch)
  {
    TopicsOfPrefix(prior + [s], after);
    DeltasOnly(after);
    TopicsExtend(prior, s, prior + [s], SnapshotsOf(prior + [s]), DeltasOf(prior + [s]));
    NoneOfEpochPush(SnapshotsOf(prior), s, s.epoch);
    assert SnapshotsOf(prior + [s]) + [] == SnapshotsOf(prior + [s]);
  }

  lemma LaterAscends<E>(replay: seq<Message<E>>, s: Message<E>)
    requires Increasing(OfEpoch(replay, s.epoch))
    ensures Ascends(s.sequence, Later(replay, s))
  {
    AboveIsSuffix(OfEpoch(replay, s.epoch), s.sequence);
  }

  /** However the two topics interleave, snapshots included: the stream rests on what the
      newest snapshot shows, and what is applied above it is exactly the replayed deltas
      above it, if and only if that snapshot is accepted or finds just its own state, and what
      is taken of the early deltas above it are the first of the replayed ones.
      `HarmlessBook` says what book that is. */
  lemma EarlyIsHarmlessIff<E>(prior: seq<Message<E>>, s: Message<E>, after: seq<Message<E>>,
                              early: seq<Message<E>>, replay: seq<Message<E>>)
    requires Restart(prior + [s] + after, s) && AllDeltas(after)
    requires DeltasOf(prior) + after == early + replay && Increasing(OfEpoch(replay, s.epoch))
    ensures Rebuilds(prior + [s] + after, s, Later(replay, s)) <==>
            Stands(prior, s) && Rising(s.sequence, Later(early, s)) <= Later(replay, s)
  {
    DeltasOfRestart(prior, s, after);
    RunTakes(prior + [s] + after, s);
    LaterSplit(early, replay, s);
    LaterAscends(replay, s);
    EarlyAreFirstIff(s.sequence, Later(early, s), Later(replay, s));
    RestsOnNewestIff(prior, s, after);
  }

  /** With no early snapshot of its connection, the newest snapshot is always accepted. */
  lemma FirstStands<E>(prior: seq<Message<E>>, s: Message<E>)
    requires s.Snapshot? && s.sequence >= 0 && NoneOfEpoch(SnapshotsOf(prior), s.epoch)
    ensures Stands(prior, s)
  {
    RunHolds(prior, s);
  }

  // ---------- the restarted book ----------

  lemma {:induction false} QuietIsWhole<E>(ms: seq<Message<E>>, epoch: int, t: int)
    requires Quiet(ms, epoch, t)
    ensures var h := Observe(ms); h.base.Some? && h.base.value.epoch == epoch ==> h.whole
  {
    if ms != [] {
      QuietIsWhole(ms[..|ms| - 1], epoch, t);
    }
  }

  lemma SplitBook<E>(base: Message<E>, applied: seq<Message<E>>, t: int)
    requires Increasing(applied) && base.sequence <= t
    ensures var c := Above(applied, base.sequence);
            ApplyAll(Build(base.update), c) == ApplyAll(StateAt(base, c, t), Above(applied, t))
  {
    var c := Above(applied, base.sequence);
    AboveIsSuffix(applied, base.sequence);
    AboveTwice(applied, base.sequence, t);
    SplitAtCut(c, t);
    ApplyAllConcat(Build(base.update), c[..Cut(c, t)], Above(c, t));
  }

  lemma SplitAtCut<E>(c: seq<Message<E>>, t: int)
    requires Increasing(c)
    ensures c == c[..Cut(c, t)] + Above(c, t)
  {
    AboveIsSuffix(c, t);
  }

  /** The book a restart ends with, when the newest snapshot is accepted or finds its own
      state: the snapshot and what is taken, in arrival order, of all deltas above it. */
  lemma RestartedBook<E>(prior: seq<Message<E>>, s: Message<E>, after: seq<Message<E>>)
    requires Restart(prior + [s] + after, s) && AllDeltas(after) && Stands(prior, s)
    requires Quiet(prior + [s] + after, s.epoch, s.sequence)
    ensures var c := Rising(s.sequence, Later(DeltasOf(prior) + after, s));
            Run(prior + [s] + after).book
            == Some(BookState(ApplyAll(Build(s.update), c), Top(s.sequence, c), s.epoch))
  {
    var ms := prior + [s] + after;
    DeltasOfRestart(prior, s, after);
    RunTakes(ms, s);
    RestsOnNewestIff(prior, s, after);
    RunConsistent(ms);
    QuietIsWhole(ms, s.epoch, s.sequence);
    var h := Observe(ms);
    SplitBook(h.base.value, h.applied, s.sequence);
    PlaceAbove(h.applied, h.base.value.sequence, s.sequence);
  }

  /** Under that condition early messages are harmless: the restarted book is the newest
      snapshot with every replayed delta above it. */
  lemma HarmlessBook<E>(prior: seq<Message<E>>, s: Message<E>, after: seq<Message<E>>,
                        early: seq<Message<E>>, replay: seq<Message<E>>)
    requires Restart(prior + [s] + after, s) && AllDeltas(after)
    requires DeltasOf(prior) + after == early + replay && Increasing(OfEpoch(replay, s.epoch))
    requires Quiet(prior + [s] + after, s.epoch, s.sequence)
    requires Stands(prior, s) && Rising(s.sequence, Later(early, s)) <= Later(replay, s)
    ensures var c := Later(replay, s);
            Run(prior + [s] + after).book
            == Some(BookState(ApplyAll(Build(s.update), c), Top(s.sequence, c), s.epoch))
  {
    LaterSplit(early, replay, s);
    LaterAscends(replay, s);
    EarlyAreFirstIff(s.sequence, Later(early, s), Later(replay, s));
    RestartedBook(prior, s, after);
  }

  /** A restart that consumes nothing early: the newest snapshot and the replay alone, in any
      interleaving. */
  ghost predicate CleanRestart<E>(before: seq<Message<E>>, s: Message<E>, behind: seq<Message<E>>, replay: seq<Message<E>>) {
    && Restart(before + [s] + behind, s) && AllDeltas(behind) && Quiet(before + [s] + behind, s.epoch, s.sequence)
    && SnapshotsOf(before) == [] && DeltasOf(before) + behind == replay
  }

  /** So it is the book of the restart that consumes nothing early. */
  lemma HarmlessIsClean<E>(prior: seq<Message<E>>, s: Message<E>, after: seq<Message<E>>, early: seq<Message<E>>,
                           replay: seq<Message<E>>, before: seq<Message<E>>, behind: seq<Message<E>>)
    requires Restart(prior + [s] + after, s) && AllDeltas(after)
    requires DeltasOf(prior) + after == early + replay && Increasing(OfEpoch(replay, s.epoch))
    requires Quiet(prior + [s] + after, s.epoch, s.sequence)
    requires Stands(prior, s) && Rising(s.sequence, Later(early, s)) <= Later(replay, s)
    requires CleanRestart(before, s, behind, replay)
    ensures Run(prior + [s] + after).book == Run(before + [s] + behind).book
  {
    HarmlessBook(prior, s, after, early, replay);
    FirstStands(before, s);
    assert [] + replay == replay;
    HarmlessBook(before, s, behind, [], replay);
  }

  // ---------- what a failed condition costs ----------

  lemma {:induction false} AboveHas<E>(ds: seq<Message<E>>, t: int, d: Message<E>)
    ensures d in Above(ds, t) <==> d in ds && d.sequence > t
  {
    if ds != [] {
      var rest, last := ds[..|ds| - 1], ds[|ds| - 1];
      assert ds == rest + [last];
      AboveHas(rest, t, d);
      AbovePush(rest, last, t);
    }
  }

  /** Two increasing lists of the same deltas are equal. */
  lemma {:induction false} SameDeltas<E>(a: seq<Message<E>>, b: seq<Message<E>>)
    requires Increasing(a) && Increasing(b) && forall d :: d in a <==> d in b
    ensures a == b
  {
    EmptyAlike(a, b);
    if a != [] {
      var x := a[|a| - 1];
      SameLast(a, b);
      var a', b' := a[..|a| - 1], b[..|b| - 1];
      assert a == a' + [x] && b == b' + [x];
      WithoutLast(a', x);
      WithoutLast(b', x);
      forall d ensures d in a' <==> d in b' {
        assert d in a <==> d in b;
      }
      SameDeltas(a', b');
    }
  }

  lemma EmptyAlike<T>(a: seq<T>, b: seq<T>)
    requires forall x :: x in a <==> x in b
    ensures a == [] <==> b == []
  {
    if a != [] {
      assert a[0] in a;
    }
    if b != [] {
      assert b[0] in b;
    }
  }

  lemma SameLast<E>(a: seq<Message<E>>, b: seq<Message<E>>)
    requires a != [] && b != [] && Increasing(a) && Increasing(b) && forall d :: d in a <==> d in b
    ensures a[|a| - 1] == b[|b| - 1]
  {
    assert a[|a| - 1] in b && b[|b| - 1] in a;
  }

  lemma WithoutLast<E>(rest: seq<Message<E>>, x: Message<E>)
    requires Increasing(rest + [x])
    ensures Increasing(rest) && forall d :: d in rest <==> d in rest + [x] && d != x
  {
    var all := rest + [x];
    assert all[|rest|] == x;
    assert forall i :: 0 <= i < |rest| ==> all[i] == rest[i] && rest[i].sequence < x.sequence;
  }

  /** What is taken of early and replayed deltas is all early or replayed. */
  lemma {:induction false} RisingHas<E>(t: int, ds: seq<Message<E>>, d: Message<E>)
    requires d in Rising(t, ds)
    ensures d in ds
  {
    var rest, last := ds[..|ds| - 1], ds[|ds| - 1];
    assert ds == rest + [last];
    if d in Rising(t, rest) {
      RisingHas(t, rest, d);
    }
  }

  lemma {:induction false} RisingAscends<E>(t: int, ds: seq<Message<E>>)
    ensures Ascends(t, Rising(t, ds))
  {
    if ds != [] {
      RisingAscends(t, ds[..|ds| - 1]);
      if ds[|ds| - 1].sequence > Top(t, Rising(t, ds[..|ds| - 1])) {
        AscendsPush(t, Rising(t, ds[..|ds| - 1]), ds[|ds| - 1]);
      }
    }
  }

  /** Where the condition fails, the stream rests on another ground than the newest snapshot,
      or some replayed delta above it is never applied, or some early delta above it is that
      the replay does not bring. */
  lemma FailureCosts<E>(prior: seq<Message<E>>, s: Message<E>, after: seq<Message<E>>,
                        early: seq<Message<E>>, replay: seq<Message<E>>)
    requires Restart(prior + [s] + after, s) && AllDeltas(after)
    requires DeltasOf(prior) + after == early + replay && Increasing(OfEpoch(replay, s.epoch))
    requires !(Stands(prior, s) && Rising(s.sequence, Later(early, s)) <= Later(replay, s))
    ensures var h := Observe(prior + [s] + after);
            || Ground(h, s.sequence) != Build(s.update)
            || (exists d :: d in Later(replay, s) && d !in h.applied)
            || (exists d :: d in Later(early, s) && d !in Later(replay, s) && d in h.applied)
  {
    var h, t, all := Observe(prior + [s] + after), s.sequence, Later(replay, s);
    EarlyIsHarmlessIff(prior, s, after, early, replay);
    DeltasOfRestart(prior, s, after);
    RunTakes(prior + [s] + after, s);
    LaterSplit(early, replay, s);
    LaterAscends(replay, s);
    AllAbove(t, all);
    RisingAscends(t, Later(early, s) + all);
    var taken := Above(h.applied, t);
    if (forall d :: d in all ==> d in h.applied) && (forall d :: d in Later(early, s) && d in h.applied ==> d in all) {
      forall d ensures d in taken <==> d in all {
        AboveHas(h.applied, t, d);
        if d in taken {
          RisingHas(t, Later(early, s) + all, d);
        }
      }
      SameDeltas(taken, all);
    }
  }

  // ---------- restarts that lose a level ----------

  const ONE: Message<real> := Delta(1, 1, BID_AT_50, STAMP)
  const IDLE: Message<real> := Delta(1, 1, NOTHING, STAMP)
  const TWO: Message<real> := Delta(1, 2, NOTHING, STAMP)
  const NEWEST: Message<real> := Snapshot(1, 3, BID_AT_50, STAMP)
  const FIVE: Message<real> := Delta(1, 5, NOTHING, STAMP)

  lemma NothingKeeps(d: Depth<real>)
    ensures Apply(d, NOTHING) == d
  {
  }

  /** A snapshot on a stream that has consumed nothing. */
  lemma FreshSnapshot(s: Message<real>)
    requires s.Snapshot? && s.sequence >= 0
    ensures Run([s]) == StreamState(Some(Reset(s)), [], Tail([], None))
  {
    assert [] + [s] == [s];
    ObservePush([], s);
    OpeningStep(Fresh(), s);
  }

  lemma OneBuffered(d: Message<real>)
    requires d.Delta?
    ensures Run([d]) == StreamState(None, [d], Tail([], None))
  {
    assert [] + [d] == [d];
    ObservePush([], d);
    BufferedDelta(Fresh(), d);
  }

  lemma DrainOne(b: BookState<real>, last: Message<real>, d: Message<real>)
    requires d.epoch == b.epoch && d.sequence > b.sequence && d.update == NOTHING
    ensures Drain(b, last, Tail([], None), [d], b.epoch).book == BookState(b.depth, d.sequence, b.epoch)
  {
    assert [d][..0] == [];
    NothingKeeps(b.depth);
  }

  /** A snapshot that finds one buffered delta of its epoch above it, with no change. */
  lemma SnapshotOverOne(d: Message<real>, s: Message<real>)
    requires s.Snapshot? && 0 <= s.sequence < d.sequence && d.Delta? && d.epoch == s.epoch && d.update == NOTHING
    ensures Run([d] + [s]).book == Some(BookState(Build(s.update), d.sequence, s.epoch))
  {
    OneBuffered(d);
    ObservePush([d], s);
    OpeningStep(Run([d]), s);
    DrainOne(Reset(s), s, d);
  }

  /** Deltas at or below a live book's place change nothing. */
  lemma SkippedRest<E>(ms: seq<Message<E>>, a: Message<E>, b: Message<E>)
    requires a.Delta? && b.Delta? && Live(Run(ms), a.epoch) && Live(Run(ms), b.epoch)
    requires !Newer(Run(ms).book.value, a) && !Newer(Run(ms).book.value, b)
    ensures Run(ms + [a, b]) == Run(ms)
  {
    assert ms + [a, b] == (ms + [a]) + [b];
    ObservePush(ms, a);
    ObservePush(ms + [a], b);
    SkippedDelta(Run(ms), a);
    SkippedDelta(Run(ms), b);
  }

  lemma CleanReplay()
    ensures var b := Run([OPENING] + [ONE, TWO]).book; b.Some? && 50.0 in b.value.depth.bids
  {
    FreshSnapshot(OPENING);
    assert [OPENING] + [ONE, TWO] == ([OPENING] + [ONE]) + [TWO];
    ObservePush([OPENING], ONE);
    ObservePush([OPENING] + [ONE], TWO);
    assert [Change(50.0, Some(1.0))][..0] == [];
    NothingKeeps(Apply(Build(NOTHING), BID_AT_50));
  }

  /** The first failure: delta 2 is consumed early, and when the replay brings delta 1, with
      its bid, the book has already passed it. */
  lemma EarlyDeltaMasks()
    ensures var clean := Run([OPENING] + [ONE, TWO]).book; clean.Some? && 50.0 in clean.value.depth.bids
    ensures var masked := Run([TWO] + [OPENING] + [ONE, TWO]).book; masked.Some? && 50.0 !in masked.value.depth.bids
  {
    CleanReplay();
    SnapshotOverOne(TWO, OPENING);
    SkippedRest([TWO] + [OPENING], ONE, TWO);
  }

  /** The condition is one on what is applied: a masked delta that carries no change does not
      show in the book. */
  lemma MaskedIdleDoesNotShow()
    ensures !(Rising(OPENING.sequence, Later([TWO], OPENING)) <= Later([IDLE, TWO], OPENING))
    ensures Run([TWO] + [OPENING] + [IDLE, TWO]).book == Run([OPENING] + [IDLE, TWO]).book
  {
    TwoIsNotFirst();
    SnapshotOverOne(TWO, OPENING);
    SkippedRest([TWO] + [OPENING], IDLE, TWO);
    IdleReplay();
  }

  lemma OneLater<E>(d: Message<E>, s: Message<E>, t: int)
    ensures Later([d], s) == if Needed(d, s) then [d] else []
    ensures Rising(t, [d]) == if d.sequence > t then [d] else []
  {
    assert [] + [d] == [d];
    LaterPush([], d, s);
    RisingPush(t, [], d);
  }

  lemma TwoLater<E>(a: Message<E>, b: Message<E>, s: Message<E>)
    requires Needed(b, s)
    ensures Later([a, b], s) == if Needed(a, s) then [a, b] else [b]
  {
    assert [a] + [b] == [a, b];
    OneLater(a, s, 0);
    LaterPush([a], b, s);
  }

  lemma NotPrefix<T>(a: T, b: T, c: T)
    requires a != b
    ensures !([a] <= [b, c])
  {
    assert [a][0] == a && [b, c][0] == b;
  }

  lemma TwoIsNotFirst()
    ensures !(Rising(OPENING.sequence, Later([TWO], OPENING)) <= Later([IDLE, TWO], OPENING))
  {
    OneLater(TWO, OPENING, OPENING.sequence);
    TwoLater(IDLE, TWO, OPENING);
    NotPrefix(TWO, IDLE, TWO);
  }

  lemma IdleReplay()
    ensures Run([OPENING] + [IDLE, TWO]).book == Some(BookState(Build(NOTHING), 2, 1))
  {
    FreshSnapshot(OPENING);
    assert [OPENING] + [IDLE, TWO] == ([OPENING] + [IDLE]) + [TWO];
    ObservePush([OPENING], IDLE);
    ObservePush([OPENING] + [IDLE], TWO);
    NothingKeeps(Build(NOTHING));
  }

  lemma CleanNewest()
    ensures var b := Run([NEWEST] + [TWO, FIVE]).book; b.Some? && 50.0 in b.value.depth.bids
  {
    FreshSnapshot(NEWEST);
    assert [NEWEST] + [TWO, FIVE] == ([NEWEST] + [TWO]) + [FIVE];
    ObservePush([NEWEST], TWO);
    SkippedDelta(Run([NEWEST]), TWO);
    ObservePush([NEWEST] + [TWO], FIVE);
    assert [Change(50.0, Some(1.0))][..0] == [];
    NothingKeeps(Build(BID_AT_50));
  }

  /** An older snapshot and delta 5, consumed early, stand past the newest snapshot. */
  lemma OlderStandsPast()
    ensures Run([OPENING, FIVE] + [NEWEST]).book == Some(BookState(Build(NOTHING), 5, 1))
  {
    FreshSnapshot(OPENING);
    assert [OPENING] + [FIVE] == [OPENING, FIVE];
    ObservePush([OPENING], FIVE);
    NothingKeeps(Build(NOTHING));
    ObservePush([OPENING, FIVE], NEWEST);
  }

  lemma FiveIsFirst()
    ensures Rising(NEWEST.sequence, Later([FIVE], NEWEST)) <= Later([TWO, FIVE], NEWEST)
  {
    OneLater(FIVE, NEWEST, NEWEST.sequence);
    TwoLater(TWO, FIVE, NEWEST);
  }

  /** The second failure: here the early deltas above the newest snapshot are the first of
      the replayed ones, but with the older snapshot they have taken the book past the
      newest one, which is skipped together with its bid. */
  lemma EarlySnapshotMasks()
    ensures Rising(NEWEST.sequence, Later([FIVE], NEWEST)) <= Later([TWO, FIVE], NEWEST)
    ensures var clean := Run([NEWEST] + [TWO, FIVE]).book; clean.Some? && 50.0 in clean.value.depth.bids
    ensures var masked := Run([OPENING, FIVE] + [NEWEST] + [TWO, FIVE]).book;
            masked.Some? && 50.0 !in masked.value.depth.bids
  {
    FiveIsFirst();
    CleanNewest();
    OlderStandsPast();
    SkippedRest([OPENING, FIVE] + [NEWEST], TWO, FIVE);
  }
}
