/** Heals over whole runs: an accepted rewind loses nothing that was applied, except
    what an underrun counts. */
module Heal {
  import opened Levels
  import opened Stream

  /** What an observer of the stream writes down: the last accepted snapshot, the
      deltas applied since the book entered its epoch, and whether the last accepted
      snapshot was rebuilt without an underrun. */
  datatype History<E> = History(base: Option<Message<E>>, applied: seq<Message<E>>, whole: bool)

  predicate Accepted<E>(m: Message<E>, r: Report<E>) {
    m.Snapshot? && r.last.Some?
  }

  /** The applied deltas that carry over into a snapshot's epoch. */
  function CarriedOver<E>(h: History<E>, epoch: int): seq<Message<E>> {
    if h.base.Some? && h.base.value.epoch == epoch then h.applied else []
  }

  function Note<E>(h: History<E>, m: Message<E>, r: Report<E>): History<E> {
    if Accepted(m, r) then History(Some(m), CarriedOver(h, m.epoch) + r.applied, !r.underrun)
    else h.(applied := h.applied + r.applied)
  }

  function Observe<E>(ms: seq<Message<E>>): History<E> {
    if ms == [] then History(None, [], true)
    else
      var before, m := ms[..|ms| - 1], ms[|ms| - 1];
      Note(Observe(before), m, Step(Run(before), m).report)
  }

  /** Snapshot sequences are non-negative and do not go down within an epoch. */
  predicate SnapshotsAscend<E>(ms: seq<Message<E>>) {
    && (forall i :: 0 <= i < |ms| && ms[i].Snapshot? ==> ms[i].sequence >= 0)
    && (forall i, j :: 0 <= i < j < |ms| && ms[i].Snapshot? && ms[j].Snapshot? && ms[i].epoch == ms[j].epoch ==>
          ms[i].sequence <= ms[j].sequence)
  }

  // ---------- the class invariant ----------

  /** The book and tail against the last accepted snapshot `s` and what was applied: the
      book is the snapshot with the deltas applied above it, the tail the newest of
      those. */
  ghost predicate Tracks<E>(b: BookState<E>, tail: Tail<E>, s: Message<E>, applied: seq<Message<E>>, whole: bool) {
    var c := Above(applied, s.sequence);
    && s.sequence >= 0
    && Increasing(applied) && OneEpoch(applied, s.epoch)
    && IsBookOf(b, s, c, whole)
    && TailOf(tail, c, s.epoch)
  }

  /** The book is the snapshot with `c` applied. */
  ghost predicate IsBookOf<E>(b: BookState<E>, s: Message<E>, c: seq<Message<E>>, whole: bool) {
    b.epoch == s.epoch && b.sequence == Top(s.sequence, c) && (whole ==> b.depth == ApplyAll(Build(s.update), c))
  }

  lemma BookPush<E>(b: BookState<E>, s: Message<E>, c: seq<Message<E>>, whole: bool, d: Message<E>)
    requires IsBookOf(b, s, c, whole)
    ensures IsBookOf(Advance(b, d), s, c + [d], whole)
  {
    ApplyPush(Build(s.update), c, d);
  }

  ghost predicate Consistent<E>(st: StreamState<E>, h: History<E>) {
    && |st.pending| <= MAX_PENDING_DELTAS
    && (h.base.None? ==> st.book.None? && st.tail == Tail([], None) && h.applied == [])
    && (h.base.Some? ==>
          var s := h.base.value;
          && st.book.Some?
          && Tracks(st.book.value, st.tail, s, h.applied, h.whole)
          && NoneOfEpoch(st.pending, s.epoch))
  }

  lemma TopIsLast<E>(applied: seq<Message<E>>, t: int)
    requires Increasing(applied)
    ensures forall i :: 0 <= i < |applied| ==> applied[i].sequence <= Top(t, Above(applied, t))
    ensures t <= Top(t, Above(applied, t))
  {
    var k := SplitAt(applied, t);
  }

  lemma AboveGrows<E>(applied: seq<Message<E>>, t: int, d: Message<E>)
    requires d.sequence > t
    ensures Above(applied + [d], t) == Above(applied, t) + [d]
  {
    AbovePush(applied, d, t);
  }

  lemma AboveEach<E>(applied: seq<Message<E>>, t: int, d: Message<E>)
    requires Increasing(applied) && d.sequence > Top(t, Above(applied, t))
    ensures d.sequence > t && forall i :: 0 <= i < |applied| ==> applied[i].sequence < d.sequence
  {
    TopIsLast(applied, t);
  }

  lemma {:induction false} TracksPush<E>(b: BookState<E>, tail: Tail<E>, s: Message<E>, applied: seq<Message<E>>, whole: bool, d: Message<E>)
    requires Tracks(b, tail, s, applied, whole) && d.epoch == s.epoch && Newer(b, d)
    ensures Tracks(Advance(b, d), Record(tail, d), s, applied + [d], whole)
  {
    var c := Above(applied, s.sequence);
    AboveEach(applied, s.sequence, d);
    IncreasingPush(applied, d, s.epoch);
    AboveMembers(applied, s.sequence, s.epoch);
    AboveGrows(applied, s.sequence, d);
    BookPush(b, s, c, whole, d);
    RecordKeepsTail(tail, c, s.epoch, d);
  }

  lemma DeltaKeeps<E>(st: StreamState<E>, h: History<E>, d: Message<E>)
    requires Consistent(st, h) && d.Delta?
    ensures var r := Step(st, d); Consistent(r.state, Note(h, d, r.report))
  {
    assert h.applied + [] == h.applied;
    if Live(st, d.epoch) && Newer(st.book.value, d) {
      TracksPush(st.book.value, st.tail, h.base.value, h.applied, h.whole, d);
    } else if h.base.Some? {
      LiveMeansNonNegative(st, h);
    }
  }

  lemma LiveMeansNonNegative<E>(st: StreamState<E>, h: History<E>)
    requires Consistent(st, h) && h.base.Some?
    ensures st.book.value.sequence >= 0
  {
    TopIsLast(h.applied, h.base.value.sequence);
  }

  lemma OpeningTracks<E>(s: Message<E>, q: seq<Message<E>>)
    requires s.sequence >= 0
    ensures var d := Drain(Reset(s), s, Tail([], None), q, s.epoch); Tracks(d.book, d.tail, s, d.applied, true)
  {
    DrainAdvances(Reset(s), s, Tail([], None), q, s.epoch);
    DrainFillsTail(Reset(s), s, q, s.epoch);
    AboveAll(Drain(Reset(s), s, Tail([], None), q, s.epoch).applied, s.sequence);
  }

  lemma OpeningKeeps<E>(st: StreamState<E>, h: History<E>, s: Message<E>)
    requires Consistent(st, h) && s.Snapshot? && s.sequence >= 0
    requires h.base.Some? ==> h.base.value.epoch != s.epoch
    ensures var r := Step(st, s); Accepted(s, r.report) && Consistent(r.state, Note(h, s, r.report))
  {
    if h.base.Some? {
      AboveMembers(h.applied, h.base.value.sequence, h.base.value.epoch);
    }
    OpeningStep(st, s);
    OpeningTracks(s, st.pending);
    DrainRetains(Reset(s), s, Tail([], None), st.pending, s.epoch);
    var d := Drain(Reset(s), s, Tail([], None), st.pending, s.epoch);
    assert [] + d.applied == d.applied;
  }

  lemma KeptIsOrdered<E>(tail: Tail<E>, applied: seq<Message<E>>, base: int, epoch: int)
    requires Increasing(applied) && OneEpoch(applied, epoch) && TailOf(tail, Above(applied, base), epoch)
    ensures Increasing(tail.kept) && OneEpoch(tail.kept, epoch)
  {
    AboveIsSuffix(applied, base);
    AboveMembers(applied, base, epoch);
  }

  lemma SkippedKeeps<E>(st: StreamState<E>, h: History<E>, s: Message<E>)
    requires Consistent(st, h) && s.Snapshot? && h.base.Some? && !Accepts(st.book.value, s)
    ensures var r := Step(st, s); Consistent(r.state, Note(h, s, r.report))
  {
    var r := Step(st, s);
    assert r.state == st && !Accepted(s, r.report) && r.report.applied == [];
    assert h.applied + [] == h.applied;
  }

  /** What the accepted snapshot's book and tail are against it. */
  lemma LaterTracks<E>(st: StreamState<E>, h: History<E>, s: Message<E>)
    requires Consistent(st, h) && s.Snapshot? && h.base.Some? && Accepts(st.book.value, s)
    requires h.base.value.epoch == s.epoch && h.base.value.sequence <= s.sequence
    ensures var r := Step(st, s);
            && r.state.book.Some? && r.state.pending == st.pending && r.report.last.Some? && r.report.applied == []
            && Tracks(r.state.book.value, r.state.tail, s, h.applied, !r.report.underrun)
  {
    var b, t := st.book.value, s.sequence;
    KeptIsOrdered(st.tail, h.applied, h.base.value.sequence, s.epoch);
    LaterStep(st, s);
    LaterTail(st.tail, h.applied, h.base.value.sequence, s.epoch, t);
    if t > b.sequence {
      ForwardLosesNothing(st, h, s);
    }
  }

  /** Past the book's own sequence there is nothing to lose. */
  lemma ForwardLosesNothing<E>(st: StreamState<E>, h: History<E>, s: Message<E>)
    requires Consistent(st, h) && h.base.Some? && s.sequence > st.book.value.sequence
    requires Increasing(st.tail.kept) && TailOf(st.tail, Above(h.applied, h.base.value.sequence), h.base.value.epoch)
    ensures Above(h.applied, s.sequence) == []
  {
    TopIsLast(h.applied, h.base.value.sequence);
    AboveNone(h.applied, s.sequence);
  }

  /** A later snapshot of the book's epoch, forward or rewinding. */
  lemma LaterKeeps<E>(st: StreamState<E>, h: History<E>, s: Message<E>)
    requires Consistent(st, h) && s.Snapshot?
    requires h.base.Some? && h.base.value.epoch == s.epoch && h.base.value.sequence <= s.sequence
    ensures var r := Step(st, s); Consistent(r.state, Note(h, s, r.report))
  {
    if Accepts(st.book.value, s) {
      LaterTracks(st, h, s);
      assert h.applied + [] == h.applied;
    } else {
      SkippedKeeps(st, h, s);
    }
  }

  lemma {:induction false} BaseIsEarlier<E>(ms: seq<Message<E>>)
    ensures var h := Observe(ms); h.base.Some? ==> h.base.value in ms && h.base.value.Snapshot?
  {
    if ms != [] {
      BaseIsEarlier(ms[..|ms| - 1]);
    }
  }

  /** Every reachable stream: the book is its last accepted snapshot followed by what was
      applied above it, the tail is the newest part of that, and both buffers respect
      their caps. */
  lemma {:induction false} RunConsistent<E>(ms: seq<Message<E>>)
    requires SnapshotsAscend(ms)
    ensures Consistent(Run(ms), Observe(ms))
  {
    if ms != [] {
      var before, m := ms[..|ms| - 1], ms[|ms| - 1];
      RunConsistent(before);
      BaseIsEarlier(before);
      var h := Observe(before);
      if m.Delta? {
        DeltaKeeps(Run(before), h, m);
      } else if h.base.Some? && h.base.value.epoch == m.epoch {
        LaterKeeps(Run(before), h, m);
      } else {
        OpeningKeeps(Run(before), h, m);
      }
    }
  }

  // ---------- the heal ----------

  /** A snapshot the book has already passed, taken because the book is crossed. */
  predicate Rewinds<E>(st: StreamState<E>, s: Message<E>) {
    && s.Snapshot? && st.book.Some?
    && s.epoch == st.book.value.epoch && s.sequence <= st.book.value.sequence
    && Crossed(st.book.value.depth)
  }

  lemma SnapshotsAscendPrefix<E>(ms: seq<Message<E>>, m: Message<E>)
    requires SnapshotsAscend(ms + [m])
    ensures SnapshotsAscend(ms)
    ensures m.Snapshot? ==> m.sequence >= 0
    ensures forall x :: x in ms && x.Snapshot? && m.Snapshot? && x.epoch == m.epoch ==> x.sequence <= m.sequence
  {
    assert forall i :: 0 <= i < |ms| ==> ms[i] == (ms + [m])[i];
    assert (ms + [m])[|ms|] == m;
  }

  /** After any run, an accepted rewind to a snapshot leaves that snapshot with every
      retained delta above it, at the place the book already stood; the underrun is
      counted exactly when a delta applied above the snapshot is no longer retained, and
      without an underrun nothing applied is lost. */
  lemma HealIsLosslessUnlessCounted<E>(ms: seq<Message<E>>, s: Message<E>)
    requires SnapshotsAscend(ms + [s]) && Rewinds(Run(ms), s)
    ensures var st, r := Run(ms), Step(Run(ms), s);
            var above, retained := Above(Observe(ms).applied, s.sequence), Above(st.tail.kept, s.sequence);
            && r.report.healed && r.report.replayed == |retained|
            && r.state.book == Some(BookState(ApplyAll(Build(s.update), retained), st.book.value.sequence, s.epoch))
            && (r.report.underrun <==> retained != above)
            && (r.report.underrun <==> exists d :: d in above && d !in st.tail.kept)
  {
    SnapshotsAscendPrefix(ms, s);
    RunConsistent(ms);
    BaseIsEarlier(ms);
    var st, h := Run(ms), Observe(ms);
    var base := h.base.value.sequence;
    KeptIsOrdered(st.tail, h.applied, base, s.epoch);
    LaterStep(st, s);
    LaterTail(st.tail, h.applied, base, s.epoch, s.sequence);
    RewindKeepsPlace(h.applied, base, s.sequence);
    MissingMeansShorter(st.tail, h.applied, base, s.epoch, s.sequence);
  }

  /** A rewind that does not pass the last applied delta ends where the book stood. */
  lemma RewindKeepsPlace<E>(applied: seq<Message<E>>, base: int, t: int)
    requires Increasing(applied) && base <= t <= Top(base, Above(applied, base))
    ensures Top(t, Above(applied, t)) == Top(base, Above(applied, base))
  {
    var k := SplitAt(applied, base);
    var l := SplitAt(applied, t);
  }

  lemma MissingMeansShorter<E>(tail: Tail<E>, applied: seq<Message<E>>, base: int, epoch: int, t: int)
    requires Increasing(applied) && TailOf(tail, Above(applied, base), epoch) && base <= t
    ensures Above(tail.kept, t) != Above(applied, t) <==> exists d :: d in Above(applied, t) && d !in tail.kept
  {
    AboveTwice(applied, base, t);
    AboveIsSuffix(applied, base);
    MissingFromTail(Above(applied, base), tail.kept, t);
  }

  lemma MissingFromTail<E>(c: seq<Message<E>>, kept: seq<Message<E>>, t: int)
    requires Increasing(c) && |kept| <= |c| && kept == c[|c| - |kept|..]
    ensures Above(kept, t) != Above(c, t) <==> exists d :: d in Above(c, t) && d !in kept
  {
    var lost := |c| - |kept|;
    assert c == c[..lost] + kept;
    ShedAreGone(c, lost);
    MissingFrom(c[..lost], kept, t);
  }

  lemma ShedAreGone<E>(c: seq<Message<E>>, lost: nat)
    requires Increasing(c) && lost <= |c|
    ensures forall i :: 0 <= i < lost ==> c[..lost][i] !in c[lost..]
  {
    forall i, j | 0 <= i < lost <= j < |c| ensures c[i] != c[j] {
    }
  }

  lemma MissingFrom<E>(shed: seq<Message<E>>, kept: seq<Message<E>>, t: int)
    requires forall i :: 0 <= i < |shed| ==> shed[i] !in kept
    ensures Above(kept, t) != Above(shed + kept, t) <==> exists d :: d in Above(shed + kept, t) && d !in kept
  {
    AboveConcat(shed, kept, t);
    AboveMembers(kept, t, 0);
    AboveMembers(shed, t, 0);
    if Above(shed, t) != [] {
      assert Above(shed + kept, t)[0] == Above(shed, t)[0];
    }
  }
}
