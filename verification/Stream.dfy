/** One (exchange, symbol) stream of the gateway, as a function.

    A stream consumes two topics with no order between them: snapshots and deltas,
    both stamped with the connection epoch.  `Step` is the reading of one message;
    the class in Aggregator.dfy is proved to take exactly this step on the stream a
    message belongs to.  The lemmas here follow the applied tail: what it retains
    for a heal, and when a heal must be counted as an underrun. */
module Stream {
  import opened Levels

  datatype Stamp = Stamp(exchangeNs: int, localNs: int)

  datatype Message<+E> =
    | Snapshot(epoch: int, sequence: int, update: Update<E>, stamp: Stamp)
    | Delta(epoch: int, sequence: int, update: Update<E>, stamp: Stamp)

  datatype BookState<E> = BookState(depth: Depth<E>, sequence: int, epoch: int)

  datatype Evicted = Evicted(epoch: int, sequence: int)

  /** The applied deltas kept for a heal, and the newest one shed to the cap. */
  datatype Tail<+E> = Tail(kept: seq<Message<E>>, evicted: Option<Evicted>)

  datatype StreamState<E> = StreamState(book: Option<BookState<E>>, pending: seq<Message<E>>, tail: Tail<E>)

  const MAX_PENDING_DELTAS: nat := 10_000
  const MAX_APPLIED_TAIL: nat := 10_000

  // ---------- the book ----------

  function NewBook<E>(): BookState<E> {
    BookState(Empty(), -1, 0)
  }

  /** A same-epoch snapshot the book has already passed is skipped, unless the book is
      crossed and the snapshot heals it. */
  predicate Accepts<E>(b: BookState<E>, s: Message<E>) {
    !(s.epoch == b.epoch && s.sequence <= b.sequence && !Crossed(b.depth))
  }

  function Reset<E>(s: Message<E>): BookState<E> {
    BookState(Build(s.update), s.sequence, s.epoch)
  }

  predicate Newer<E>(b: BookState<E>, d: Message<E>) {
    d.sequence > b.sequence
  }

  function Advance<E>(b: BookState<E>, d: Message<E>): BookState<E> {
    BookState(Apply(b.depth, d.update), d.sequence, b.epoch)
  }

  // ---------- the applied tail ----------

  /** Appends an applied delta; a full tail first sheds its older half. */
  function Record<E>(t: Tail<E>, d: Message<E>): Tail<E> {
    var half := MAX_APPLIED_TAIL / 2;
    if |t.kept| >= MAX_APPLIED_TAIL then
      var newest := t.kept[half - 1];
      Tail(t.kept[half..] + [d], Some(Evicted(newest.epoch, newest.sequence)))
    else
      Tail(t.kept + [d], t.evicted)
  }

  function Prune<E>(ds: seq<Message<E>>, epoch: int, t: int): seq<Message<E>> {
    if ds == [] then []
    else
      var d := ds[|ds| - 1];
      Prune(ds[..|ds| - 1], epoch, t) + if d.epoch == epoch && d.sequence > t then [d] else []
  }

  function PruneEvicted(e: Option<Evicted>, epoch: int, t: int): Option<Evicted> {
    if e.Some? && (e.value.epoch != epoch || e.value.sequence <= t) then None else e
  }

  predicate Underrun(e: Option<Evicted>, epoch: int, t: int) {
    e.Some? && e.value.epoch == epoch && e.value.sequence > t
  }

  datatype Replayed<E> = Replayed(book: BookState<E>, last: Message<E>, count: nat)

  /** The tail read over an accepted snapshot. */
  function Replay<E>(b: BookState<E>, last: Message<E>, ds: seq<Message<E>>, epoch: int): Replayed<E> {
    if ds == [] then Replayed(b, last, 0)
    else
      var r, d := Replay(b, last, ds[..|ds| - 1], epoch), ds[|ds| - 1];
      if d.epoch == epoch && Newer(r.book, d) then Replayed(Advance(r.book, d), d, r.count + 1) else r
  }

  // ---------- the pre-snapshot buffer ----------

  /** Appends to the buffer; a full buffer drops its oldest entry. */
  function Buffer<E>(q: seq<Message<E>>, d: Message<E>): seq<Message<E>> {
    (if |q| >= MAX_PENDING_DELTAS then q[1..] else q) + [d]
  }

  function Shed<E>(q: seq<Message<E>>): Option<Message<E>> {
    if |q| >= MAX_PENDING_DELTAS then Some(q[0]) else None
  }

  datatype Drained<E> =
    Drained(book: BookState<E>, last: Message<E>, tail: Tail<E>, retained: seq<Message<E>>, applied: seq<Message<E>>)

  /** The buffer drained, in arrival order, onto a book of the given epoch. */
  function Drain<E>(b: BookState<E>, last: Message<E>, tail: Tail<E>, q: seq<Message<E>>, epoch: int): Drained<E> {
    if q == [] then Drained(b, last, tail, [], [])
    else
      var r, d := Drain(b, last, tail, q[..|q| - 1], epoch), q[|q| - 1];
      if d.epoch != epoch then r.(retained := r.retained + [d])
      else if Newer(r.book, d) then
        Drained(Advance(r.book, d), d, Record(r.tail, d), r.retained, r.applied + [d])
      else r
  }

  // ---------- one message ----------

  /** What a step did: the message whose stamps a derived quote takes (none if the book
      did not move), the metrics it counted, the deltas it applied for the first time
      and the delta it shed from a full buffer. */
  datatype Report<+E> = Report(
    last: Option<Message<E>>, skippedStale: bool, healed: bool, replayed: nat, underrun: bool,
    applied: seq<Message<E>>, shed: Option<Message<E>>)

  datatype Outcome<E> = Outcome(state: StreamState<E>, report: Report<E>)

  function Fresh<E>(): StreamState<E> {
    StreamState(None, [], Tail([], None))
  }

  /** A delta reaches the live book only if the book has a snapshot of its epoch. */
  predicate Live<E>(st: StreamState<E>, epoch: int) {
    st.book.Some? && st.book.value.sequence >= 0 && st.book.value.epoch == epoch
  }

  function OnDelta<E>(st: StreamState<E>, d: Message<E>): Outcome<E> {
    if !Live(st, d.epoch) then
      Outcome(st.(pending := Buffer(st.pending, d)), Report(None, false, false, 0, false, [], Shed(st.pending)))
    else if Newer(st.book.value, d) then
      Outcome(st.(book := Some(Advance(st.book.value, d)), tail := Record(st.tail, d)),
              Report(Some(d), false, false, 0, false, [d], None))
    else
      Outcome(st, Report(None, false, false, 0, false, [], None))
  }

  /** The stream's book; before its first message a new one. */
  function Held<E>(st: StreamState<E>): BookState<E> {
    if st.book.Some? then st.book.value else NewBook()
  }

  function OnSnapshot<E>(st: StreamState<E>, s: Message<E>): Outcome<E> {
    var b := if st.book.Some? then st.book.value else NewBook();
    if !Accepts(b, s) then
      Outcome(st.(book := Some(b)), Report(None, true, false, 0, false, [], None))
    else
      var stale := s.epoch == b.epoch && s.sequence <= b.sequence;
      var r := Replay(Reset(s), s, st.tail.kept, s.epoch);
      var tail := Tail(Prune(st.tail.kept, s.epoch, s.sequence), PruneEvicted(st.tail.evicted, s.epoch, s.sequence));
      var underrun := stale && Underrun(st.tail.evicted, s.epoch, s.sequence);
      var d := Drain(r.book, r.last, tail, st.pending, s.epoch);
      Outcome(StreamState(Some(d.book), d.retained, d.tail),
              Report(Some(d.last), false, stale, if stale then r.count else 0, underrun, d.applied, None))
  }

  function Step<E>(st: StreamState<E>, m: Message<E>): Outcome<E> {
    if m.Delta? then OnDelta(st, m) else OnSnapshot(st, m)
  }

  function Run<E>(ms: seq<Message<E>>): StreamState<E> {
    if ms == [] then Fresh() else Step(Run(ms[..|ms| - 1]), ms[|ms| - 1]).state
  }

  // ---------- lists of deltas ----------

  predicate Increasing<E>(ds: seq<Message<E>>) {
    forall i, j :: 0 <= i < j < |ds| ==> ds[i].sequence < ds[j].sequence
  }

  predicate OneEpoch<E>(ds: seq<Message<E>>, epoch: int) {
    forall i :: 0 <= i < |ds| ==> ds[i].epoch == epoch
  }

  predicate NoneOfEpoch<E>(ds: seq<Message<E>>, epoch: int) {
    forall i :: 0 <= i < |ds| ==> ds[i].epoch != epoch
  }

  function OfEpoch<E>(ds: seq<Message<E>>, epoch: int): seq<Message<E>> {
    if ds == [] then []
    else
      var d := ds[|ds| - 1];
      OfEpoch(ds[..|ds| - 1], epoch) + if d.epoch == epoch then [d] else []
  }

  /** The deltas with a sequence above `t`. */
  function Above<E>(ds: seq<Message<E>>, t: int): seq<Message<E>> {
    if ds == [] then []
    else
      var d := ds[|ds| - 1];
      Above(ds[..|ds| - 1], t) + if d.sequence > t then [d] else []
  }

  function ApplyAll<E>(depth: Depth<E>, ds: seq<Message<E>>): Depth<E> {
    if ds == [] then depth else Apply(ApplyAll(depth, ds[..|ds| - 1]), ds[|ds| - 1].update)
  }

  /** The sequence a book stands at after `t` and then the deltas `ds`. */
  function Top<E>(t: int, ds: seq<Message<E>>): int {
    if ds == [] then t else ds[|ds| - 1].sequence
  }

  lemma AbovePush<E>(ds: seq<Message<E>>, d: Message<E>, t: int)
    ensures Above(ds + [d], t) == if d.sequence > t then Above(ds, t) + [d] else Above(ds, t)
  {
    assert (ds + [d])[..|ds|] == ds;
    assert Above(ds, t) + [] == Above(ds, t);
  }

  lemma ApplyPush<E>(depth: Depth<E>, c: seq<Message<E>>, d: Message<E>)
    ensures ApplyAll(depth, c + [d]) == Apply(ApplyAll(depth, c), d.update)
  {
    assert (c + [d])[..|c|] == c;
  }

  lemma {:induction false} OfEpochAll<E>(ds: seq<Message<E>>, epoch: int)
    requires OneEpoch(ds, epoch)
    ensures OfEpoch(ds, epoch) == ds
  {
    if ds != [] {
      OfEpochAll(ds[..|ds| - 1], epoch);
    }
  }

  lemma {:induction false} ApplyAllConcat<E>(depth: Depth<E>, a: seq<Message<E>>, b: seq<Message<E>>)
    ensures ApplyAll(depth, a + b) == ApplyAll(ApplyAll(depth, a), b)
  {
    if b == [] {
      assert a + b == a;
    } else {
      assert (a + b)[..|a + b| - 1] == a + b[..|b| - 1];
      ApplyAllConcat(depth, a, b[..|b| - 1]);
    }
  }

  lemma {:induction false} AboveConcat<E>(a: seq<Message<E>>, b: seq<Message<E>>, t: int)
    ensures Above(a + b, t) == Above(a, t) + Above(b, t)
  {
    if b == [] {
      assert a + b == a;
    } else {
      assert (a + b)[..|a + b| - 1] == a + b[..|b| - 1];
      AboveConcat(a, b[..|b| - 1], t);
    }
  }

  lemma {:induction false} AboveAll<E>(ds: seq<Message<E>>, t: int)
    requires forall i :: 0 <= i < |ds| ==> ds[i].sequence > t
    ensures Above(ds, t) == ds
  {
    if ds != [] {
      AboveAll(ds[..|ds| - 1], t);
    }
  }

  lemma {:induction false} AboveNone<E>(ds: seq<Message<E>>, t: int)
    requires forall i :: 0 <= i < |ds| ==> ds[i].sequence <= t
    ensures Above(ds, t) == []
  {
    if ds != [] {
      AboveNone(ds[..|ds| - 1], t);
    }
  }

  /** A list whose first `k` lie at or below `u`, and the rest above. */
  lemma AboveFrom<E>(ds: seq<Message<E>>, k: nat, u: int)
    requires k <= |ds|
    requires forall i :: 0 <= i < k ==> ds[i].sequence <= u
    requires forall i :: k <= i < |ds| ==> ds[i].sequence > u
    ensures Above(ds, u) == ds[k..]
  {
    assert ds == ds[..k] + ds[k..];
    AboveConcat(ds[..k], ds[k..], u);
    AboveNone(ds[..k], u);
    AboveAll(ds[k..], u);
  }

  lemma {:induction false} AboveMembers<E>(ds: seq<Message<E>>, t: int, epoch: int)
    ensures |Above(ds, t)| <= |ds|
    ensures forall i :: 0 <= i < |Above(ds, t)| ==> Above(ds, t)[i].sequence > t && Above(ds, t)[i] in ds
    ensures OneEpoch(ds, epoch) ==> OneEpoch(Above(ds, t), epoch)
  {
    if ds != [] {
      AboveMembers(ds[..|ds| - 1], t, epoch);
    }
  }

  lemma SuffixPush<T>(s: seq<T>, x: T, k: nat)
    requires k <= |s|
    ensures (s + [x])[k..] == s[k..] + [x]
  {
  }

  lemma {:induction false} SplitAt<E>(ds: seq<Message<E>>, t: int) returns (k: nat)
    requires Increasing(ds)
    ensures k <= |ds| && Above(ds, t) == ds[k..]
    ensures forall i :: 0 <= i < k ==> ds[i].sequence <= t
    ensures forall i :: k <= i < |ds| ==> ds[i].sequence > t
  {
    if ds == [] {
      k := 0;
    } else {
      var rest, d := ds[..|ds| - 1], ds[|ds| - 1];
      assert ds == rest + [d];
      if d.sequence > t {
        k := SplitAt(rest, t);
        AbovePush(rest, d, t);
        SuffixPush(rest, d, k);
      } else {
        forall i | 0 <= i < |ds| ensures ds[i].sequence <= t {
          assert i < |rest| ==> ds[i].sequence < ds[|rest|].sequence;
        }
        AboveNone(ds, t);
        k := |ds|;
      }
    }
  }

  /** In an increasing list, the deltas above `t` are a suffix. */
  lemma AboveIsSuffix<E>(ds: seq<Message<E>>, t: int)
    requires Increasing(ds)
    ensures |Above(ds, t)| <= |ds| && Above(ds, t) == ds[|ds| - |Above(ds, t)|..]
    ensures forall i :: 0 <= i < |ds| - |Above(ds, t)| ==> ds[i].sequence <= t
    ensures Ascends(t, Above(ds, t))
  {
    var k := SplitAt(ds, t);
  }

  lemma {:induction false} AboveTwice<E>(ds: seq<Message<E>>, t: int, u: int)
    requires t <= u
    ensures Above(Above(ds, t), u) == Above(ds, u)
  {
    if ds != [] {
      var rest, d := ds[..|ds| - 1], ds[|ds| - 1];
      AboveTwice(rest, t, u);
      AboveConcat(Above(rest, t), if d.sequence > t then [d] else [], u);
      assert [d][..0] == [];
    }
  }

  lemma {:induction false} PruneIsAbove<E>(ds: seq<Message<E>>, epoch: int, t: int)
    requires OneEpoch(ds, epoch)
    ensures Prune(ds, epoch, t) == Above(ds, t)
  {
    if ds != [] {
      PruneIsAbove(ds[..|ds| - 1], epoch, t);
    }
  }

  lemma {:induction false} PruneOtherEpoch<E>(ds: seq<Message<E>>, epoch: int, t: int)
    requires NoneOfEpoch(ds, epoch)
    ensures Prune(ds, epoch, t) == []
  {
    if ds != [] {
      PruneOtherEpoch(ds[..|ds| - 1], epoch, t);
    }
  }

  lemma {:induction false} ReplayOtherEpoch<E>(b: BookState<E>, last: Message<E>, ds: seq<Message<E>>, epoch: int)
    requires NoneOfEpoch(ds, epoch)
    ensures Replay(b, last, ds, epoch) == Replayed(b, last, 0)
  {
    if ds != [] {
      ReplayOtherEpoch(b, last, ds[..|ds| - 1], epoch);
    }
  }

  /** Behind an increasing list, a delta above `t` is above all of it. */
  lemma AboveTop<E>(ds: seq<Message<E>>, d: Message<E>, t: int)
    requires Increasing(ds + [d])
    ensures d.sequence > Top(t, Above(ds, t)) <==> d.sequence > t
  {
    forall i | 0 <= i < |ds| ensures ds[i].sequence < d.sequence {
      assert (ds + [d])[i] == ds[i] && (ds + [d])[|ds|] == d;
    }
    AboveMembers(ds, t, 0);
    var above := Above(ds, t);
    if above != [] {
      assert above[|above| - 1] in ds;
    }
  }

  lemma AdvanceApplies<E>(b: BookState<E>, applied: seq<Message<E>>, d: Message<E>)
    ensures Advance(BookState(ApplyAll(b.depth, applied), Top(b.sequence, applied), b.epoch), d)
            == BookState(ApplyAll(b.depth, applied + [d]), Top(b.sequence, applied + [d]), b.epoch)
  {
    assert (applied + [d])[..|applied|] == applied;
  }

  /** Replaying an increasing tail applies exactly its entries above the snapshot. */
  lemma {:induction false} ReplayApplies<E>(b: BookState<E>, last: Message<E>, ds: seq<Message<E>>, epoch: int)
    requires Increasing(ds) && OneEpoch(ds, epoch)
    ensures var r, above := Replay(b, last, ds, epoch), Above(ds, b.sequence);
            r.book == BookState(ApplyAll(b.depth, above), Top(b.sequence, above), b.epoch) && r.count == |above|
  {
    if ds != [] {
      var rest, d := ds[..|ds| - 1], ds[|ds| - 1];
      assert ds == rest + [d];
      ReplayApplies(b, last, rest, epoch);
      AbovePush(rest, d, b.sequence);
      AboveTop(rest, d, b.sequence);
      AdvanceApplies(b, Above(rest, b.sequence), d);
    }
  }

  // ---------- the message applied last ----------

  /** `last` is what brought the book where it stands. */
  predicate Brought<E>(b: BookState<E>, last: Message<E>) {
    last.sequence == b.sequence && last.epoch == b.epoch
  }

  lemma {:induction false} ReplayLast<E>(b: BookState<E>, last: Message<E>, ds: seq<Message<E>>, epoch: int)
    requires Brought(b, last) && b.epoch == epoch
    ensures var r := Replay(b, last, ds, epoch);
            Brought(r.book, r.last) && r.book.epoch == epoch && (r.last == last || r.last in ds)
  {
    if ds != [] {
      ReplayLast(b, last, ds[..|ds| - 1], epoch);
    }
  }

  lemma {:induction false} DrainLast<E>(b: BookState<E>, last: Message<E>, tail: Tail<E>, q: seq<Message<E>>, epoch: int)
    requires Brought(b, last) && b.epoch == epoch
    ensures var r := Drain(b, last, tail, q, epoch);
            && Brought(r.book, r.last) && r.book.epoch == epoch && (r.last == last || r.last in q)
            && r.last == if r.applied == [] then last else r.applied[|r.applied| - 1]
  {
    if q != [] {
      DrainLast(b, last, tail, q[..|q| - 1], epoch);
    }
  }

  /** A step that moves nothing leaves the book; any other names the message that brought the
      book to its sequence: the one at hand, or one it read back from the tail or the buffer. */
  lemma StepLast<E>(st: StreamState<E>, m: Message<E>)
    ensures var r, last := Step(st, m), Step(st, m).report.last;
            && (last.None? ==> r.state.book == st.book || (st.book.None? && r.state.book == Some(NewBook())))
            && (last.Some? ==>
                  && r.state.book.Some? && r.state.book.value.epoch == m.epoch && Brought(r.state.book.value, last.value)
                  && (last.value == m || (m.Snapshot? && (last.value in st.tail.kept || last.value in st.pending))))
  {
    if m.Snapshot? {
      if Accepts(Held(st), m) {
        ReplayLast(Reset(m), m, st.tail.kept, m.epoch);
        var r := Replay(Reset(m), m, st.tail.kept, m.epoch);
        var tail := Tail(Prune(st.tail.kept, m.epoch, m.sequence), PruneEvicted(st.tail.evicted, m.epoch, m.sequence));
        DrainLast(r.book, r.last, tail, st.pending, m.epoch);
      }
    }
  }

  /** A snapshot is stale when the book, of its epoch, has reached its sequence. */
  predicate IsStale<E>(st: StreamState<E>, m: Message<E>) {
    m.Snapshot? && m.epoch == Held(st).epoch && m.sequence <= Held(st).sequence
  }

  /** A stale snapshot heals a crossed book and is counted as skipped by any other. What moves
      the book is every other snapshot, and the deltas above a live one. */
  lemma StepMarks<E>(st: StreamState<E>, m: Message<E>)
    ensures var r := Step(st, m).report;
            && (r.skippedStale <==> IsStale(st, m) && !Crossed(Held(st).depth))
            && (r.healed <==> IsStale(st, m) && Crossed(Held(st).depth))
            && (m.Snapshot? ==> (r.last.Some? <==> !r.skippedStale))
            && (m.Delta? ==> (r.last.Some? <==> Live(st, m.epoch) && m.sequence > Held(st).sequence))
  {
  }

  // ---------- draining ----------

  lemma {:induction false} DrainOtherEpoch<E>(b: BookState<E>, last: Message<E>, tail: Tail<E>, q: seq<Message<E>>, epoch: int)
    requires NoneOfEpoch(q, epoch)
    ensures Drain(b, last, tail, q, epoch) == Drained(b, last, tail, q, [])
  {
    if q != [] {
      DrainOtherEpoch(b, last, tail, q[..|q| - 1], epoch);
    }
  }

  /** Whatever the arrival order, what a drain applies is an increasing run of deltas
      above the book. */
  lemma {:induction false} DrainAdvances<E>(b: BookState<E>, last: Message<E>, tail: Tail<E>, q: seq<Message<E>>, epoch: int)
    ensures var r := Drain(b, last, tail, q, epoch);
            r.book == BookState(ApplyAll(b.depth, r.applied), Top(b.sequence, r.applied), b.epoch)
    ensures Ascends(b.sequence, Drain(b, last, tail, q, epoch).applied)
    ensures OneEpoch(Drain(b, last, tail, q, epoch).applied, epoch)
  {
    if q != [] {
      var r, d := Drain(b, last, tail, q[..|q| - 1], epoch), q[|q| - 1];
      DrainAdvances(b, last, tail, q[..|q| - 1], epoch);
      if d.epoch == epoch && Newer(r.book, d) {
        AdvanceApplies(b, r.applied, d);
        AscendsPush(b.sequence, r.applied, d);
        OneEpochPush(r.applied, d, epoch);
      }
    }
  }

  lemma OneEpochPush<E>(ds: seq<Message<E>>, d: Message<E>, epoch: int)
    requires OneEpoch(ds, epoch) && d.epoch == epoch
    ensures OneEpoch(ds + [d], epoch)
  {
  }

  /** Deltas above `t`, each above the one before. */
  predicate Ascends<E>(t: int, ds: seq<Message<E>>) {
    Increasing(ds) && (ds != [] ==> ds[0].sequence > t)
  }

  lemma AllAbove<E>(t: int, ds: seq<Message<E>>)
    requires Ascends(t, ds)
    ensures forall i :: 0 <= i < |ds| ==> ds[i].sequence > t
  {
    forall i | 0 <= i < |ds| ensures ds[i].sequence > t {
      if i > 0 {
        assert ds[0].sequence < ds[i].sequence;
      }
    }
  }

  lemma IncreasingPush<E>(ds: seq<Message<E>>, d: Message<E>, epoch: int)
    requires Increasing(ds) && forall i :: 0 <= i < |ds| ==> ds[i].sequence < d.sequence
    ensures Increasing(ds + [d])
    ensures OneEpoch(ds, epoch) && d.epoch == epoch ==> OneEpoch(ds + [d], epoch)
  {
  }

  lemma AscendsPush<E>(t: int, ds: seq<Message<E>>, d: Message<E>)
    requires Ascends(t, ds) && d.sequence > Top(t, ds)
    ensures Ascends(t, ds + [d])
  {
  }

  /** Other epochs stay buffered. */
  lemma {:induction false} DrainRetains<E>(b: BookState<E>, last: Message<E>, tail: Tail<E>, q: seq<Message<E>>, epoch: int)
    ensures var r := Drain(b, last, tail, q, epoch); NoneOfEpoch(r.retained, epoch) && |r.retained| <= |q|
  {
    if q != [] {
      DrainRetains(b, last, tail, q[..|q| - 1], epoch);
    }
  }

  // ---------- the tail against what was applied ----------

  /** `tail` against `c`, the deltas applied above the last accepted snapshot: the
      kept entries are the newest of them, and the eviction mark names the newest
      one no longer kept. */
  ghost predicate TailOf<E>(tail: Tail<E>, c: seq<Message<E>>, epoch: int) {
    var lost := |c| - |tail.kept|;
    && 0 <= lost && tail.kept == c[lost..]
    && |tail.kept| <= MAX_APPLIED_TAIL
    && (lost > 0 ==> |tail.kept| > 0)
    && tail.evicted == if lost == 0 then None else Some(Evicted(epoch, c[lost - 1].sequence))
  }

  lemma RecordKeepsTail<E>(tail: Tail<E>, c: seq<Message<E>>, epoch: int, d: Message<E>)
    requires TailOf(tail, c, epoch) && OneEpoch(c, epoch)
    ensures TailOf(Record(tail, d), c + [d], epoch)
  {
    var lost, half := |c| - |tail.kept|, MAX_APPLIED_TAIL / 2;
    if |tail.kept| >= MAX_APPLIED_TAIL {
      assert tail.kept[half - 1] == c[lost + half - 1];
      assert Record(tail, d).kept == (c + [d])[lost + half..];
    } else {
      assert Record(tail, d).kept == (c + [d])[lost..];
    }
  }

  lemma RecordBehind<E>(tail: Tail<E>, c: seq<Message<E>>, applied: seq<Message<E>>, epoch: int, d: Message<E>)
    requires TailOf(tail, c + applied, epoch) && OneEpoch(c + applied, epoch) && d.epoch == epoch
    ensures TailOf(Record(tail, d), c + (applied + [d]), epoch) && OneEpoch(c + (applied + [d]), epoch)
  {
    RecordKeepsTail(tail, c + applied, epoch, d);
    OneEpochPush(c + applied, d, epoch);
    assert c + (applied + [d]) == (c + applied) + [d];
  }

  /** What a drain applies is recorded behind what the tail already stood for. */
  lemma {:induction false} DrainKeepsTail<E>(b: BookState<E>, last: Message<E>, tail: Tail<E>, q: seq<Message<E>>, epoch: int,
                                             c: seq<Message<E>>)
    requires TailOf(tail, c, epoch) && OneEpoch(c, epoch)
    ensures var r := Drain(b, last, tail, q, epoch);
            TailOf(r.tail, c + r.applied, epoch) && OneEpoch(c + r.applied, epoch)
  {
    if q == [] {
      assert c + [] == c;
    } else {
      var r, d := Drain(b, last, tail, q[..|q| - 1], epoch), q[|q| - 1];
      DrainKeepsTail(b, last, tail, q[..|q| - 1], epoch, c);
      if d.epoch == epoch && Newer(r.book, d) {
        RecordBehind(r.tail, c, r.applied, epoch, d);
      }
    }
  }

  lemma DrainFillsTail<E>(b: BookState<E>, last: Message<E>, q: seq<Message<E>>, epoch: int)
    ensures var r := Drain(b, last, Tail([], None), q, epoch); TailOf(r.tail, r.applied, epoch)
  {
    DrainKeepsTail(b, last, Tail([], None), q, epoch, []);
    var r := Drain(b, last, Tail([], None), q, epoch);
    assert [] + r.applied == r.applied;
  }

  /** Everything shed lies at or below `t`: nothing above it is lost. */
  lemma ShedBelow<E>(shed: seq<Message<E>>, kept: seq<Message<E>>, epoch: int, t: int)
    requires forall i :: 0 <= i < |shed| ==> shed[i].sequence <= t
    ensures Above(shed + kept, t) == Above(kept, t) && |Above(kept, t)| <= |kept|
  {
    AboveConcat(shed, kept, t);
    AboveNone(shed, t);
    AboveMembers(kept, t, epoch);
    assert [] + Above(kept, t) == Above(kept, t);
  }

  lemma KeptAbove<E>(shed: seq<Message<E>>, kept: seq<Message<E>>, t: int)
    requires Increasing(shed + kept) && shed != [] && shed[|shed| - 1].sequence > t
    ensures forall i :: 0 <= i < |kept| ==> kept[i].sequence > t
  {
    var c := shed + kept;
    forall i | 0 <= i < |kept| ensures kept[i].sequence > t {
      assert c[|shed| - 1] == shed[|shed| - 1] && c[|shed| + i] == kept[i];
    }
  }

  lemma LastAbove<E>(ds: seq<Message<E>>, t: int)
    requires ds != [] && ds[|ds| - 1].sequence > t
    ensures Above(ds, t) != [] && Above(ds, t)[|Above(ds, t)| - 1] == ds[|ds| - 1]
  {
  }

  /** The last one shed lies above `t`: so does everything kept, and it is still the newest
      one missing. */
  lemma ShedAbove<E>(shed: seq<Message<E>>, kept: seq<Message<E>>, t: int)
    requires Increasing(shed + kept) && shed != [] && shed[|shed| - 1].sequence > t
    ensures Above(kept, t) == kept && Above(shed + kept, t) == Above(shed, t) + kept
    ensures Above(shed, t) != [] && Above(shed, t)[|Above(shed, t)| - 1] == shed[|shed| - 1]
  {
    KeptAbove(shed, kept, t);
    AboveAll(kept, t);
    AboveConcat(shed, kept, t);
    LastAbove(shed, t);
  }

  /** Pruning to `t` keeps the relation, and the eviction mark says exactly whether a
      delta applied above `t` is missing from the tail. */
  lemma PruneKeepsTail<E>(tail: Tail<E>, c: seq<Message<E>>, epoch: int, t: int)
    requires TailOf(tail, c, epoch) && OneEpoch(c, epoch) && Increasing(c)
    ensures TailOf(Tail(Above(tail.kept, t), PruneEvicted(tail.evicted, epoch, t)), Above(c, t), epoch)
    ensures Underrun(tail.evicted, epoch, t) <==> Above(tail.kept, t) != Above(c, t)
  {
    var lost := |c| - |tail.kept|;
    var shed := c[..lost];
    assert c == shed + tail.kept;
    if lost == 0 || c[lost - 1].sequence <= t {
      ShedBelow(shed, tail.kept, epoch, t);
    } else {
      ShedAbove(shed, tail.kept, t);
    }
  }

  // ---------- accepted snapshots ----------

  /** A snapshot of another epoch resets everything the tail held. */
  lemma OpeningStep<E>(st: StreamState<E>, s: Message<E>)
    requires s.Snapshot? && s.sequence >= 0
    requires st.book.None? ==> st.tail == Tail([], None)
    requires st.book.Some? ==> st.book.value.epoch != s.epoch && NoneOfEpoch(st.tail.kept, s.epoch)
    requires st.tail.evicted.Some? ==> st.tail.evicted.value.epoch != s.epoch
    ensures var r, d := Step(st, s), Drain(Reset(s), s, Tail([], None), st.pending, s.epoch);
            && r.state == StreamState(Some(d.book), d.retained, d.tail)
            && r.report == Report(Some(d.last), false, false, 0, false, d.applied, None)
  {
    ReplayOtherEpoch(Reset(s), s, st.tail.kept, s.epoch);
    PruneOtherEpoch(st.tail.kept, s.epoch, s.sequence);
  }

  /** What an accepted snapshot of the book's own epoch does: the retained deltas above it
      are read back, and nothing is drained. */
  lemma LaterStep<E>(st: StreamState<E>, s: Message<E>)
    requires s.Snapshot? && st.book.Some? && st.book.value.epoch == s.epoch && Accepts(st.book.value, s)
    requires Increasing(st.tail.kept) && OneEpoch(st.tail.kept, s.epoch) && NoneOfEpoch(st.pending, s.epoch)
    ensures var r, t := Step(st, s), s.sequence;
            var retained, stale := Above(st.tail.kept, t), t <= st.book.value.sequence;
            && r.state.book == Some(BookState(ApplyAll(Build(s.update), retained), Top(t, retained), s.epoch))
            && r.state.pending == st.pending
            && r.state.tail == Tail(retained, PruneEvicted(st.tail.evicted, s.epoch, t))
            && r.report.last.Some? && r.report.applied == [] && r.report.healed == stale
            && r.report.underrun == (stale && Underrun(st.tail.evicted, s.epoch, t))
            && (stale ==> r.report.replayed == |retained|)
  {
    var kept := st.tail.kept;
    PruneIsAbove(kept, s.epoch, s.sequence);
    ReplayApplies(Reset(s), s, kept, s.epoch);
    var rp := Replay(Reset(s), s, kept, s.epoch);
    var tail := Tail(Prune(kept, s.epoch, s.sequence), PruneEvicted(st.tail.evicted, s.epoch, s.sequence));
    DrainOtherEpoch(rp.book, rp.last, tail, st.pending, s.epoch);
  }

  lemma LaterTail<E>(tail: Tail<E>, applied: seq<Message<E>>, base: int, epoch: int, t: int)
    requires Increasing(applied) && OneEpoch(applied, epoch) && base <= t
    requires TailOf(tail, Above(applied, base), epoch)
    ensures TailOf(Tail(Above(tail.kept, t), PruneEvicted(tail.evicted, epoch, t)), Above(applied, t), epoch)
    ensures Underrun(tail.evicted, epoch, t) <==> Above(tail.kept, t) != Above(applied, t)
    ensures Top(t, Above(tail.kept, t)) == Top(t, Above(applied, t))
  {
    AboveIsSuffix(applied, base);
    AboveMembers(applied, base, epoch);
    AboveTwice(applied, base, t);
    PruneKeepsTail(tail, Above(applied, base), epoch, t);
  }
}
