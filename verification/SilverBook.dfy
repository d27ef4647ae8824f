/** The offline fold and the gateway rebuild the same book. */
module SilverBook {
  import opened Levels
  import opened Stream
  import C = Convergence
  import opened OrderBook
  import opened FoldOrder
  import opened Venue
  import J = Journal
  import DS = DepthSync
  import K = Kraken

  function Msgs(rs: seq<Rec>): (ms: seq<Message<real>>)
    ensures |ms| == |rs|
  {
    if rs == [] then [] else Msgs(rs[..|rs| - 1]) + [rs[|rs| - 1].msg]
  }

  lemma MsgsPush(rs: seq<Rec>, r: Rec)
    ensures Msgs(rs + [r]) == Msgs(rs) + [r.msg]
  {
    assert (rs + [r])[..|rs|] == rs;
  }

  /** No record from the `from`-th up to the `end`-th broke a book invariant. */
  predicate Unbroken(events: seq<BookEvent>, from: nat, end: nat) {
    forall i :: from <= i <= end && i < |events| ==> events[i].violation.None?
  }

  /** The deltas of a topic that the connection opened by `s0` adds to it. */
  function LaterOf(rs: seq<Rec>, s0: Message<real>): seq<Message<real>> {
    C.Later(Msgs(OfKind(rs, false)), s0)
  }

  lemma LaterPush(rs: seq<Rec>, r: Rec, s0: Message<real>)
    ensures LaterOf(rs + [r], s0)
            == if r.msg.Delta? && r.msg.epoch == s0.epoch && r.msg.sequence > s0.sequence then LaterOf(rs, s0) + [r.msg] else LaterOf(rs, s0)
  {
    var ds := OfKind(rs, false);
    OfKindPush(rs, r, false);
    if r.msg.Delta? {
      MsgsPush(ds, r);
      C.OfEpochPush(Msgs(ds), r.msg, s0.epoch);
      AbovePush(OfEpoch(Msgs(ds), s0.epoch), r.msg, s0.sequence);
      assert OfEpoch(Msgs(ds), s0.epoch) + [] == OfEpoch(Msgs(ds), s0.epoch);
      assert LaterOf(rs, s0) + [] == LaterOf(rs, s0);
    }
  }

  /** Once the opening snapshot is folded: the book shows the published state at its
      sequence, which is the last record's; `ds` are the deltas the topic holds, `c` those
      folded. */
  ghost predicate Shows(b: BookState<real>, s0: Message<real>, ds: seq<Message<real>>, c: seq<Message<real>>) {
    && b.epoch == s0.epoch && b.sequence >= s0.sequence && c <= ds
    && b.depth == C.StateAt(s0, ds, b.sequence)
    && (c != [] ==> c[|c| - 1].sequence <= b.sequence)
    && (|c| < |ds| ==> ds[|c|].sequence >= b.sequence)
  }

  predicate Opened(s0: Message<real>, ds: seq<Message<real>>) {
    s0.Snapshot? && s0.sequence >= 0 && Increasing(ds) && (ds != [] ==> ds[0].sequence > s0.sequence)
  }

  lemma DeltaShows(b: BookState<real>, s0: Message<real>, ds: seq<Message<real>>, c: seq<Message<real>>, d: Message<real>)
    requires Opened(s0, ds) && Shows(b, s0, ds, c)
    requires d.Delta? && d.epoch == s0.epoch && d.sequence >= b.sequence && d.sequence > s0.sequence
    requires c + [d] <= ds && Broken(b, d).None?
    ensures Shows(Folded(b, d), s0, ds, c + [d])
    ensures Folded(b, d).sequence == d.sequence
  {
    var k := |c|;
    assert ds[k] == (c + [d])[k];
    assert k > 0 ==> ds[k - 1] == (c + [d])[k - 1];
    C.NextDelta(ds, k);
    if d.sequence > b.sequence {
      C.StateStep(s0, ds, k, b.sequence);
    }
  }

  lemma BaseDeltaShows(b: BookState<real>, s0: Message<real>, ds: seq<Message<real>>, c: seq<Message<real>>, d: Message<real>)
    requires Shows(b, s0, ds, c) && d.Delta? && d.sequence == s0.sequence && d.sequence >= b.sequence
    ensures Folded(b, d) == b && b.sequence == d.sequence
  {
  }

  lemma SnapshotShows(b: BookState<real>, s0: Message<real>, ds: seq<Message<real>>, c: seq<Message<real>>, s: Message<real>)
    requires c <= ds && (c != [] ==> c[|c| - 1].sequence <= s.sequence)
    requires |c| < |ds| ==> ds[|c|].sequence >= s.sequence
    requires s.Snapshot? && s.epoch == s0.epoch && s.sequence >= s0.sequence && b.epoch == s0.epoch
    requires Build(s.update) == C.StateAt(s0, ds, s.sequence) && Broken(b, s).None?
    ensures Shows(Folded(b, s), s0, ds, c) && Folded(b, s).sequence == s.sequence
  {
  }

  /** One more record in key order. */
  lemma RecShows(b: BookState<real>, s0: Message<real>, ds: seq<Message<real>>, c: seq<Message<real>>, next: seq<Message<real>>, m: Message<real>)
    requires Opened(s0, ds) && Shows(b, s0, ds, c) && m.epoch == s0.epoch && m.sequence >= b.sequence && Broken(b, m).None?
    requires next == if m.Delta? && m.sequence > s0.sequence then c + [m] else c
    requires next <= ds && (|next| < |ds| ==> ds[|next|].sequence >= m.sequence)
    requires m.Snapshot? ==> Build(m.update) == C.StateAt(s0, ds, m.sequence)
    ensures Shows(Folded(b, m), s0, ds, next) && Folded(b, m).sequence == m.sequence
  {
    if m.Snapshot? {
      SnapshotShows(b, s0, ds, c, m);
    } else if m.sequence > s0.sequence {
      DeltaShows(b, s0, ds, c, m);
    } else {
      BaseDeltaShows(b, s0, ds, c, m);
    }
  }

  // ---------- what lies ahead in key order ----------

  lemma {:induction false} LaterIndex(rs: seq<Rec>, s0: Message<real>, m: Message<real>) returns (i: nat)
    requires m in LaterOf(rs, s0)
    ensures i < |rs| && rs[i].msg == m && m.Delta? && m.epoch == s0.epoch && m.sequence > s0.sequence
  {
    var rest, r := rs[..|rs| - 1], rs[|rs| - 1];
    assert rs == rest + [r];
    LaterPush(rest, r, s0);
    if m in LaterOf(rest, s0) {
      i := LaterIndex(rest, s0, m);
    } else {
      i := |rest|;
    }
  }

  lemma Regroup<T>(a: seq<T>, b: seq<T>, x: T)
    ensures a + (b + [x]) == (a + b) + [x]
  {
  }

  lemma {:induction false} LaterSplits(a: seq<Rec>, b: seq<Rec>, s0: Message<real>)
    ensures LaterOf(a + b, s0) == LaterOf(a, s0) + LaterOf(b, s0)
  {
    if b == [] {
      assert a + b == a;
      assert LaterOf(b, s0) == [];
    } else {
      var rest, r := b[..|b| - 1], b[|b| - 1];
      assert b == rest + [r];
      Regroup(a, rest, r);
      LaterSplits(a, rest, s0);
      LaterPush(a + rest, r, s0);
      LaterPush(rest, r, s0);
      Regroup(LaterOf(a, s0), LaterOf(rest, s0), r.msg);
    }
  }

  /** The next delta of the connection lies at or after the record just folded. */
  lemma NextIsAhead(rs: seq<Rec>, i: nat, s0: Message<real>)
    requires i < |rs| && KeySorted(rs) && rs[i].msg.epoch == s0.epoch
    ensures LaterOf(rs[..i + 1], s0) <= LaterOf(rs, s0)
    ensures var c, ds := LaterOf(rs[..i + 1], s0), LaterOf(rs, s0);
            |c| < |ds| ==> ds[|c|].sequence >= rs[i].msg.sequence
  {
    var a, b := rs[..i + 1], rs[i + 1..];
    assert rs == a + b;
    LaterSplits(a, b, s0);
    var c, ds := LaterOf(a, s0), LaterOf(rs, s0);
    if |c| < |ds| {
      var j := LaterIndex(b, s0, LaterOf(b, s0)[0]);
      assert rs[i + 1 + j] == b[j];
      NotAhead(rs, i, i + 1 + j);
    }
  }

  // ---------- the run ----------

  /** In key order the whole log is folded, and every snapshot of the epoch at or after
      `s0` shows the published state. */
  ghost predicate Published(rs: seq<Rec>, at: nat, contiguous: bool) {
    && at < |rs| && KeySorted(rs) && rs[at].msg.Snapshot?
    && !Fold(rs, contiguous).raised
    && Opened(rs[at].msg, LaterOf(rs, rs[at].msg))
    && (forall i :: at <= i < |rs| ==> rs[i].msg.epoch == rs[at].msg.epoch)
    && (forall i :: at <= i < |rs| && rs[i].msg.Snapshot? ==>
          Build(rs[i].msg.update) == C.StateAt(rs[at].msg, LaterOf(rs, rs[at].msg), rs[i].msg.sequence))
  }

  /** The records from `from`, a snapshot, up to `end` broke no invariant. */
  ghost predicate CleanFrom(rs: seq<Rec>, from: nat, end: nat, contiguous: bool) {
    && from <= end < |rs| && rs[from].msg.Snapshot?
    && Unbroken(Fold(rs, contiguous).events, from, end)
  }

  lemma {:induction false} FoldPrefix(rs: seq<Rec>, i: nat, contiguous: bool)
    requires i <= |rs| && !Fold(rs, contiguous).raised
    ensures !Fold(rs[..i], contiguous).raised
    ensures |Fold(rs[..i], contiguous).events| == i
    ensures Fold(rs[..i], contiguous).events <= Fold(rs, contiguous).events
    decreases |rs|
  {
    if i < |rs| {
      assert rs[..|rs| - 1][..i] == rs[..i];
      FoldPrefix(rs[..|rs| - 1], i, contiguous);
    } else {
      assert rs[..i] == rs;
      if i > 0 {
        FoldPrefix(rs[..|rs| - 1], i - 1, contiguous);
        assert rs[..|rs| - 1][..i - 1] == rs[..|rs| - 1];
      }
    }
  }

  /** One record of a log folded without error. */
  lemma FoldAt(rs: seq<Rec>, i: nat, contiguous: bool)
    requires i < |rs| && !Fold(rs, contiguous).raised
    ensures var f, r := Fold(rs[..i], contiguous), rs[i];
            && Fold(rs[..i + 1], contiguous) == FoldRec(f, r, contiguous)
            && i < |Fold(rs, contiguous).events|
            && Fold(rs, contiguous).events[i].rec == r
            && Fold(rs, contiguous).events[i].violation == Broken(BookFor(f.book, r.msg.epoch), r.msg)
  {
    FoldPrefix(rs, i, contiguous);
    FoldPrefix(rs, i + 1, contiguous);
    assert rs[..i + 1][..i] == rs[..i];
  }

  lemma UnbrokenAt(rs: seq<Rec>, from: nat, end: nat, i: nat, contiguous: bool)
    requires !Fold(rs, contiguous).raised && CleanFrom(rs, from, end, contiguous) && from <= i <= end
    ensures var f, r := Fold(rs[..i], contiguous), rs[i];
            var b := BookFor(f.book, r.msg.epoch);
            && Broken(b, r.msg).None?
            && Fold(rs[..i + 1], contiguous).book == Some(Folded(b, r.msg))
  {
    FoldAt(rs, i, contiguous);
    assert Fold(rs, contiguous).events[i].violation.None?;
  }

  ghost predicate ShownAt(rs: seq<Rec>, at: nat, i: nat, contiguous: bool)
    requires at < |rs| && at <= i < |rs|
  {
    var s0, f := rs[at].msg, Fold(rs[..i + 1], contiguous);
    && f.book.Some? && f.book.value.sequence == rs[i].msg.sequence
    && Shows(f.book.value, s0, LaterOf(rs, s0), LaterOf(rs[..i + 1], s0))
  }

  /** Whatever the book was, an accepted snapshot makes it the published state. */
  lemma SnapshotResyncs(rs: seq<Rec>, at: nat, from: nat, end: nat, contiguous: bool)
    requires Published(rs, at, contiguous) && at <= from && CleanFrom(rs, from, end, contiguous)
    ensures ShownAt(rs, at, from, contiguous)
  {
    var s0, s := rs[at].msg, rs[from].msg;
    var b := BookFor(Fold(rs[..from], contiguous).book, s.epoch);
    UnbrokenAt(rs, from, end, from, contiguous);
    NextIsAhead(rs, from, s0);
    FoldedLieBehind(rs, from, s0);
    NotAhead(rs, at, from);
    SnapshotShows(b, s0, LaterOf(rs, s0), LaterOf(rs[..from + 1], s0), s);
  }

  /** The connection's deltas met so far lie at or below the record just folded. */
  lemma FoldedLieBehind(rs: seq<Rec>, i: nat, s0: Message<real>)
    requires i < |rs| && KeySorted(rs) && rs[i].msg.epoch == s0.epoch
    ensures var c := LaterOf(rs[..i + 1], s0); c != [] ==> c[|c| - 1].sequence <= rs[i].msg.sequence
  {
    var c := LaterOf(rs[..i + 1], s0);
    if c != [] {
      var j := LaterIndex(rs[..i + 1], s0, c[|c| - 1]);
      NotAhead(rs, j, i);
    }
  }

  lemma LaterGrows(rs: seq<Rec>, s0: Message<real>, i: nat)
    requires i + 1 < |rs|
    ensures var c, m := LaterOf(rs[..i + 1], s0), rs[i + 1].msg;
            LaterOf(rs[..i + 2], s0) == if m.Delta? && m.epoch == s0.epoch && m.sequence > s0.sequence then c + [m] else c
  {
    assert rs[..i + 2] == rs[..i + 1] + [rs[i + 1]];
    LaterPush(rs[..i + 1], rs[i + 1], s0);
  }

  lemma PublishedAt(rs: seq<Rec>, at: nat, i: nat, contiguous: bool)
    requires Published(rs, at, contiguous) && at <= i && i + 1 < |rs|
    ensures var s0, m := rs[at].msg, rs[i + 1].msg;
            && Opened(s0, LaterOf(rs, s0)) && m.epoch == s0.epoch && m.sequence >= rs[i].msg.sequence
            && (m.Snapshot? ==> Build(m.update) == C.StateAt(s0, LaterOf(rs, s0), m.sequence))
  {
    NotAhead(rs, i, i + 1);
  }

  lemma NextShows(rs: seq<Rec>, s0: Message<real>, i: nat, b: BookState<real>)
    requires KeySorted(rs) && i + 1 < |rs| && Opened(s0, LaterOf(rs, s0)) && rs[i + 1].msg.epoch == s0.epoch
    requires Shows(b, s0, LaterOf(rs, s0), LaterOf(rs[..i + 1], s0))
    requires rs[i + 1].msg.sequence >= b.sequence && Broken(b, rs[i + 1].msg).None?
    requires rs[i + 1].msg.Snapshot? ==>
               Build(rs[i + 1].msg.update) == C.StateAt(s0, LaterOf(rs, s0), rs[i + 1].msg.sequence)
    ensures var b' := Folded(b, rs[i + 1].msg);
            && Shows(b', s0, LaterOf(rs, s0), LaterOf(rs[..i + 2], s0)) && b'.sequence == rs[i + 1].msg.sequence
  {
    NextIsAhead(rs, i + 1, s0);
    LaterGrows(rs, s0, i);
    RecShows(b, s0, LaterOf(rs, s0), LaterOf(rs[..i + 1], s0), LaterOf(rs[..i + 2], s0), rs[i + 1].msg);
  }

  lemma StaysShown(rs: seq<Rec>, at: nat, from: nat, end: nat, i: nat, contiguous: bool)
    requires Published(rs, at, contiguous) && at <= from <= i < end && CleanFrom(rs, from, end, contiguous)
    requires ShownAt(rs, at, i, contiguous)
    ensures ShownAt(rs, at, i + 1, contiguous)
  {
    PublishedAt(rs, at, i, contiguous);
    UnbrokenAt(rs, from, end, i + 1, contiguous);
    NextShows(rs, rs[at].msg, i, Fold(rs[..i + 1], contiguous).book.value);
  }

  /** From an accepted snapshot of the connection on, and until an invariant breaks, the book
      is the published state at every record, whatever broke before. */
  lemma {:induction false} ShownFromSnapshot(rs: seq<Rec>, at: nat, from: nat, end: nat, i: nat, contiguous: bool)
    requires Published(rs, at, contiguous) && at <= from <= i <= end && CleanFrom(rs, from, end, contiguous)
    ensures ShownAt(rs, at, i, contiguous)
  {
    if i == from {
      SnapshotResyncs(rs, at, from, end, contiguous);
    } else {
      ShownFromSnapshot(rs, at, from, end, i - 1, contiguous);
      StaysShown(rs, at, from, end, i - 1, contiguous);
    }
  }

  // ---------- what the events show ----------

  lemma BookLeft(rs: seq<Rec>, i: nat, contiguous: bool)
    requires i < |rs| && !Fold(rs, contiguous).raised
    ensures i < |Fold(rs, contiguous).events|
    ensures var left := Fold(rs[..i + 1], contiguous).book;
            && left.Some? && left.value.epoch == rs[i].msg.epoch
            && (Fold(rs, contiguous).events[i].violation.Some? ==> left.value == BookState(Empty(), -1, rs[i].msg.epoch))
  {
    FoldAt(rs, i, contiguous);
  }

  /** Every record is folded onto an empty book at the start, at a new connection and after a
      flagged record, else onto the book that the record before it left. */
  lemma FoldsOnto(rs: seq<Rec>, i: nat, contiguous: bool)
    requires i < |rs| && !Fold(rs, contiguous).raised
    ensures i > 0 ==> i - 1 < |Fold(rs, contiguous).events|
    ensures var epoch, left := rs[i].msg.epoch, Fold(rs[..i], contiguous).book;
            if i == 0 || rs[i - 1].msg.epoch != epoch || Fold(rs, contiguous).events[i - 1].violation.Some?
            then BookFor(left, epoch) == BookState(Empty(), -1, epoch)
            else left == Some(BookFor(left, epoch))
  {
    if i > 0 {
      BookLeft(rs, i - 1, contiguous);
    }
  }

  lemma EventDepth(rs: seq<Rec>, i: nat, contiguous: bool)
    requires i < |rs| && !Fold(rs, contiguous).raised
    ensures var b, m := BookFor(Fold(rs[..i], contiguous).book, rs[i].msg.epoch), rs[i].msg;
            && i < |Fold(rs, contiguous).events|
            && Fold(rs, contiguous).events[i] == BookEvent(rs[i], Gap(b, m, contiguous), Broken(b, m), Folded(b, m).depth)
  {
    FoldAt(rs, i, contiguous);
    FoldPrefix(rs, i + 1, contiguous);
    assert Fold(rs[..i + 1], contiguous).events[i] == Fold(rs, contiguous).events[i];
  }

  /** From an accepted snapshot on, and until an invariant breaks, every event shows the
      published state at its record. */
  lemma EventShowsState(rs: seq<Rec>, at: nat, from: nat, end: nat, i: nat, contiguous: bool)
    requires Published(rs, at, contiguous) && at <= from <= i <= end && CleanFrom(rs, from, end, contiguous)
    ensures i < |Fold(rs, contiguous).events|
    ensures Fold(rs, contiguous).events[i].depth == C.StateAt(rs[at].msg, LaterOf(rs, rs[at].msg), rs[i].msg.sequence)
  {
    EventDepth(rs, i, contiguous);
    UnbrokenAt(rs, from, end, i, contiguous);
    ShownFromSnapshot(rs, at, from, end, i, contiguous);
  }

  /** The record meets an empty book. */
  predicate Restarts(rs: seq<Rec>, i: nat, events: seq<BookEvent>)
    requires i < |rs| && i <= |events|
  {
    i == 0 || rs[i - 1].msg.epoch != rs[i].msg.epoch || events[i - 1].violation.Some?
  }

  lemma LeftAtRecord(rs: seq<Rec>, i: nat, contiguous: bool)
    requires i < |rs| && !Fold(rs, contiguous).raised
    ensures i < |Fold(rs, contiguous).events|
    ensures Fold(rs, contiguous).events[i].violation.None? ==>
              Fold(rs[..i + 1], contiguous).book.Some? && Fold(rs[..i + 1], contiguous).book.value.sequence == rs[i].msg.sequence
  {
    FoldAt(rs, i, contiguous);
  }

  lemma PreviousIsLower(rs: seq<Rec>, i: nat, contiguous: bool)
    requires 0 < i < |rs| && !Fold(rs, contiguous).raised && rs[i - 1].msg.epoch == rs[i].msg.epoch
    ensures rs[i - 1].msg.sequence <= rs[i].msg.sequence
  {
    FoldRaisesIff(rs, contiguous);
    NotAhead(rs, i - 1, i);
  }

  lemma StandsAtPrevious(rs: seq<Rec>, k: nat, contiguous: bool)
    requires k + 1 < |rs| && !Fold(rs, contiguous).raised && k < |Fold(rs, contiguous).events|
    requires rs[k].msg.epoch == rs[k + 1].msg.epoch && Fold(rs, contiguous).events[k].violation.None?
    ensures BookFor(Fold(rs[..k + 1], contiguous).book, rs[k + 1].msg.epoch).sequence <= rs[k + 1].msg.sequence
  {
    PreviousIsLower(rs, k + 1, contiguous);
    BookLeft(rs, k, contiguous);
    LeftAtRecord(rs, k, contiguous);
  }

  /** Exactly when the flag for a falling sequence fires: on a delta numbered below -1 that
      meets an empty book. A record behind its predecessor never gets there. */
  lemma BehindIff(rs: seq<Rec>, i: nat, contiguous: bool)
    requires i < |rs| && !Fold(rs, contiguous).raised
    ensures i < |Fold(rs, contiguous).events|
    ensures Fold(rs, contiguous).events[i].violation == Some(NonMonotonicSeq)
            <==> rs[i].msg.Delta? && rs[i].msg.sequence < -1 && Restarts(rs, i, Fold(rs, contiguous).events)
  {
    FoldAt(rs, i, contiguous);
    FlagMeans(BookFor(Fold(rs[..i], contiguous).book, rs[i].msg.epoch), rs[i].msg);
    if Restarts(rs, i, Fold(rs, contiguous).events) {
      FoldsOnto(rs, i, contiguous);
    } else {
      StandsAtPrevious(rs, i - 1, contiguous);
    }
  }

  /** Some sequence falls within its connection. */
  predicate Falls(rs: seq<Rec>) {
    exists i, j :: 0 <= i < j < |rs| && rs[i].msg.epoch == rs[j].msg.epoch && rs[j].msg.sequence < rs[i].msg.sequence
  }

  predicate NoneBehind(events: seq<BookEvent>) {
    forall i :: 0 <= i < |events| ==> events[i].violation != Some(NonMonotonicSeq)
  }

  /** So on numbered records it never fires: a sequence that falls makes the order guard raise. */
  lemma NeverBehind(rs: seq<Rec>, contiguous: bool)
    requires forall i :: 0 <= i < |rs| ==> rs[i].msg.sequence >= 0
    ensures Falls(rs) ==> Fold(rs, contiguous).raised
    ensures !Fold(rs, contiguous).raised ==> |Fold(rs, contiguous).events| == |rs| && NoneBehind(Fold(rs, contiguous).events)
  {
    if Falls(rs) {
      var i, j :| 0 <= i < j < |rs| && rs[i].msg.epoch == rs[j].msg.epoch && rs[j].msg.sequence < rs[i].msg.sequence;
      assert KeyLess(rs[j], rs[i]);
      FoldRaisesIff(rs, contiguous);
    }
    if !Fold(rs, contiguous).raised {
      FoldPrefix(rs, |rs|, contiguous);
      assert rs[..|rs|] == rs;
      forall i | 0 <= i < |rs| ensures Fold(rs, contiguous).events[i].violation != Some(NonMonotonicSeq) {
        BehindIff(rs, i, contiguous);
      }
    }
  }

  // ---------- from the two topics ----------

  lemma {:induction false} MsgsAt(rs: seq<Rec>)
    ensures |Msgs(rs)| == |rs| && forall i :: 0 <= i < |rs| ==> Msgs(rs)[i] == rs[i].msg
  {
    if rs != [] {
      MsgsAt(rs[..|rs| - 1]);
    }
  }

  /** Where the merge puts a stream's record. */
  lemma {:induction false} KindIndex(rs: seq<Rec>, snap: bool, k: nat) returns (i: nat)
    requires k < |OfKind(rs, snap)|
    ensures i < |rs| && rs[i] == OfKind(rs, snap)[k] && rs[i].msg.Snapshot? == snap
    ensures OfKind(rs[..i], snap) == OfKind(rs, snap)[..k]
  {
    var rest := rs[..|rs| - 1];
    if k < |OfKind(rest, snap)| {
      i := KindIndex(rest, snap, k);
      assert rest[..i] == rs[..i];
      assert OfKind(rest, snap) <= OfKind(rs, snap);
      PrefixOfPrefix(OfKind(rest, snap), OfKind(rs, snap), k);
    } else {
      i := |rest|;
    }
  }

  lemma PrefixOfPrefix<T>(a: seq<T>, b: seq<T>, k: nat)
    requires a <= b && k < |a|
    ensures a[..k] == b[..k] && a[k] == b[k]
  {
  }

  /** A record of a kind is a record of its stream, no earlier than those before it. */
  lemma {:induction false} IndexOfKind(rs: seq<Rec>, at: nat, i: nat) returns (k: nat)
    requires at <= i < |rs|
    ensures var all := OfKind(rs, rs[i].msg.Snapshot?);
            |OfKind(rs[..at], rs[i].msg.Snapshot?)| <= k < |all| && all[k] == rs[i]
    ensures i == |rs| - 1 ==> k == |OfKind(rs, rs[i].msg.Snapshot?)| - 1
  {
    var snap := rs[i].msg.Snapshot?;
    k := |OfKind(rs[..i], snap)|;
    assert rs == rs[..i + 1] + rs[i + 1..] && rs[..i + 1] == rs[..i] + [rs[i]];
    OfKindConcat(rs[..i + 1], rs[i + 1..], snap);
    OfKindPush(rs[..i], rs[i], snap);
    assert rs[..i] == rs[..at] + rs[at..i];
    OfKindConcat(rs[..at], rs[at..i], snap);
  }

  /** The last connection's streams, merged. */
  ghost predicate LastConnection(snaps: seq<Rec>, deltas: seq<Rec>, first: nat) {
    && AllOfKind(snaps, true) && AllOfKind(deltas, false)
    && C.LastEpochFrom(Msgs(snaps), first) && C.Faithful(Msgs(snaps), Msgs(deltas), first)
    && (forall i :: 0 <= i < |deltas| ==> deltas[i].msg.epoch <= Msgs(snaps)[first].epoch)
  }

  lemma EpochFrom(snaps: seq<Rec>, deltas: seq<Rec>, first: nat, at: nat, i: nat)
    requires LastConnection(snaps, deltas, first) && KeySorted(MergeByKey(snaps, deltas))
    requires var rs := MergeByKey(snaps, deltas); at <= i < |rs| && OfKind(rs[..at], true) == snaps[..first] && rs[at] == snaps[first]
    ensures var rs := MergeByKey(snaps, deltas);
            && rs[i].msg.epoch == rs[at].msg.epoch
            && (rs[i].msg.Snapshot? ==> exists k :: first <= k < |snaps| && snaps[k] == rs[i])
  {
    var rs := MergeByKey(snaps, deltas);
    MergeKeepsKinds(snaps, deltas);
    NotAhead(rs, at, i);
    MsgsAt(snaps);
    var k := IndexOfKind(rs, at, i);
    if rs[i].msg.Snapshot? {
      assert Msgs(snaps)[first..][k - first] == snaps[k].msg;
      assert Msgs(snaps)[first..][0] == snaps[first].msg;
    }
  }

  lemma LaterOpens(deltas: seq<Message<real>>, s0: Message<real>)
    requires s0.Snapshot? && s0.sequence >= 0 && Increasing(OfEpoch(deltas, s0.epoch))
    ensures Opened(s0, C.Later(deltas, s0))
  {
    C.LaterIsOrdered(deltas, s0);
  }

  lemma IsPublished(snaps: seq<Rec>, deltas: seq<Rec>, first: nat, contiguous: bool) returns (at: nat)
    requires LastConnection(snaps, deltas, first)
    requires !FoldArrival(snaps, deltas, contiguous).raised
    ensures Published(MergeByKey(snaps, deltas), at, contiguous)
    ensures MergeByKey(snaps, deltas)[at] == snaps[first]
    ensures OfKind(MergeByKey(snaps, deltas)[..at], true) == snaps[..first]
  {
    var rs := MergeByKey(snaps, deltas);
    FoldRaisesIff(rs, contiguous);
    MergeKeepsKinds(snaps, deltas);
    MsgsAt(snaps);
    at := KindIndex(rs, true, first);
    var s0 := rs[at].msg;
    LaterOpens(Msgs(deltas), s0);
    forall i | at <= i < |rs|
      ensures rs[i].msg.epoch == s0.epoch
      ensures rs[i].msg.Snapshot? ==> Build(rs[i].msg.update) == C.StateAt(s0, LaterOf(rs, s0), rs[i].msg.sequence)
    {
      EpochFrom(snaps, deltas, first, at, i);
    }
  }

  /** What a published log's fold ends with. */
  lemma FinalBook(rs: seq<Rec>, at: nat, from: nat, contiguous: bool)
    requires Published(rs, at, contiguous) && at <= from && CleanFrom(rs, from, |rs| - 1, contiguous)
    ensures var s0, ds, last := rs[at].msg, LaterOf(rs, rs[at].msg), rs[|rs| - 1].msg;
            && Fold(rs, contiguous).book == Some(BookState(ApplyAll(Build(s0.update), ds), last.sequence, s0.epoch))
            && last.sequence >= Top(s0.sequence, ds)
  {
    ShownFromSnapshot(rs, at, from, |rs| - 1, |rs| - 1, contiguous);
    assert rs[..|rs|] == rs;
    AllShown(Fold(rs, contiguous).book.value, rs[at].msg, LaterOf(rs, rs[at].msg));
  }

  lemma AllShown(b: BookState<real>, s0: Message<real>, ds: seq<Message<real>>)
    requires Opened(s0, ds) && Shows(b, s0, ds, ds)
    ensures b.depth == ApplyAll(Build(s0.update), ds) && b.sequence >= Top(s0.sequence, ds)
  {
    C.CutAt(ds, |ds|, b.sequence);
    assert ds[..|ds|] == ds;
  }

  /** The last record is the last snapshot, or the last delta, or no newer than the first
      snapshot. */
  lemma LastRecord(rs: seq<Rec>, s0: Message<real>)
    requires rs != [] && rs[|rs| - 1].msg.epoch == s0.epoch
    ensures var r := rs[|rs| - 1];
            || (OfKind(rs, true) != [] && r == OfKind(rs, true)[|OfKind(rs, true)| - 1])
            || r.msg.sequence == Top(s0.sequence, LaterOf(rs, s0))
            || r.msg.sequence <= s0.sequence
  {
    var rest, r := rs[..|rs| - 1], rs[|rs| - 1];
    assert rs == rest + [r];
    LaterPush(rest, r, s0);
  }

  lemma NoneIsLater(rs: seq<Rec>, j: nat)
    requires KeySorted(rs) && j < |rs| && rs[j].msg.epoch == rs[|rs| - 1].msg.epoch
    ensures rs[j].msg.sequence <= rs[|rs| - 1].msg.sequence
  {
    NotAhead(rs, j, |rs| - 1);
  }

  lemma LastSnapshotBound(rs: seq<Rec>, snaps: seq<Rec>, at: nat, first: nat)
    requires KeySorted(rs) && OfKind(rs, true) == snaps && at < |rs| && first < |snaps| && rs[at] == snaps[first]
    requires rs[|rs| - 1].msg.epoch == rs[at].msg.epoch == snaps[|snaps| - 1].msg.epoch
    ensures rs[|rs| - 1].msg.sequence >= snaps[|snaps| - 1].msg.sequence
  {
    var j := KindIndex(rs, true, |snaps| - 1);
    NoneIsLater(rs, j);
  }

  lemma LastEpoch(snaps: seq<Rec>, deltas: seq<Rec>, first: nat)
    requires LastConnection(snaps, deltas, first)
    ensures snaps[|snaps| - 1].msg.epoch == snaps[first].msg.epoch
    ensures snaps[|snaps| - 1].msg.sequence >= snaps[first].msg.sequence
  {
    MsgsAt(snaps);
    assert Msgs(snaps)[first..][|snaps| - 1 - first] == snaps[|snaps| - 1].msg;
    assert Msgs(snaps)[first..][0] == snaps[first].msg;
  }

  /** A snapshot of the connection comes no earlier than its first. */
  lemma NotBeforeFirst(rs: seq<Rec>, snaps: seq<Rec>, at: nat, first: nat, from: nat)
    requires OfKind(rs, true) == snaps && at < |rs| && first < |snaps| && OfKind(rs[..at], true) == snaps[..first]
    requires C.LastEpochFrom(Msgs(snaps), first)
    requires from < |rs| && rs[from].msg.Snapshot? && rs[from].msg.epoch == snaps[first].msg.epoch
    ensures at <= from
  {
    MsgsAt(snaps);
    OfKindMembers(rs[..at], true);
    forall k | 0 <= k < first ensures snaps[k].msg.epoch != snaps[first].msg.epoch {
      assert Msgs(snaps)[..first][k] == snaps[k].msg;
    }
    forall i | 0 <= i < at && rs[i].msg.Snapshot? ensures rs[i].msg.epoch != snaps[first].msg.epoch {
      assert rs[i] == rs[..at][i];
      assert rs[i] in snaps[..first];
    }
  }

  /** The fold accepted a snapshot of the epoch and broke no invariant from it on. */
  ghost predicate Resynced(f: Folding, from: nat, epoch: int) {
    && from < |f.events| && f.events[from].rec.msg.Snapshot? && f.events[from].rec.msg.epoch == epoch
    && Unbroken(f.events, from, |f.events| - 1)
  }

  lemma IsClean(rs: seq<Rec>, from: nat, epoch: int, contiguous: bool)
    requires !Fold(rs, contiguous).raised && Resynced(Fold(rs, contiguous), from, epoch)
    ensures CleanFrom(rs, from, |rs| - 1, contiguous) && rs[from].msg.epoch == epoch
  {
    FoldPrefix(rs, |rs|, contiguous);
    assert rs[..|rs|] == rs;
    FoldAt(rs, from, contiguous);
  }

  /** An offline fold that does not raise, and breaks no invariant from some snapshot of the
      last connection on, ends with the book every interleaving of the two topics gives the
      gateway. */
  lemma {:induction false} SilverIsReconstructed(snaps: seq<Rec>, deltas: seq<Rec>, first: nat, from: nat, contiguous: bool)
    requires LastConnection(snaps, deltas, first)
    requires !FoldArrival(snaps, deltas, contiguous).raised
    requires Resynced(FoldArrival(snaps, deltas, contiguous), from, snaps[first].msg.epoch)
    ensures FoldArrival(snaps, deltas, contiguous).book == Some(C.Reconstructed(Msgs(snaps), Msgs(deltas), first))
  {
    var rs := MergeByKey(snaps, deltas);
    var at := IsPublished(snaps, deltas, first, contiguous);
    MergeKeepsKinds(snaps, deltas);
    IsClean(rs, from, snaps[first].msg.epoch, contiguous);
    NotBeforeFirst(rs, snaps, at, first, from);
    MsgsAt(snaps);
    FinalBook(rs, at, from, contiguous);
    LastRecord(rs, rs[at].msg);
    LastEpoch(snaps, deltas, first);
    LastSnapshotBound(rs, snaps, at, first);
  }

  lemma {:induction false} SilverIsGateway(ms: seq<Message<real>>, snaps: seq<Rec>, deltas: seq<Rec>, first: nat, from: nat, contiguous: bool)
    requires LastConnection(snaps, deltas, first)
    requires !FoldArrival(snaps, deltas, contiguous).raised
    requires Resynced(FoldArrival(snaps, deltas, contiguous), from, snaps[first].msg.epoch)
    requires C.SnapshotsOf(ms) == Msgs(snaps) && C.DeltasOf(ms) == Msgs(deltas)
    requires C.Quiet(ms, Msgs(snaps)[first].epoch, Msgs(snaps)[first].sequence)
    ensures Run(ms).book == FoldArrival(snaps, deltas, contiguous).book
  {
    SilverIsReconstructed(snaps, deltas, first, from, contiguous);
    C.RunReconstructs(ms, first);
  }

  // ---------- from the drivers ----------

  /** No later message of a topic has a lower epoch, nor a lower sequence in its epoch. */
  predicate Rises(ms: seq<Message<real>>) {
    forall i, j :: 0 <= i <= j < |ms| ==>
      ms[i].epoch < ms[j].epoch || (ms[i].epoch == ms[j].epoch && ms[i].sequence <= ms[j].sequence)
  }

  predicate NoHigher(ms: seq<Message<real>>, m: Message<real>) {
    forall x :: x in ms ==> x.epoch < m.epoch || (x.epoch == m.epoch && x.sequence <= m.sequence)
  }

  lemma RisesPush(ms: seq<Message<real>>, m: Message<real>)
    ensures Rises(ms + [m]) <==> Rises(ms) && NoHigher(ms, m)
  {
    var all := ms + [m];
    assert all[|ms|] == m;
    assert forall i :: 0 <= i < |ms| ==> all[i] == ms[i];
    if Rises(all) {
      forall x | x in ms ensures x.epoch < m.epoch || (x.epoch == m.epoch && x.sequence <= m.sequence) {
        var i :| 0 <= i < |ms| && ms[i] == x;
        assert all[i] == x;
      }
    }
  }

  lemma {:induction false} TopicsRise(ms: seq<Message<real>>)
    requires Rises(ms)
    ensures Rises(C.SnapshotsOf(ms)) && Rises(C.DeltasOf(ms))
  {
    if ms != [] {
      var rest, m := ms[..|ms| - 1], ms[|ms| - 1];
      assert ms == rest + [m];
      RisesPush(rest, m);
      TopicsRise(rest);
      J.TopicMembers(rest);
      J.PushTopics(rest, m);
      TopicPush(C.SnapshotsOf(rest), rest, m);
      TopicPush(C.DeltasOf(rest), rest, m);
    }
  }

  lemma TopicPush(topic: seq<Message<real>>, ms: seq<Message<real>>, m: Message<real>)
    requires Rises(topic) && NoHigher(ms, m) && forall x :: x in topic ==> x in ms
    ensures Rises(topic + [m])
  {
    RisesPush(topic, m);
  }

  /** What was stored of a topic, in arrival order. */
  predicate Stores(rs: seq<Rec>, topic: seq<Message<real>>) {
    Arrived(rs) && Msgs(rs) == topic
  }

  lemma StoredIsSorted(rs: seq<Rec>, topic: seq<Message<real>>, snap: bool)
    requires Stores(rs, topic) && Rises(topic) && forall i :: 0 <= i < |topic| ==> topic[i].Snapshot? == snap
    ensures AllOfKind(rs, snap) && KeySorted(rs)
  {
    MsgsAt(rs);
    forall i | 0 <= i < |rs| ensures rs[i].msg == topic[i] {
    }
  }

  lemma CleanStep(rs: seq<Rec>, at: nat, i: nat, contiguous: bool)
    requires Published(rs, at, contiguous) && C.NeverLocked(rs[at].msg, LaterOf(rs, rs[at].msg))
    requires at <= i && i + 1 < |rs| && ShownAt(rs, at, i, contiguous)
    ensures Broken(Fold(rs[..i + 1], contiguous).book.value, rs[i + 1].msg).None?
  {
    PublishedAt(rs, at, i, contiguous);
    NextIsClean(rs, rs[at].msg, i, Fold(rs[..i + 1], contiguous).book.value);
  }

  lemma NextIsClean(rs: seq<Rec>, s0: Message<real>, i: nat, b: BookState<real>)
    requires KeySorted(rs) && i + 1 < |rs| && Opened(s0, LaterOf(rs, s0)) && rs[i + 1].msg.epoch == s0.epoch
    requires C.NeverLocked(s0, LaterOf(rs, s0)) && Shows(b, s0, LaterOf(rs, s0), LaterOf(rs[..i + 1], s0))
    requires rs[i + 1].msg.sequence >= b.sequence
    requires rs[i + 1].msg.Snapshot? ==>
               Build(rs[i + 1].msg.update) == C.StateAt(s0, LaterOf(rs, s0), rs[i + 1].msg.sequence)
    ensures Broken(b, rs[i + 1].msg).None?
  {
    var m := rs[i + 1].msg;
    if m.Delta? && m.sequence > b.sequence {
      NextIsAhead(rs, i + 1, s0);
      LaterGrows(rs, s0, i);
      NextUnlocked(s0, LaterOf(rs, s0), LaterOf(rs[..i + 1], s0), b, m);
    }
  }

  lemma NextUnlocked(s0: Message<real>, ds: seq<Message<real>>, c: seq<Message<real>>, b: BookState<real>, m: Message<real>)
    requires Opened(s0, ds) && C.NeverLocked(s0, ds) && Shows(b, s0, ds, c) && c + [m] <= ds && m.sequence > b.sequence
    ensures !Locked(Apply(b.depth, m.update))
  {
    var k := |c|;
    assert ds[k] == (c + [m])[k];
    assert k > 0 ==> ds[k - 1] == (c + [m])[k - 1];
    C.StateStep(s0, ds, k, b.sequence);
  }

  lemma EventAt(rs: seq<Rec>, at: nat, i: nat, contiguous: bool)
    requires Published(rs, at, contiguous) && at <= i && i + 1 < |rs| && ShownAt(rs, at, i, contiguous)
    requires Broken(Fold(rs[..i + 1], contiguous).book.value, rs[i + 1].msg).None?
    ensures i + 1 < |Fold(rs, contiguous).events| && Fold(rs, contiguous).events[i + 1].violation.None?
  {
    FoldAt(rs, i + 1, contiguous);
    PublishedAt(rs, at, i, contiguous);
  }

  lemma FirstIsClean(rs: seq<Rec>, at: nat, contiguous: bool)
    requires Published(rs, at, contiguous) && C.NeverLocked(rs[at].msg, LaterOf(rs, rs[at].msg))
    ensures CleanFrom(rs, at, at, contiguous)
  {
    FoldAt(rs, at, contiguous);
    FirstUnlocked(rs[at].msg, LaterOf(rs, rs[at].msg));
  }

  lemma FirstUnlocked(s0: Message<real>, ds: seq<Message<real>>)
    requires C.NeverLocked(s0, ds)
    ensures !Locked(Build(s0.update))
  {
    assert ds[..0] == [];
  }

  lemma CleanPush(rs: seq<Rec>, at: nat, i: nat, contiguous: bool)
    requires CleanFrom(rs, at, i, contiguous) && i + 1 < |rs| && i + 1 < |Fold(rs, contiguous).events|
    requires Fold(rs, contiguous).events[i + 1].violation.None?
    ensures CleanFrom(rs, at, i + 1, contiguous)
  {
  }

  /** Where no published state is locked, no record of the connection is flagged. */
  lemma {:induction false} NeverFlagged(rs: seq<Rec>, at: nat, i: nat, contiguous: bool)
    requires Published(rs, at, contiguous) && C.NeverLocked(rs[at].msg, LaterOf(rs, rs[at].msg)) && at <= i < |rs|
    ensures CleanFrom(rs, at, i, contiguous)
  {
    if i == at {
      FirstIsClean(rs, at, contiguous);
    } else {
      NeverFlagged(rs, at, i - 1, contiguous);
      ShownFromSnapshot(rs, at, at, i - 1, i - 1, contiguous);
      CleanStep(rs, at, i - 1, contiguous);
      EventAt(rs, at, i - 1, contiguous);
      CleanPush(rs, at, i - 1, contiguous);
    }
  }

  lemma {:induction false} SilverFolds(snaps: seq<Rec>, deltas: seq<Rec>, first: nat, contiguous: bool) returns (from: nat)
    requires LastConnection(snaps, deltas, first) && !FoldArrival(snaps, deltas, contiguous).raised
    requires C.NeverLocked(snaps[first].msg, C.Later(Msgs(deltas), snaps[first].msg))
    ensures var f := FoldArrival(snaps, deltas, contiguous);
            && Resynced(f, from, snaps[first].msg.epoch) && f.events[from].rec == snaps[first]
            && f.book == Some(C.Reconstructed(Msgs(snaps), Msgs(deltas), first))
  {
    var rs := MergeByKey(snaps, deltas);
    from := IsPublished(snaps, deltas, first, contiguous);
    MergeKeepsKinds(snaps, deltas);
    NeverFlagged(rs, from, |rs| - 1, contiguous);
    FoldPrefix(rs, |rs|, contiguous);
    assert rs[..|rs|] == rs;
    FoldAt(rs, from, contiguous);
    SilverIsReconstructed(snaps, deltas, first, from, contiguous);
  }

  /** A published log, stored and folded offline: the fold does not raise, flags no record
      from the last connection's first snapshot on, and ends with the book the log stands for. */
  lemma SilverKeeps(published: seq<Message<real>>, first: nat, book: BookState<real>, snaps: seq<Rec>, deltas: seq<Rec>, contiguous: bool)
    returns (from: nat)
    requires J.FaithfulFrom(C.SnapshotsOf(published), C.DeltasOf(published), first, book)
    requires Rises(published) && J.EpochsUpTo(published, book.epoch)
    requires Stores(snaps, C.SnapshotsOf(published)) && Stores(deltas, C.DeltasOf(published))
    ensures var f := FoldArrival(snaps, deltas, contiguous);
            !f.raised && Resynced(f, from, book.epoch) && f.events[from].rec == snaps[first] && f.book == Some(book)
  {
    TopicsRise(published);
    J.TopicMembers(published);
    StoredIsSorted(snaps, C.SnapshotsOf(published), true);
    StoredIsSorted(deltas, C.DeltasOf(published), false);
    ArrivalRaisesIff(snaps, deltas, contiguous);
    MsgsAt(snaps);
    MsgsAt(deltas);
    forall i | 0 <= i < |deltas| ensures deltas[i].msg.epoch <= book.epoch {
      assert Msgs(deltas)[i] in published;
    }
    from := SilverFolds(snaps, deltas, first, contiguous);
  }

  lemma PublishedRises(published: seq<Message<real>>)
    requires J.EpochsAscend(published) && J.SequencesAscend(published)
    ensures Rises(published)
  {
  }

  /** End to end for Binance: whatever happened on the wire, and with no buffer to overflow,
      the offline fold of what a live driver published ends with the driver's book. */
  lemma SilverKeepsBinanceBook(m: DS.Market, v: History, inputs: seq<DS.Input>, snaps: seq<Rec>, deltas: seq<Rec>, contiguous: bool)
    returns (from: nat)
    requires DS.Honest(m, v, inputs) && DS.Run(m, inputs).phase == DS.Live
    requires Stores(snaps, C.SnapshotsOf(DS.Run(m, inputs).published))
    requires Stores(deltas, C.DeltasOf(DS.Run(m, inputs).published))
    ensures var d, f := DS.Run(m, inputs), FoldArrival(snaps, deltas, contiguous);
            !f.raised && Resynced(f, from, d.epoch) && f.book == Some(BookState(d.book, d.bookSeq, d.epoch))
  {
    var first := DS.PublishesFaithfully(m, v, inputs);
    DS.RunSound(m, v, inputs);
    DS.RunOrdered(m, inputs);
    var d := DS.Run(m, inputs);
    PublishedRises(d.published);
    from := SilverKeeps(d.published, first, BookState(d.book, d.bookSeq, d.epoch), snaps, deltas, contiguous);
  }

  /** End to end for Kraken, with one snapshot per connection. */
  lemma SilverKeepsKrakenBook(depth: nat, inputs: seq<K.Input>, snaps: seq<Rec>, deltas: seq<Rec>, contiguous: bool)
    returns (from: nat)
    requires K.Modest(depth, inputs) && K.OncePerConnection(depth, inputs) && K.Run(depth, inputs).phase == K.Live
    requires Stores(snaps, C.SnapshotsOf(K.Run(depth, inputs).published))
    requires Stores(deltas, C.DeltasOf(K.Run(depth, inputs).published))
    ensures var d, f := K.Run(depth, inputs), FoldArrival(snaps, deltas, contiguous);
            !f.raised && Resynced(f, from, d.epoch) && f.book == Some(BookState(d.book, d.bookSeq, d.epoch))
  {
    var first := K.PublishesFaithfully(depth, inputs);
    K.RunInSequence(depth, inputs);
    var d := K.Run(depth, inputs);
    PublishedRises(d.published);
    from := SilverKeeps(d.published, first, BookState(d.book, d.bookSeq, d.epoch), snaps, deltas, contiguous);
  }

  // ---------- after a broken invariant ----------

  /** After the broken record `k` only deltas of its connection follow, up to `end`. */
  predicate DeltasFollow(rs: seq<Rec>, k: nat, end: nat) {
    && k <= end < |rs|
    && forall i :: k < i <= end ==> rs[i].msg.Delta? && rs[i].msg.epoch == rs[k].msg.epoch && rs[i].msg.sequence >= 0
  }

  /** Every record from `k` up to `end` is flagged. */
  predicate Flagged(events: seq<BookEvent>, k: nat, end: nat) {
    forall i :: k <= i <= end && i < |events| ==> events[i].violation.Some?
  }

  /** Read onto an empty book the delta crosses or locks it by itself. */
  predicate CrossesItself(m: Message<real>) {
    Locked(Apply(Empty(), m.update))
  }

  predicate AllCrossThemselves(rs: seq<Rec>, k: nat, end: nat) {
    forall i :: k < i <= end && i < |rs| ==> CrossesItself(rs[i].msg)
  }

  lemma BrokenClears(rs: seq<Rec>, i: nat, contiguous: bool)
    requires i < |rs| && !Fold(rs, contiguous).raised
    requires i < |Fold(rs, contiguous).events| && Fold(rs, contiguous).events[i].violation.Some?
    ensures Fold(rs[..i + 1], contiguous).book == Some(BookState(Empty(), -1, rs[i].msg.epoch))
  {
    FoldAt(rs, i, contiguous);
  }

  /** Behind a flagged record a delta is read onto the empty book, without a gap, and flagged
      only if it crosses itself. */
  lemma DeltaOnCleared(rs: seq<Rec>, i: nat, contiguous: bool)
    requires i + 1 < |rs| && !Fold(rs, contiguous).raised && i + 1 < |Fold(rs, contiguous).events|
    requires Fold(rs, contiguous).events[i].violation.Some? && DeltasFollow(rs, i, i + 1)
    ensures var event := Fold(rs, contiguous).events[i + 1];
            && event.gap == 0 && event.depth == Apply(Empty(), rs[i + 1].msg.update)
            && (event.violation.Some? <==> CrossesItself(rs[i + 1].msg))
  {
    BrokenClears(rs, i, contiguous);
    FoldAt(rs, i + 1, contiguous);
    FoldPrefix(rs, i + 2, contiguous);
    var f := Fold(rs[..i + 2], contiguous);
    assert f.events[i + 1] == Fold(rs, contiguous).events[i + 1];
  }

  /** After a broken invariant the fold stays silent up to the next snapshot if and only if
      every delta in between crosses itself: the first that does not is shown as a book of
      its levels alone. */
  lemma {:induction false} SilentUntilSnapshotIff(rs: seq<Rec>, k: nat, end: nat, contiguous: bool)
    requires !Fold(rs, contiguous).raised && DeltasFollow(rs, k, end) && k < |Fold(rs, contiguous).events|
    requires Fold(rs, contiguous).events[k].violation.Some?
    ensures Flagged(Fold(rs, contiguous).events, k, end) <==> AllCrossThemselves(rs, k, end)
    decreases end
  {
    FoldPrefix(rs, |rs|, contiguous);
    assert rs[..|rs|] == rs;
    if k < end {
      SilentUntilSnapshotIff(rs, k, end - 1, contiguous);
      FlaggedPush(Fold(rs, contiguous).events, k, end);
      CrossPush(rs, k, end);
      if Flagged(Fold(rs, contiguous).events, k, end - 1) {
        DeltaOnCleared(rs, end - 1, contiguous);
      }
    }
  }

  lemma FlaggedPush(events: seq<BookEvent>, k: nat, end: nat)
    requires k < end < |events|
    ensures Flagged(events, k, end) <==> Flagged(events, k, end - 1) && events[end].violation.Some?
  {
  }

  lemma CrossPush(rs: seq<Rec>, k: nat, end: nat)
    requires k < end < |rs|
    ensures AllCrossThemselves(rs, k, end) <==> AllCrossThemselves(rs, k, end - 1) && CrossesItself(rs[end].msg)
  {
  }

  // ---------- a fold that is not silent ----------

  const STAMP: Stamp := Stamp(1, 2)
  const ASK_AT_50: Rec := Rec(0, Snapshot(1, 0, Update([], [Change(50.0, Some(1.0))]), STAMP))
  const BID_AT_50: Rec := Rec(0, Delta(1, 1, Update([Change(50.0, Some(1.0))], []), STAMP))
  const BID_AT_40: Rec := Rec(1, Delta(1, 2, Update([Change(40.0, Some(1.0))], []), STAMP))

  lemma OneChange(p: real)
    ensures PutAll(map[], [Change(p, Some(1.0))]) == map[p := 1.0] && Listed([Change(p, Some(1.0))]) == map[p := 1.0]
  {
    assert [Change(p, Some(1.0))][..0] == [];
  }

  lemma LockedAt(p: real)
    ensures Locked(Depth(map[p := 1.0], map[p := 1.0]))
  {
    assert (map[p := 1.0]).Keys == {p};
  }

  lemma AskShown()
    ensures var f := Fold([ASK_AT_50], false);
            !f.raised && f.prev == Some(ASK_AT_50) && f.offsets == map[true := 0] && |f.events| == 1
            && f.book == Some(BookState(Depth(map[], map[50.0 := 1.0]), 0, 1))
  {
    OneChange(50.0);
    assert [ASK_AT_50][..0] == [];
  }

  lemma BidLocks()
    ensures var f := Fold([ASK_AT_50, BID_AT_50], false);
            !f.raised && f.prev == Some(BID_AT_50) && f.offsets == map[true := 0, false := 0] && |f.events| == 2
            && f.events[1].violation == Some(CrossedAfterDelta) && f.book == Some(BookState(Empty(), -1, 1))
  {
    AskShown();
    OneChange(50.0);
    LockedAt(50.0);
    assert [ASK_AT_50, BID_AT_50][..1] == [ASK_AT_50];
  }

  /** The concrete failure: a bid locks the book, which is emptied; the bid after it is shown
      unflagged as a book without the ask the venue still has. */
  lemma ClearedBookShowsDelta()
    ensures var f := Fold([ASK_AT_50, BID_AT_50, BID_AT_40], false);
            && !f.raised && |f.events| == 3 && f.events[1].violation.Some?
            && f.events[2].violation.None? && f.events[2].depth == Depth(map[40.0 := 1.0], map[])
  {
    BidLocks();
    OneChange(40.0);
    assert [ASK_AT_50, BID_AT_50, BID_AT_40][..2] == [ASK_AT_50, BID_AT_50];
  }
}
