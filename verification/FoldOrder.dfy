/** The offline book fold and its two order guards: one on the merge key, one on the
    arrival offset of each stream. */
module FoldOrder {
  import opened Levels
  import opened Stream
  import opened OrderBook

  /** A stored record: its place in its topic and the message. */
  datatype Rec = Rec(offset: int, msg: Message<real>)

  /** Epoch, then sequence, then a snapshot before a delta. */
  predicate KeyLess(a: Rec, b: Rec) {
    || a.msg.epoch < b.msg.epoch
    || (a.msg.epoch == b.msg.epoch && a.msg.sequence < b.msg.sequence)
    || (a.msg.epoch == b.msg.epoch && a.msg.sequence == b.msg.sequence && a.msg.Snapshot? && b.msg.Delta?)
  }

  predicate KeySorted(rs: seq<Rec>) {
    forall i, j :: 0 <= i < j < |rs| ==> !KeyLess(rs[j], rs[i])
  }

  predicate OffsetsAscend(rs: seq<Rec>) {
    forall i, j :: 0 <= i < j < |rs| ==> rs[i].offset <= rs[j].offset
  }

  /** Arrival order: the offsets of one topic strictly increase. */
  predicate Arrived(rs: seq<Rec>) {
    forall i, j :: 0 <= i < j < |rs| ==> rs[i].offset < rs[j].offset
  }

  function OfKind(rs: seq<Rec>, snap: bool): seq<Rec> {
    if rs == [] then []
    else if rs[|rs| - 1].msg.Snapshot? == snap then OfKind(rs[..|rs| - 1], snap) + [rs[|rs| - 1]]
    else OfKind(rs[..|rs| - 1], snap)
  }

  predicate AllOfKind(rs: seq<Rec>, snap: bool) {
    forall i :: 0 <= i < |rs| ==> rs[i].msg.Snapshot? == snap
  }

  // ---------- the merge and the sort ----------

  /** Always the head with the lesser key; the snapshot stream's on a tie. */
  function MergeByKey(snaps: seq<Rec>, deltas: seq<Rec>): seq<Rec>
    decreases |snaps| + |deltas|
  {
    if snaps == [] then deltas
    else if deltas == [] then snaps
    else if !KeyLess(deltas[0], snaps[0]) then [snaps[0]] + MergeByKey(snaps[1..], deltas)
    else [deltas[0]] + MergeByKey(snaps, deltas[1..])
  }

  function InsertByKey(rs: seq<Rec>, r: Rec): seq<Rec> {
    if rs == [] || !KeyLess(r, rs[|rs| - 1]) then rs + [r]
    else InsertByKey(rs[..|rs| - 1], r) + [rs[|rs| - 1]]
  }

  function SortByKey(rs: seq<Rec>): seq<Rec> {
    if rs == [] then [] else InsertByKey(SortByKey(rs[..|rs| - 1]), rs[|rs| - 1])
  }

  lemma {:induction false} OfKindConcat(a: seq<Rec>, b: seq<Rec>, snap: bool)
    ensures OfKind(a + b, snap) == OfKind(a, snap) + OfKind(b, snap)
  {
    if b == [] {
      assert a + b == a;
    } else {
      assert (a + b)[..|a + b| - 1] == a + b[..|b| - 1];
      OfKindConcat(a, b[..|b| - 1], snap);
    }
  }

  lemma {:induction false} OfKindAll(rs: seq<Rec>, snap: bool)
    requires AllOfKind(rs, snap)
    ensures OfKind(rs, snap) == rs && OfKind(rs, !snap) == []
  {
    if rs != [] {
      OfKindAll(rs[..|rs| - 1], snap);
    }
  }

  lemma OfKindHead(r: Rec, rs: seq<Rec>, snap: bool)
    ensures OfKind([r] + rs, snap) == if r.msg.Snapshot? == snap then [r] + OfKind(rs, snap) else OfKind(rs, snap)
  {
    OfKindConcat([r], rs, snap);
    OfKindPush([], r, snap);
    assert [] + [r] == [r] && [] + OfKind(rs, snap) == OfKind(rs, snap);
  }

  lemma {:induction false} MergeKeepsKind(snaps: seq<Rec>, deltas: seq<Rec>, snap: bool)
    requires AllOfKind(snaps, true) && AllOfKind(deltas, false)
    ensures OfKind(MergeByKey(snaps, deltas), snap) == if snap then snaps else deltas
    decreases |snaps| + |deltas|
  {
    if snaps == [] {
      OfKindAll(deltas, false);
    } else if deltas == [] {
      OfKindAll(snaps, true);
    } else if !KeyLess(deltas[0], snaps[0]) {
      MergeKeepsKind(snaps[1..], deltas, snap);
      OfKindHead(snaps[0], MergeByKey(snaps[1..], deltas), snap);
    } else {
      MergeKeepsKind(snaps, deltas[1..], snap);
      OfKindHead(deltas[0], MergeByKey(snaps, deltas[1..]), snap);
    }
  }

  /** The merge keeps each stream's order. */
  lemma MergeKeepsKinds(snaps: seq<Rec>, deltas: seq<Rec>)
    requires AllOfKind(snaps, true) && AllOfKind(deltas, false)
    ensures OfKind(MergeByKey(snaps, deltas), true) == snaps
    ensures OfKind(MergeByKey(snaps, deltas), false) == deltas
  {
    MergeKeepsKind(snaps, deltas, true);
    MergeKeepsKind(snaps, deltas, false);
  }

  predicate NoneBelow(rs: seq<Rec>, low: Rec) {
    forall i :: 0 <= i < |rs| ==> !KeyLess(rs[i], low)
  }

  lemma {:induction false} MergeFloor(snaps: seq<Rec>, deltas: seq<Rec>, low: Rec)
    requires NoneBelow(snaps, low) && NoneBelow(deltas, low)
    ensures NoneBelow(MergeByKey(snaps, deltas), low)
    decreases |snaps| + |deltas|
  {
    if snaps != [] && deltas != [] {
      if !KeyLess(deltas[0], snaps[0]) {
        MergeFloor(snaps[1..], deltas, low);
      } else {
        MergeFloor(snaps, deltas[1..], low);
      }
    }
  }

  lemma SortedTailFloor(rs: seq<Rec>, low: Rec)
    requires rs != [] && KeySorted(rs) && !KeyLess(rs[0], low)
    ensures NoneBelow(rs, low)
  {
    forall i | 0 <= i < |rs| ensures !KeyLess(rs[i], low) {
      assert i > 0 ==> !KeyLess(rs[i], rs[0]);
    }
  }

  lemma {:induction false} MergeSorted(snaps: seq<Rec>, deltas: seq<Rec>)
    requires KeySorted(snaps) && KeySorted(deltas)
    ensures KeySorted(MergeByKey(snaps, deltas))
    decreases |snaps| + |deltas|
  {
    if snaps != [] && deltas != [] {
      if !KeyLess(deltas[0], snaps[0]) {
        MergeSorted(snaps[1..], deltas);
        SortedTailFloor(snaps, snaps[0]);
        SortedTailFloor(deltas, snaps[0]);
        MergeFloor(snaps[1..], deltas, snaps[0]);
      } else {
        MergeSorted(snaps, deltas[1..]);
        SortedTailFloor(snaps, deltas[0]);
        SortedTailFloor(deltas, deltas[0]);
        MergeFloor(snaps, deltas[1..], deltas[0]);
      }
    }
  }

  lemma {:induction false} OfKindMembers(rs: seq<Rec>, snap: bool)
    ensures AllOfKind(OfKind(rs, snap), snap)
    ensures forall r :: r in OfKind(rs, snap) <==> r in rs && r.msg.Snapshot? == snap
  {
    if rs != [] {
      OfKindMembers(rs[..|rs| - 1], snap);
      assert rs == rs[..|rs| - 1] + [rs[|rs| - 1]];
    }
  }

  lemma {:induction false} OfKindSorted(rs: seq<Rec>, snap: bool)
    requires KeySorted(rs)
    ensures KeySorted(OfKind(rs, snap))
  {
    if rs != [] {
      OfKindSorted(rs[..|rs| - 1], snap);
      OfKindMembers(rs[..|rs| - 1], snap);
      if rs[|rs| - 1].msg.Snapshot? == snap {
        PushSorted(OfKind(rs[..|rs| - 1], snap), rs[..|rs| - 1], rs[|rs| - 1]);
      }
    }
  }

  lemma PushSorted(some: seq<Rec>, all: seq<Rec>, r: Rec)
    requires KeySorted(some) && KeySorted(all + [r])
    requires forall x :: x in some ==> x in all
    ensures KeySorted(some + [r])
  {
    forall i | 0 <= i < |some| ensures !KeyLess(r, some[i]) {
      assert some[i] in all;
      var k :| 0 <= k < |all| && all[k] == some[i];
      assert (all + [r])[k] == some[i] && (all + [r])[|all|] == r;
    }
  }

  /** The merge is in key order exactly when both streams are. */
  lemma MergeSortedIff(snaps: seq<Rec>, deltas: seq<Rec>)
    requires AllOfKind(snaps, true) && AllOfKind(deltas, false)
    ensures KeySorted(MergeByKey(snaps, deltas)) <==> KeySorted(snaps) && KeySorted(deltas)
  {
    if KeySorted(snaps) && KeySorted(deltas) {
      MergeSorted(snaps, deltas);
    }
    if KeySorted(MergeByKey(snaps, deltas)) {
      MergeKeepsKinds(snaps, deltas);
      OfKindSorted(MergeByKey(snaps, deltas), true);
      OfKindSorted(MergeByKey(snaps, deltas), false);
    }
  }

  lemma {:induction false} InsertByKeyShape(rs: seq<Rec>, r: Rec) returns (k: nat)
    requires KeySorted(rs)
    ensures k <= |rs| && InsertByKey(rs, r) == rs[..k] + [r] + rs[k..]
    ensures k > 0 ==> !KeyLess(r, rs[k - 1])
    ensures k < |rs| ==> KeyLess(r, rs[k])
  {
    if rs == [] || !KeyLess(r, rs[|rs| - 1]) {
      k := |rs|;
    } else {
      k := InsertByKeyShape(rs[..|rs| - 1], r);
      assert rs[..|rs| - 1][k..] + [rs[|rs| - 1]] == rs[k..];
    }
  }

  lemma {:induction false} InsertByKeySorts(rs: seq<Rec>, r: Rec)
    requires KeySorted(rs)
    ensures KeySorted(InsertByKey(rs, r))
    ensures forall x :: x in InsertByKey(rs, r) <==> x in rs || x == r
  {
    if rs == [] || !KeyLess(r, rs[|rs| - 1]) {
      AppendSorted(rs, r);
    } else {
      var rest, last := rs[..|rs| - 1], rs[|rs| - 1];
      assert rs == rest + [last];
      InsertByKeySorts(rest, r);
      BelowLast(rs);
      AppendBound(InsertByKey(rest, r), last);
    }
  }

  lemma AppendSorted(rs: seq<Rec>, r: Rec)
    requires KeySorted(rs) && (rs != [] ==> !KeyLess(r, rs[|rs| - 1]))
    ensures KeySorted(rs + [r])
  {
    if rs != [] {
      BelowLast(rs);
    }
  }

  lemma AppendBound(rs: seq<Rec>, r: Rec)
    requires KeySorted(rs) && forall x :: x in rs ==> !KeyLess(r, x)
    ensures KeySorted(rs + [r])
  {
  }

  lemma BelowLast(rs: seq<Rec>)
    requires rs != [] && KeySorted(rs)
    ensures forall x :: x in rs ==> !KeyLess(rs[|rs| - 1], x)
  {
  }

  lemma {:induction false} SortByKeySorts(rs: seq<Rec>)
    ensures KeySorted(SortByKey(rs))
    ensures forall x :: x in SortByKey(rs) <==> x in rs
  {
    if rs != [] {
      SortByKeySorts(rs[..|rs| - 1]);
      InsertByKeySorts(SortByKey(rs[..|rs| - 1]), rs[|rs| - 1]);
      assert rs == rs[..|rs| - 1] + [rs[|rs| - 1]];
    }
  }

  lemma {:induction false} SortOfSorted(rs: seq<Rec>)
    requires KeySorted(rs)
    ensures SortByKey(rs) == rs
  {
    if rs != [] {
      SortOfSorted(rs[..|rs| - 1]);
    }
  }

  lemma IndexOf<T>(s: seq<T>, x: T) returns (k: nat)
    requires x in s
    ensures k < |s| && s[k] == x
  {
    k :| 0 <= k < |s| && s[k] == x;
  }

  lemma NotAhead(rs: seq<Rec>, i: nat, j: nat)
    requires KeySorted(rs) && i < |rs| && j < |rs|
    ensures i <= j ==> !KeyLess(rs[j], rs[i])
  {
  }

  lemma SortTurnsBack(rs: seq<Rec>, i: nat, j: nat)
    requires Arrived(rs) && i < j < |rs| && KeyLess(rs[j], rs[i])
    ensures !OffsetsAscend(SortByKey(rs))
  {
    SortByKeySorts(rs);
    var s := SortByKey(rs);
    assert rs[i] in rs && rs[j] in rs;
    var p := IndexOf(s, rs[i]);
    var q := IndexOf(s, rs[j]);
    NotAhead(s, p, q);
    assert s[p].offset < s[q].offset;
  }

  /** Sorting by key keeps the arrival order exactly when arrival was already in key
      order. */
  lemma SortKeepsArrivalIff(rs: seq<Rec>)
    requires Arrived(rs)
    ensures OffsetsAscend(SortByKey(rs)) <==> KeySorted(rs)
  {
    if KeySorted(rs) {
      SortOfSorted(rs);
      ArrivedAscends(rs);
    } else {
      var i, j :| 0 <= i < j < |rs| && KeyLess(rs[j], rs[i]);
      SortTurnsBack(rs, i, j);
    }
  }

  // ---------- the fold ----------

  /** What the fold yields for a record: the lost sequence numbers it shows, the invariant
      it broke, and the book after it. */
  datatype BookEvent = BookEvent(rec: Rec, gap: nat, violation: Option<Violation>, depth: Depth<real>)

  /** `prev` is the record last folded, `offsets` the last offset of each kind. */
  datatype Folding = Folding(
    events: seq<BookEvent>, book: Option<BookState<real>>, prev: Option<Rec>, offsets: map<bool, int>, raised: bool)

  function NothingFolded(): Folding {
    Folding([], None, None, map[], false)
  }

  predicate OutOfOrder(f: Folding, r: Rec) {
    || (f.prev.Some? && KeyLess(r, f.prev.value))
    || (r.msg.Snapshot? in f.offsets && r.offset < f.offsets[r.msg.Snapshot?])
  }

  /** A new epoch starts from an empty book. */
  function BookFor(book: Option<BookState<real>>, epoch: int): BookState<real> {
    if book.None? || book.value.epoch != epoch then BookState(Empty(), -1, epoch) else book.value
  }

  function Gap(b: BookState<real>, m: Message<real>, contiguous: bool): nat {
    if m.Delta? && contiguous && b.sequence >= 0 && m.sequence > b.sequence + 1 then m.sequence - b.sequence - 1 else 0
  }

  /** A delta at the book's sequence is passed over: a re-snapshot already holds it. */
  function Broken(b: BookState<real>, m: Message<real>): Option<Violation> {
    if m.Snapshot? then if Locked(Build(m.update)) then Some(SnapshotCrossed) else None
    else if m.sequence == b.sequence then None
    else if m.sequence < b.sequence then Some(NonMonotonicSeq)
    else if Locked(Apply(b.depth, m.update)) then Some(CrossedAfterDelta)
    else None
  }

  function Folded(b: BookState<real>, m: Message<real>): BookState<real> {
    if m.Snapshot? then if Locked(Build(m.update)) then b else b.(depth := Build(m.update), sequence := m.sequence)
    else if m.sequence <= b.sequence then b
    else b.(depth := Apply(b.depth, m.update), sequence := if Locked(Apply(b.depth, m.update)) then b.sequence else m.sequence)
  }

  /** The event, and the book carried on: emptied after a broken invariant. */
  function FoldRec(f: Folding, r: Rec, contiguous: bool): Folding {
    var b := BookFor(f.book, r.msg.epoch);
    var after, broken := Folded(b, r.msg), Broken(b, r.msg);
    Folding(
      f.events + [BookEvent(r, Gap(b, r.msg, contiguous), broken, after.depth)],
      Some(if broken.Some? then BookState(Empty(), -1, r.msg.epoch) else after),
      Some(r), f.offsets[r.msg.Snapshot? := r.offset], false)
  }

  function FoldNext(f: Folding, r: Rec, contiguous: bool): Folding {
    if f.raised then f else if OutOfOrder(f, r) then f.(raised := true) else FoldRec(f, r, contiguous)
  }

  function Fold(rs: seq<Rec>, contiguous: bool): Folding {
    if rs == [] then NothingFolded() else FoldNext(Fold(rs[..|rs| - 1], contiguous), rs[|rs| - 1], contiguous)
  }

  /** What the two crossing flags mean: some bid of the book the record asks for has reached
      some ask. Nothing else is flagged but a delta below the book. */
  lemma FlagMeans(b: BookState<real>, m: Message<real>)
    ensures var d := if m.Snapshot? then Build(m.update) else Apply(b.depth, m.update);
            var locks := exists p, q :: p in d.bids && q in d.asks && q <= p;
            && (Broken(b, m) == Some(SnapshotCrossed) <==> m.Snapshot? && locks)
            && (Broken(b, m) == Some(CrossedAfterDelta) <==> m.Delta? && m.sequence > b.sequence && locks)
            && (Broken(b, m) == Some(NonMonotonicSeq) <==> m.Delta? && m.sequence < b.sequence)
  {
    LockedMeans(if m.Snapshot? then Build(m.update) else Apply(b.depth, m.update));
  }

  // ---------- when the guards fire ----------

  predicate InOrder(rs: seq<Rec>) {
    KeySorted(rs) && OffsetsAscend(OfKind(rs, true)) && OffsetsAscend(OfKind(rs, false))
  }

  predicate Remembers(f: Folding, rs: seq<Rec>) {
    && (if rs == [] then f.prev.None? else f.prev == Some(rs[|rs| - 1]))
    && LastOffsets(f.offsets, rs)
  }

  predicate LastOffset(offsets: map<bool, int>, kind: bool, ofKind: seq<Rec>) {
    if ofKind == [] then kind !in offsets else kind in offsets && offsets[kind] == ofKind[|ofKind| - 1].offset
  }

  predicate LastOffsets(offsets: map<bool, int>, rs: seq<Rec>) {
    LastOffset(offsets, true, OfKind(rs, true)) && LastOffset(offsets, false, OfKind(rs, false))
  }

  lemma OffsetsPush(offsets: map<bool, int>, rs: seq<Rec>, r: Rec)
    requires LastOffsets(offsets, rs)
    ensures LastOffsets(offsets[r.msg.Snapshot? := r.offset], rs + [r])
  {
    OfKindPush(rs, r, true);
    OfKindPush(rs, r, false);
  }

  lemma SortedPushIff(rs: seq<Rec>, r: Rec)
    ensures KeySorted(rs + [r]) <==> KeySorted(rs) && (rs != [] ==> !KeyLess(r, rs[|rs| - 1]))
  {
    var all := rs + [r];
    if KeySorted(all) {
      assert forall i :: 0 <= i < |rs| ==> all[i] == rs[i];
      assert all[|rs|] == r;
    } else if KeySorted(rs) && (rs != [] ==> !KeyLess(r, rs[|rs| - 1])) {
      AppendSorted(rs, r);
    }
  }

  lemma AscendPushIff(rs: seq<Rec>, r: Rec)
    ensures OffsetsAscend(rs + [r]) <==> OffsetsAscend(rs) && (rs != [] ==> rs[|rs| - 1].offset <= r.offset)
  {
    var all := rs + [r];
    if OffsetsAscend(all) {
      assert forall i :: 0 <= i < |rs| ==> all[i] == rs[i];
      assert all[|rs|] == r;
    }
  }

  lemma OfKindPush(rs: seq<Rec>, r: Rec, snap: bool)
    ensures OfKind(rs + [r], snap) == if r.msg.Snapshot? == snap then OfKind(rs, snap) + [r] else OfKind(rs, snap)
  {
    assert (rs + [r])[..|rs|] == rs;
  }

  lemma InOrderPushIff(f: Folding, rs: seq<Rec>, r: Rec)
    requires Remembers(f, rs)
    ensures InOrder(rs + [r]) <==> InOrder(rs) && !OutOfOrder(f, r)
  {
    var kind := r.msg.Snapshot?;
    SortedPushIff(rs, r);
    OfKindPush(rs, r, true);
    OfKindPush(rs, r, false);
    AscendPushIff(OfKind(rs, kind), r);
  }

  lemma RemembersPush(f: Folding, rs: seq<Rec>, r: Rec, contiguous: bool)
    requires Remembers(f, rs)
    ensures Remembers(FoldRec(f, r, contiguous), rs + [r])
  {
    OffsetsPush(f.offsets, rs, r);
  }

  /** The fold raises exactly when the merged records leave the key order, or the records
      of one kind leave their arrival order. */
  lemma {:induction false} FoldRaisesIff(rs: seq<Rec>, contiguous: bool)
    ensures Fold(rs, contiguous).raised <==> !InOrder(rs)
    ensures !Fold(rs, contiguous).raised ==> Remembers(Fold(rs, contiguous), rs)
  {
    if rs != [] {
      var rest, r := rs[..|rs| - 1], rs[|rs| - 1];
      var f := Fold(rest, contiguous);
      assert rs == rest + [r];
      FoldRaisesIff(rest, contiguous);
      if f.raised {
        if InOrder(rs) {
          InOrderPrefix(rest, r);
        }
      } else {
        InOrderPushIff(f, rest, r);
        RemembersPush(f, rest, r, contiguous);
      }
    }
  }

  lemma InOrderPrefix(rs: seq<Rec>, r: Rec)
    requires InOrder(rs + [r])
    ensures InOrder(rs)
  {
    SortedPushIff(rs, r);
    OfKindPush(rs, r, true);
    OfKindPush(rs, r, false);
    AscendPushIff(OfKind(rs, r.msg.Snapshot?), r);
  }

  // ---------- the two callers ----------

  /** The streaming driver merges the streams as they arrived. */
  function FoldArrival(snaps: seq<Rec>, deltas: seq<Rec>, contiguous: bool): Folding {
    Fold(MergeByKey(snaps, deltas), contiguous)
  }

  /** The in-memory caller sorts each stream by the key first. */
  function FoldSorted(snaps: seq<Rec>, deltas: seq<Rec>, contiguous: bool): Folding {
    Fold(MergeByKey(SortByKey(snaps), SortByKey(deltas)), contiguous)
  }

  lemma ArrivedAscends(rs: seq<Rec>)
    requires Arrived(rs)
    ensures OffsetsAscend(rs)
  {
  }

  lemma ArrivalRaisesIff(snaps: seq<Rec>, deltas: seq<Rec>, contiguous: bool)
    requires AllOfKind(snaps, true) && AllOfKind(deltas, false) && Arrived(snaps) && Arrived(deltas)
    ensures FoldArrival(snaps, deltas, contiguous).raised <==> !(KeySorted(snaps) && KeySorted(deltas))
  {
    FoldRaisesIff(MergeByKey(snaps, deltas), contiguous);
    MergeKeepsKinds(snaps, deltas);
    MergeSortedIff(snaps, deltas);
    ArrivedAscends(snaps);
    ArrivedAscends(deltas);
  }

  lemma SortedKind(rs: seq<Rec>, snap: bool)
    requires AllOfKind(rs, snap)
    ensures AllOfKind(SortByKey(rs), snap)
  {
    SortByKeySorts(rs);
    forall i | 0 <= i < |SortByKey(rs)| ensures SortByKey(rs)[i].msg.Snapshot? == snap {
      assert SortByKey(rs)[i] in rs;
    }
  }

  lemma SortedRaisesIff(snaps: seq<Rec>, deltas: seq<Rec>, contiguous: bool)
    requires AllOfKind(snaps, true) && AllOfKind(deltas, false) && Arrived(snaps) && Arrived(deltas)
    ensures FoldSorted(snaps, deltas, contiguous).raised <==> !(KeySorted(snaps) && KeySorted(deltas))
  {
    var ss, ds := SortByKey(snaps), SortByKey(deltas);
    FoldRaisesIff(MergeByKey(ss, ds), contiguous);
    SortedKind(snaps, true);
    SortedKind(deltas, false);
    MergeKeepsKinds(ss, ds);
    SortByKeySorts(snaps);
    SortByKeySorts(deltas);
    MergeSorted(ss, ds);
    SortKeepsArrivalIff(snaps);
    SortKeepsArrivalIff(deltas);
  }

  /** For streams in arrival order both callers raise, or neither does: exactly when some
      stream is not in key order. If neither raises, they yield the same events. */
  lemma GuardsAgree(snaps: seq<Rec>, deltas: seq<Rec>, contiguous: bool)
    requires AllOfKind(snaps, true) && AllOfKind(deltas, false) && Arrived(snaps) && Arrived(deltas)
    ensures FoldArrival(snaps, deltas, contiguous).raised <==> FoldSorted(snaps, deltas, contiguous).raised
    ensures FoldArrival(snaps, deltas, contiguous).raised <==> !(KeySorted(snaps) && KeySorted(deltas))
    ensures !FoldArrival(snaps, deltas, contiguous).raised ==>
              FoldSorted(snaps, deltas, contiguous) == FoldArrival(snaps, deltas, contiguous)
  {
    ArrivalRaisesIff(snaps, deltas, contiguous);
    SortedRaisesIff(snaps, deltas, contiguous);
    if KeySorted(snaps) && KeySorted(deltas) {
      SortOfSorted(snaps);
      SortOfSorted(deltas);
    }
  }

  // ---------- what a gap counts ----------

  function GapsOver(b: BookState<real>, ms: seq<Message<real>>): nat {
    if ms == [] then 0 else GapsOver(b, ms[..|ms| - 1]) + Gap(FoldedOver(b, ms[..|ms| - 1]), ms[|ms| - 1], true)
  }

  function FoldedOver(b: BookState<real>, ms: seq<Message<real>>): BookState<real> {
    if ms == [] then b else Folded(FoldedOver(b, ms[..|ms| - 1]), ms[|ms| - 1])
  }

  /** How many of the deltas move the book on. */
  function Moves(b: BookState<real>, ms: seq<Message<real>>): nat {
    if ms == [] then 0
    else
      var before := FoldedOver(b, ms[..|ms| - 1]);
      Moves(b, ms[..|ms| - 1]) + if ms[|ms| - 1].sequence > before.sequence then 1 else 0
  }

  /** No delta of the run breaks an invariant. */
  predicate RunsClean(b: BookState<real>, ms: seq<Message<real>>) {
    forall i :: 0 <= i < |ms| ==> ms[i].Delta? && Broken(FoldedOver(b, ms[..i]), ms[i]).None?
  }

  lemma {:induction false} CleanPrefix(b: BookState<real>, ms: seq<Message<real>>)
    requires ms != [] && RunsClean(b, ms)
    ensures RunsClean(b, ms[..|ms| - 1])
    ensures ms[|ms| - 1].Delta? && Broken(FoldedOver(b, ms[..|ms| - 1]), ms[|ms| - 1]).None?
  {
    var rest := ms[..|ms| - 1];
    forall i | 0 <= i < |rest| ensures rest[i].Delta? && Broken(FoldedOver(b, rest[..i]), rest[i]).None? {
      assert rest[..i] == ms[..i] && rest[i] == ms[i];
    }
  }

  function Carried(ms: seq<Message<real>>): set<int> {
    set i | 0 <= i < |ms| :: ms[i].sequence
  }

  /** The numbers above `low`, up to `high`. */
  function Range(low: int, high: int): (r: set<int>)
    ensures forall n :: n in r <==> low < n <= high
    ensures |r| == if low < high then high - low else 0
    decreases high - low
  {
    if high <= low then {} else Range(low, high - 1) + {high}
  }

  /** The sequence numbers above `low`, up to `high`, that no delta carried. */
  function Missing(ms: seq<Message<real>>, low: int, high: int): set<int> {
    set n | n in Range(low, high) && n !in Carried(ms)
  }

  lemma CarriedPush(ms: seq<Message<real>>, m: Message<real>)
    ensures Carried(ms + [m]) == Carried(ms) + {m.sequence}
  {
    assert (ms + [m])[|ms|] == m;
    assert forall i :: 0 <= i < |ms| ==> (ms + [m])[i] == ms[i];
  }

  lemma FoldedPush(b: BookState<real>, ms: seq<Message<real>>, m: Message<real>)
    ensures var before := FoldedOver(b, ms);
            && FoldedOver(b, ms + [m]) == Folded(before, m)
            && GapsOver(b, ms + [m]) == GapsOver(b, ms) + Gap(before, m, true)
            && Moves(b, ms + [m]) == Moves(b, ms) + if m.sequence > before.sequence then 1 else 0
  {
    assert (ms + [m])[..|ms|] == ms;
  }

  /** `at` is `low` or the greatest number of `c`. */
  predicate Greatest(at: int, low: int, c: set<int>) {
    at >= low && (at == low || at in c) && forall n :: n in c ==> n <= at
  }

  lemma GreatestPush(at: int, low: int, c: set<int>, n: int)
    requires Greatest(at, low, c) && n >= at
    ensures Greatest(n, low, c + {n})
  {
  }

  /** The book stands at the greatest sequence carried, or where it began. */
  lemma {:induction false} StandsAtGreatest(b: BookState<real>, ms: seq<Message<real>>)
    requires RunsClean(b, ms)
    ensures Greatest(FoldedOver(b, ms).sequence, b.sequence, Carried(ms))
  {
    if ms == [] {
      assert Carried(ms) == {};
    } else {
      var rest, m := ms[..|ms| - 1], ms[|ms| - 1];
      assert ms == rest + [m];
      CleanPrefix(b, ms);
      StandsAtGreatest(b, rest);
      CarriedPush(rest, m);
      FoldedPush(b, rest, m);
      GreatestPush(FoldedOver(b, rest).sequence, b.sequence, Carried(rest), m.sequence);
    }
  }

  /** A delta at the book's place carries nothing new. */
  lemma MissingStays(ms: seq<Message<real>>, m: Message<real>, low: int)
    requires low == m.sequence || m.sequence in Carried(ms)
    ensures Missing(ms + [m], low, m.sequence) == Missing(ms, low, m.sequence)
  {
    CarriedPush(ms, m);
  }

  /** A delta above the book adds to the missing numbers those it skips. */
  lemma MissingGrows(ms: seq<Message<real>>, m: Message<real>, low: int, at: int)
    requires low <= at < m.sequence && forall n :: n in Carried(ms) ==> n <= at
    ensures |Missing(ms + [m], low, m.sequence)| == |Missing(ms, low, at)| + m.sequence - at - 1
  {
    CarriedPush(ms, m);
    var skipped := Range(at, m.sequence - 1);
    assert Missing(ms + [m], low, m.sequence) == Missing(ms, low, at) + skipped;
    assert Missing(ms, low, at) * skipped == {};
  }

  /** On a venue that numbers its deltas contiguously, the gaps of a run count exactly the
      sequence numbers between the book's first and last that no delta carried; each other
      number there moved the book once. */
  lemma {:induction false} GapsAreWhatIsMissing(b: BookState<real>, ms: seq<Message<real>>)
    requires b.sequence >= 0 && RunsClean(b, ms)
    ensures GapsOver(b, ms) == |Missing(ms, b.sequence, FoldedOver(b, ms).sequence)|
    ensures FoldedOver(b, ms).sequence == b.sequence + GapsOver(b, ms) + Moves(b, ms)
  {
    if ms == [] {
      assert Range(b.sequence, b.sequence) == {};
      assert Missing([], b.sequence, b.sequence) == {};
    } else {
      var rest, m := ms[..|ms| - 1], ms[|ms| - 1];
      assert ms == rest + [m];
      CleanPrefix(b, ms);
      GapsAreWhatIsMissing(b, rest);
      StandsAtGreatest(b, rest);
      FoldedPush(b, rest, m);
      var at := FoldedOver(b, rest).sequence;
      if m.sequence > at {
        MissingGrows(rest, m, b.sequence, at);
      } else {
        MissingStays(rest, m, b.sequence);
      }
    }
  }

  // ---------- the generator ----------

  /** Folds one record on the mutable book. */
  method FoldOnto(book: OrderBook, epoch: int, r: Rec, contiguous: bool) returns (event: BookEvent)
    modifies book
    ensures var b := BookState(old(book.Levels()), old(book.sequence), epoch);
            && event == BookEvent(r, Gap(b, r.msg, contiguous), Broken(b, r.msg), Folded(b, r.msg).depth)
            && BookState(book.Levels(), book.sequence, epoch)
               == if Broken(b, r.msg).Some? then BookState(Empty(), -1, epoch) else Folded(b, r.msg)
  {
    var gap: nat := 0;
    if r.msg.Delta? && contiguous && book.sequence >= 0 && r.msg.sequence > book.sequence + 1 {
      gap := r.msg.sequence - book.sequence - 1;
    }
    var violation := None;
    if r.msg.Snapshot? {
      violation := book.ApplySnapshot(r.msg.sequence, r.msg.update);
    } else if r.msg.sequence == book.sequence {
    } else {
      violation := book.ApplyDelta(r.msg.sequence, r.msg.update);
    }
    event := BookEvent(r, gap, violation, book.Levels());
    if violation.Some? {
      book.Clear();
    }
  }

  method FoldBook(rs: seq<Rec>, contiguous: bool) returns (events: seq<BookEvent>, raised: bool)
    ensures events == Fold(rs, contiguous).events && raised == Fold(rs, contiguous).raised
  {
    var book := new OrderBook();
    var epoch: Option<int>, prev: Option<Rec>, offsets: map<bool, int> := None, None, map[];
    events, raised := [], false;
    var i := 0;
    while i < |rs| && !raised
      invariant i <= |rs| && fresh(book)
      invariant Fold(rs[..i], contiguous) == Folding(events,
                  if epoch.None? then None else Some(BookState(book.Levels(), book.sequence, epoch.value)), prev, offsets, raised)
    {
      assert rs[..i + 1][..i] == rs[..i];
      var r := rs[i];
      i := i + 1;
      if (prev.Some? && KeyLess(r, prev.value)) || (r.msg.Snapshot? in offsets && r.offset < offsets[r.msg.Snapshot?]) {
        raised := true;
      } else {
        prev, offsets := Some(r), offsets[r.msg.Snapshot? := r.offset];
        if epoch.None? || epoch.value != r.msg.epoch {
          book := new OrderBook();
          epoch := Some(r.msg.epoch);
        }
        var event := FoldOnto(book, epoch.value, r, contiguous);
        events := events + [event];
      }
    }
    if i < |rs| {
      RaisedStays(rs, i, contiguous);
    } else {
      assert rs[..i] == rs;
    }
  }

  lemma {:induction false} RaisedStays(rs: seq<Rec>, i: nat, contiguous: bool)
    requires i <= |rs| && Fold(rs[..i], contiguous).raised
    ensures Fold(rs, contiguous) == Fold(rs[..i], contiguous)
    decreases |rs|
  {
    if i < |rs| {
      assert rs[..|rs| - 1][..i] == rs[..i];
      RaisedStays(rs[..|rs| - 1], i, contiguous);
    } else {
      assert rs[..i] == rs;
    }
  }
}
