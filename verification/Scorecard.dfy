/** The data-quality scorecard of one book partition: the whole-list oracle and the
    accumulator that is fed the same rows table by table. */
module Scorecard {
  import opened Levels
  import F = FoldOrder
  import O = OrderBook
  import S = Stream

  /** One book-quality row; `None` stands for a null column. */
  datatype Row = Row(
    isDelta: bool, seqGap: Option<int>, invariantKind: Option<string>, crossed: Option<bool>,
    bestBid: Option<real>, bestAsk: Option<real>, recv: Option<int>, epoch: int)

  datatype Reading = Reading(recv: int, epoch: int)

  /** Backward steps of the capture clock within an epoch, across epochs, and the worst. */
  datatype Clock = Clock(intra: nat, inter: nat, worst: nat)

  datatype GapStats = GapStats(gaps: nat, missing: int, maxGap: nat)

  datatype FlagStats = FlagStats(flagged: nat, byKind: multiset<string>, locked: nat)

  datatype Report = Report(records: nat, deltas: nat, gaps: GapStats, flags: FlagStats, clock: Clock)

  function Count(rows: seq<Row>, p: Row -> bool): nat {
    if rows == [] then 0 else Count(rows[..|rows| - 1], p) + if p(rows[|rows| - 1]) then 1 else 0
  }

  lemma {:induction false} CountConcat(a: seq<Row>, b: seq<Row>, p: Row -> bool)
    ensures Count(a + b, p) == Count(a, p) + Count(b, p)
  {
    if b == [] {
      assert a + b == a;
    } else {
      assert (a + b)[..|a + b| - 1] == a + b[..|b| - 1];
      CountConcat(a, b[..|b| - 1], p);
    }
  }

  predicate IsDelta(r: Row) {
    r.isDelta
  }

  // ---------- the columns ----------

  /** The gaps counted: those of deltas, above zero. */
  function Gaps(rows: seq<Row>): seq<int> {
    if rows == [] then []
    else
      var r := rows[|rows| - 1];
      if r.isDelta && r.seqGap.Some? && r.seqGap.value > 0 then Gaps(rows[..|rows| - 1]) + [r.seqGap.value] else Gaps(rows[..|rows| - 1])
  }

  function Sum(xs: seq<int>): int {
    if xs == [] then 0 else Sum(xs[..|xs| - 1]) + xs[|xs| - 1]
  }

  /** The greatest, or 0. */
  function Greatest(xs: seq<int>): nat {
    if xs == [] then 0 else Max(Greatest(xs[..|xs| - 1]), xs[|xs| - 1])
  }

  /** The invariant kinds of the rows a predicate flags. */
  function Kinds(rows: seq<Row>, p: Row -> bool): seq<string> {
    if rows == [] then []
    else
      var r := rows[|rows| - 1];
      if p(r) && r.invariantKind.Some? then Kinds(rows[..|rows| - 1], p) + [r.invariantKind.value] else Kinds(rows[..|rows| - 1], p)
  }

  /** The capture times of the deltas that carry one. */
  function Readings(rows: seq<Row>): seq<Reading> {
    if rows == [] then []
    else
      var r := rows[|rows| - 1];
      if r.isDelta && r.recv.Some? then Readings(rows[..|rows| - 1]) + [Reading(r.recv.value, r.epoch)] else Readings(rows[..|rows| - 1])
  }

  /** The steps so far and the reading they end at. */
  datatype Walked = Walked(clock: Clock, last: Option<Reading>)

  function Next(w: Walked, r: Reading): Walked {
    if w.last.None? || r.recv >= w.last.value.recv then Walked(w.clock, Some(r))
    else if r.epoch == w.last.value.epoch then
      Walked(Clock(w.clock.intra + 1, w.clock.inter, Max(w.clock.worst, w.last.value.recv - r.recv)), Some(r))
    else Walked(w.clock.(inter := w.clock.inter + 1), Some(r))
  }

  function Walk(w: Walked, rs: seq<Reading>): Walked {
    if rs == [] then w else Next(Walk(w, rs[..|rs| - 1]), rs[|rs| - 1])
  }

  const NO_STEPS := Clock(0, 0, 0)

  /** The backward steps between neighbours. */
  function Steps(rs: seq<Reading>): Clock {
    Walk(Walked(NO_STEPS, None), rs).clock
  }

  function StatsOf(xs: seq<int>): GapStats {
    GapStats(|xs|, Sum(xs), Greatest(xs))
  }

  function GapsOf(rows: seq<Row>): GapStats {
    StatsOf(Gaps(rows))
  }

  function FlagsOf(rows: seq<Row>, flagged: Row -> bool, locked: Row -> bool): FlagStats {
    FlagStats(|Kinds(rows, flagged)|, multiset(Kinds(rows, flagged)), Count(rows, locked))
  }

  function AddGaps(a: GapStats, b: GapStats): GapStats {
    GapStats(a.gaps + b.gaps, a.missing + b.missing, Max(a.maxGap, b.maxGap))
  }

  function AddFlags(a: FlagStats, b: FlagStats): FlagStats {
    FlagStats(a.flagged + b.flagged, a.byKind + b.byKind, a.locked + b.locked)
  }

  function Joined(a: Clock, b: Clock): Clock {
    Clock(a.intra + b.intra, a.inter + b.inter, Max(a.worst, b.worst))
  }

  lemma {:induction false} GapsConcat(a: seq<Row>, b: seq<Row>)
    ensures Gaps(a + b) == Gaps(a) + Gaps(b)
  {
    if b == [] {
      assert a + b == a;
    } else {
      assert (a + b)[..|a + b| - 1] == a + b[..|b| - 1];
      GapsConcat(a, b[..|b| - 1]);
    }
  }

  lemma {:induction false} KindsConcat(a: seq<Row>, b: seq<Row>, p: Row -> bool)
    ensures Kinds(a + b, p) == Kinds(a, p) + Kinds(b, p)
  {
    if b == [] {
      assert a + b == a;
    } else {
      assert (a + b)[..|a + b| - 1] == a + b[..|b| - 1];
      KindsConcat(a, b[..|b| - 1], p);
    }
  }

  lemma {:induction false} ReadingsConcat(a: seq<Row>, b: seq<Row>)
    ensures Readings(a + b) == Readings(a) + Readings(b)
  {
    if b == [] {
      assert a + b == a;
    } else {
      assert (a + b)[..|a + b| - 1] == a + b[..|b| - 1];
      ReadingsConcat(a, b[..|b| - 1]);
    }
  }

  lemma {:induction false} SumConcat(a: seq<int>, b: seq<int>)
    ensures Sum(a + b) == Sum(a) + Sum(b)
    ensures Greatest(a + b) == Max(Greatest(a), Greatest(b))
  {
    if b == [] {
      assert a + b == a;
    } else {
      assert (a + b)[..|a + b| - 1] == a + b[..|b| - 1];
      SumConcat(a, b[..|b| - 1]);
    }
  }

  function Carried(last: Option<Reading>, rs: seq<Reading>): seq<Reading> {
    if last.None? then rs else [last.value] + rs
  }

  function LastOf(rs: seq<Reading>): Option<Reading> {
    if rs == [] then None else Some(rs[|rs| - 1])
  }

  lemma {:induction false} WalkConcat(w: Walked, a: seq<Reading>, b: seq<Reading>)
    ensures Walk(w, a + b) == Walk(Walk(w, a), b)
  {
    if b == [] {
      assert a + b == a;
    } else {
      assert (a + b)[..|a + b| - 1] == a + b[..|b| - 1];
      WalkConcat(w, a, b[..|b| - 1]);
    }
  }

  lemma {:induction false} WalkEnds(w: Walked, rs: seq<Reading>)
    ensures Walk(w, rs).last == if rs == [] then w.last else LastOf(rs)
  {
  }

  lemma NextAdds(c: Clock, w: Walked, x: Reading)
    ensures Next(Walked(Joined(c, w.clock), w.last), x) == Walked(Joined(c, Next(w, x).clock), Next(w, x).last)
  {
  }

  /** The steps already counted add to those of the walk. */
  lemma {:induction false} WalkAdds(c: Clock, last: Option<Reading>, rs: seq<Reading>)
    ensures Walk(Walked(c, last), rs) == Walked(Joined(c, Walk(Walked(NO_STEPS, last), rs).clock), Walk(Walked(NO_STEPS, last), rs).last)
    decreases |rs|
  {
    if rs != [] {
      WalkAdds(c, last, rs[..|rs| - 1]);
      NextAdds(c, Walk(Walked(NO_STEPS, last), rs[..|rs| - 1]), rs[|rs| - 1]);
    }
  }

  lemma WalkCarried(last: Option<Reading>, rs: seq<Reading>)
    ensures Steps(Carried(last, rs)) == Walk(Walked(NO_STEPS, last), rs).clock
  {
    if last.Some? {
      WalkConcat(Walked(NO_STEPS, None), [last.value], rs);
      assert [last.value][..0] == [];
    }
  }

  // ---------- the oracle ----------

  /** A non-empty invariant kind: an empty string is not truthy. */
  predicate IsFlagged(r: Row) {
    r.invariantKind.Some? && r.invariantKind.value != ""
  }

  /** Two nulls are equal here. */
  predicate IsLocked(r: Row) {
    IsFlagged(r) && r.crossed == Some(true) && r.bestBid == r.bestAsk
  }

  function Oracle(rows: seq<Row>): Report {
    Report(|rows|, Count(rows, IsDelta), GapsOf(rows), FlagsOf(rows, IsFlagged, IsLocked), Steps(Readings(rows)))
  }

  /** The clock check as a loop over the rows, carrying the previous reading. */
  method ClockMonotonicRow(rows: seq<Row>) returns (n: nat, clock: Clock)
    ensures n == Count(rows, IsDelta) && clock == Steps(Readings(rows))
  {
    n := 0;
    var intra: nat, inter: nat, worst: nat := 0, 0, 0;
    var prev: Option<Reading> := None;
    for i := 0 to |rows|
      invariant n == Count(rows[..i], IsDelta)
      invariant Walked(Clock(intra, inter, worst), prev) == Walk(Walked(NO_STEPS, None), Readings(rows[..i]))
    {
      assert rows[..i + 1][..i] == rows[..i];
      var r := rows[i];
      if r.isDelta {
        n := n + 1;
        if r.recv.Some? {
          var before := Readings(rows[..i]);
          assert (before + [Reading(r.recv.value, r.epoch)])[..|before|] == before;
          if prev.Some? && r.recv.value < prev.value.recv {
            if r.epoch == prev.value.epoch {
              intra := intra + 1;
              worst := Max(worst, prev.value.recv - r.recv.value);
            } else {
              inter := inter + 1;
            }
          }
          prev := Some(Reading(r.recv.value, r.epoch));
        }
      }
    }
    assert rows[..|rows|] == rows;
    clock := Clock(intra, inter, worst);
  }

  // ---------- the accumulator ----------

  /** A valid, that is non-null, invariant kind. */
  predicate IsMarked(r: Row) {
    r.invariantKind.Some?
  }

  /** A null on either side is not equal here. */
  predicate IsSeenLocked(r: Row) {
    IsMarked(r) && r.crossed == Some(true) && r.bestBid.Some? && r.bestBid == r.bestAsk
  }

  /** The running report and the last reading carried between tables. */
  datatype Accumulator = Accumulator(report: Report, last: Option<Reading>)

  function Fresh(): Accumulator {
    Accumulator(Report(0, 0, GapStats(0, 0, 0), FlagStats(0, multiset{}, 0), NO_STEPS), None)
  }

  /** One table folded in, as the oracle would count its rows, the clock from the reading
      carried in. */
  function Fed(a: Accumulator, table: seq<Row>): Accumulator {
    var rs := Readings(table);
    Accumulator(
      Report(
        a.report.records + |table|, a.report.deltas + Count(table, IsDelta), AddGaps(a.report.gaps, GapsOf(table)),
        AddFlags(a.report.flags, FlagsOf(table, IsMarked, IsSeenLocked)), Joined(a.report.clock, Steps(Carried(a.last, rs)))),
      if rs == [] then a.last else LastOf(rs))
  }

  // ---------- columns and masks ----------

  function Column<T>(rows: seq<Row>, f: Row -> T): (c: seq<T>)
    ensures |c| == |rows|
    ensures forall i :: 0 <= i < |rows| ==> c[i] == f(rows[i])
  {
    seq(|rows|, i requires 0 <= i < |rows| => f(rows[i]))
  }

  function And(a: seq<bool>, b: seq<bool>): (m: seq<bool>)
    requires |a| == |b|
    ensures |m| == |a| && forall i :: 0 <= i < |a| ==> m[i] == (a[i] && b[i])
  {
    seq(|a|, i requires 0 <= i < |a| => a[i] && b[i])
  }

  function Not(a: seq<bool>): (m: seq<bool>)
    ensures |m| == |a| && forall i :: 0 <= i < |a| ==> m[i] == !a[i]
  {
    seq(|a|, i requires 0 <= i < |a| => !a[i])
  }

  function Trues(mask: seq<bool>): nat {
    if mask == [] then 0 else Trues(mask[..|mask| - 1]) + if mask[|mask| - 1] then 1 else 0
  }

  /** The entries of a column where the mask is set. */
  function Filter<T>(xs: seq<T>, mask: seq<bool>): seq<T>
    requires |xs| == |mask|
  {
    if xs == [] then []
    else if mask[|mask| - 1] then Filter(xs[..|xs| - 1], mask[..|mask| - 1]) + [xs[|xs| - 1]]
    else Filter(xs[..|xs| - 1], mask[..|mask| - 1])
  }

  /** Where an entry is less than the one before it. */
  function Falls(xs: seq<int>): (m: seq<bool>)
    requires xs != []
    ensures |m| == |xs| - 1 && forall i :: 0 <= i < |m| ==> m[i] == (xs[i + 1] < xs[i])
  {
    seq(|xs| - 1, i requires 0 <= i < |xs| - 1 => xs[i + 1] < xs[i])
  }

  function Repeats(xs: seq<int>): (m: seq<bool>)
    requires xs != []
    ensures |m| == |xs| - 1 && forall i :: 0 <= i < |m| ==> m[i] == (xs[i + 1] == xs[i])
  {
    seq(|xs| - 1, i requires 0 <= i < |xs| - 1 => xs[i + 1] == xs[i])
  }

  function Drops(xs: seq<int>): (ds: seq<int>)
    requires xs != []
    ensures |ds| == |xs| - 1 && forall i :: 0 <= i < |ds| ==> ds[i] == xs[i] - xs[i + 1]
  {
    seq(|xs| - 1, i requires 0 <= i < |xs| - 1 => xs[i] - xs[i + 1])
  }

  /** The clock check over the two columns: counts over neighbouring entries, and the greatest
      of the masked differences. */
  function ColumnClock(recv: seq<int>, epoch: seq<int>): Clock
    requires recv != [] && |recv| == |epoch|
  {
    var back, same := Falls(recv), Repeats(epoch);
    Clock(Trues(And(back, same)), Trues(And(back, Not(same))), Greatest(Filter(Drops(recv), And(back, same))))
  }

  /** Nulls filled as the column operations fill them. */
  function GapOrZero(r: Row): int {
    if r.seqGap.Some? then r.seqGap.value else 0
  }

  predicate HasGap(r: Row) {
    GapOrZero(r) > 0
  }

  function KindOrEmpty(r: Row): string {
    if r.invariantKind.Some? then r.invariantKind.value else ""
  }

  predicate IsCrossed(r: Row) {
    r.crossed.Some? && r.crossed.value
  }

  predicate SamePrices(r: Row) {
    r.bestBid.Some? && r.bestAsk.Some? && r.bestBid.value == r.bestAsk.value
  }

  predicate HasRecv(r: Row) {
    r.recv.Some?
  }

  function RecvOrZero(r: Row): int {
    if r.recv.Some? then r.recv.value else 0
  }

  function EpochOf(r: Row): int {
    r.epoch
  }

  function GapColumn(table: seq<Row>): seq<int> {
    Filter(Column(table, GapOrZero), And(Column(table, IsDelta), Column(table, HasGap)))
  }

  function KindColumn(table: seq<Row>): seq<string> {
    Filter(Column(table, KindOrEmpty), Column(table, IsMarked))
  }

  function LockedMask(table: seq<Row>): seq<bool> {
    And(And(Column(table, IsMarked), Column(table, IsCrossed)), Column(table, SamePrices))
  }

  function ClockMask(table: seq<Row>): (mask: seq<bool>)
    ensures |mask| == |table|
  {
    And(Column(table, IsDelta), Column(table, HasRecv))
  }

  function RecvColumn(table: seq<Row>): seq<int> {
    Filter(Column(table, RecvOrZero), ClockMask(table))
  }

  function EpochColumn(table: seq<Row>): (c: seq<int>)
    ensures |c| == |RecvColumn(table)|
  {
    FilterLengths(Column(table, RecvOrZero), Column(table, EpochOf), ClockMask(table));
    Filter(Column(table, EpochOf), ClockMask(table))
  }

  /** The clock and the reading carried on, from the two columns. */
  function ClockAfter(c: Clock, last: Option<Reading>, recv: seq<int>, epoch: seq<int>): (Clock, Option<Reading>)
    requires |recv| == |epoch|
  {
    if recv == [] then (c, last)
    else
      var end := Some(Reading(recv[|recv| - 1], epoch[|epoch| - 1]));
      if last.None? then (Joined(c, ColumnClock(recv, epoch)), end)
      else (Joined(c, ColumnClock([last.value.recv] + recv, [last.value.epoch] + epoch)), end)
  }

  /** One table, column by column. */
  function Absorb(a: Accumulator, table: seq<Row>): Accumulator {
    var flags := FlagStats(
      a.report.flags.flagged + Trues(Column(table, IsMarked)), a.report.flags.byKind + multiset(KindColumn(table)),
      a.report.flags.locked + Trues(LockedMask(table)));
    var clock := ClockAfter(a.report.clock, a.last, RecvColumn(table), EpochColumn(table));
    Accumulator(
      Report(
        a.report.records + |table|, a.report.deltas + Trues(Column(table, IsDelta)),
        AddGaps(a.report.gaps, StatsOf(GapColumn(table))), flags, clock.0),
      clock.1)
  }

  lemma {:induction false} FilterLengths<S, T>(xs: seq<S>, ys: seq<T>, mask: seq<bool>)
    requires |xs| == |ys| == |mask|
    ensures |Filter(xs, mask)| == |Filter(ys, mask)|
  {
    if xs != [] {
      FilterLengths(xs[..|xs| - 1], ys[..|ys| - 1], mask[..|mask| - 1]);
    }
  }

  function AbsorbAll(tables: seq<seq<Row>>): Accumulator {
    if tables == [] then Fresh() else Absorb(AbsorbAll(tables[..|tables| - 1]), tables[|tables| - 1])
  }

  // ---------- the columns count what the rows do ----------

  lemma ColumnPush<T>(rows: seq<Row>, f: Row -> T)
    requires rows != []
    ensures var c := Column(rows, f);
            c[..|c| - 1] == Column(rows[..|rows| - 1], f) && c[|c| - 1] == f(rows[|rows| - 1])
  {
  }

  lemma AndPush(a: seq<bool>, b: seq<bool>)
    requires |a| == |b| && a != []
    ensures var m := And(a, b);
            m[..|m| - 1] == And(a[..|a| - 1], b[..|b| - 1]) && m[|m| - 1] == (a[|a| - 1] && b[|b| - 1])
  {
  }

  lemma {:induction false} TruesIsCount(rows: seq<Row>, p: Row -> bool)
    ensures Trues(Column(rows, p)) == Count(rows, p)
  {
    if rows != [] {
      ColumnPush(rows, p);
      TruesIsCount(rows[..|rows| - 1], p);
    }
  }

  lemma {:induction false} GapColumnIsGaps(rows: seq<Row>)
    ensures GapColumn(rows) == Gaps(rows)
  {
    if rows != [] {
      ColumnPush(rows, GapOrZero);
      ColumnPush(rows, IsDelta);
      ColumnPush(rows, HasGap);
      AndPush(Column(rows, IsDelta), Column(rows, HasGap));
      GapColumnIsGaps(rows[..|rows| - 1]);
    }
  }

  lemma {:induction false} KindColumnIsKinds(rows: seq<Row>)
    ensures KindColumn(rows) == Kinds(rows, IsMarked)
  {
    if rows != [] {
      ColumnPush(rows, KindOrEmpty);
      ColumnPush(rows, IsMarked);
      KindColumnIsKinds(rows[..|rows| - 1]);
    }
  }

  lemma LockedMaskIs(rows: seq<Row>)
    ensures LockedMask(rows) == Column(rows, IsSeenLocked)
  {
  }

  function Recvs(rs: seq<Reading>): (xs: seq<int>)
    ensures |xs| == |rs| && forall i :: 0 <= i < |rs| ==> xs[i] == rs[i].recv
  {
    seq(|rs|, i requires 0 <= i < |rs| => rs[i].recv)
  }

  function Epochs(rs: seq<Reading>): (xs: seq<int>)
    ensures |xs| == |rs| && forall i :: 0 <= i < |rs| ==> xs[i] == rs[i].epoch
  {
    seq(|rs|, i requires 0 <= i < |rs| => rs[i].epoch)
  }

  lemma ReadingsSplit(rs: seq<Reading>, r: Reading)
    ensures Recvs(rs + [r]) == Recvs(rs) + [r.recv] && Epochs(rs + [r]) == Epochs(rs) + [r.epoch]
    ensures Recvs([r] + rs) == [r.recv] + Recvs(rs) && Epochs([r] + rs) == [r.epoch] + Epochs(rs)
  {
  }

  lemma {:induction false} ClockColumnsAreReadings(rows: seq<Row>)
    ensures RecvColumn(rows) == Recvs(Readings(rows)) && EpochColumn(rows) == Epochs(Readings(rows))
  {
    if rows != [] {
      var rest, r := rows[..|rows| - 1], rows[|rows| - 1];
      ColumnPush(rows, RecvOrZero);
      ColumnPush(rows, EpochOf);
      ColumnPush(rows, IsDelta);
      ColumnPush(rows, HasRecv);
      AndPush(Column(rows, IsDelta), Column(rows, HasRecv));
      ClockColumnsAreReadings(rest);
      ReadingsSplit(Readings(rest), Reading(RecvOrZero(r), r.epoch));
    }
  }

  lemma TruesPush(m: seq<bool>, b: bool)
    ensures Trues(m + [b]) == Trues(m) + if b then 1 else 0
  {
    assert (m + [b])[..|m|] == m;
  }

  lemma FilterPush<T>(xs: seq<T>, m: seq<bool>, x: T, b: bool)
    requires |xs| == |m|
    ensures Filter(xs + [x], m + [b]) == if b then Filter(xs, m) + [x] else Filter(xs, m)
  {
    assert (xs + [x])[..|xs|] == xs && (m + [b])[..|m|] == m;
  }

  lemma GreatestPush(xs: seq<int>, x: int)
    ensures Greatest(xs + [x]) == Max(Greatest(xs), x)
  {
    assert (xs + [x])[..|xs|] == xs;
  }

  /** What one more reading adds to the three columns of differences. */
  lemma ClockPush(recv: seq<int>, epoch: seq<int>, r: int, e: int)
    requires recv != [] && |recv| == |epoch|
    ensures var before, after := ColumnClock(recv, epoch), ColumnClock(recv + [r], epoch + [e]);
            var drop, same := recv[|recv| - 1] - r, e == epoch[|epoch| - 1];
            && after.intra == before.intra + (if drop > 0 && same then 1 else 0)
            && after.inter == before.inter + (if drop > 0 && !same then 1 else 0)
            && after.worst == if drop > 0 && same then Max(before.worst, drop) else before.worst
  {
    var back, same := Falls(recv), Repeats(epoch);
    var falls, repeats := r < recv[|recv| - 1], e == epoch[|epoch| - 1];
    assert Falls(recv + [r]) == back + [falls];
    assert Repeats(epoch + [e]) == same + [repeats];
    assert Drops(recv + [r]) == Drops(recv) + [recv[|recv| - 1] - r];
    MasksPush(back, same, falls, repeats);
    TruesPush(And(back, same), falls && repeats);
    TruesPush(And(back, Not(same)), falls && !repeats);
    FilterPush(Drops(recv), And(back, same), recv[|recv| - 1] - r, falls && repeats);
    GreatestPush(Filter(Drops(recv), And(back, same)), recv[|recv| - 1] - r);
  }

  lemma MasksPush(back: seq<bool>, same: seq<bool>, falls: bool, repeats: bool)
    requires |back| == |same|
    ensures And(back + [falls], same + [repeats]) == And(back, same) + [falls && repeats]
    ensures And(back + [falls], Not(same + [repeats])) == And(back, Not(same)) + [falls && !repeats]
  {
  }

  lemma WalkPush(rs: seq<Reading>, r: Reading)
    ensures Walk(Walked(NO_STEPS, None), rs + [r]) == Next(Walk(Walked(NO_STEPS, None), rs), r)
  {
    assert (rs + [r])[..|rs|] == rs;
  }

  lemma OneReading(r: Reading)
    ensures ColumnClock(Recvs([r]), Epochs([r])) == NO_STEPS == Steps([r])
  {
    assert [] + [r] == [r];
    WalkPush([], r);
    var back, same := Falls(Recvs([r])), Repeats(Epochs([r]));
    assert And(back, same) == [] && And(back, Not(same)) == [] && Drops(Recvs([r])) == [];
    assert Filter(Drops(Recvs([r])), And(back, same)) == [];
  }

  /** Neighbouring entries tell what the oracle's loop counts. */
  lemma {:induction false} ColumnClockIsSteps(rs: seq<Reading>)
    requires rs != []
    ensures ColumnClock(Recvs(rs), Epochs(rs)) == Steps(rs)
  {
    var rest, r := rs[..|rs| - 1], rs[|rs| - 1];
    assert rs == rest + [r];
    if rest == [] {
      OneReading(r);
      assert rs == [r];
    } else {
      ColumnClockIsSteps(rest);
      ReadingsSplit(rest, r);
      ClockPush(Recvs(rest), Epochs(rest), r.recv, r.epoch);
      WalkPush(rest, r);
      WalkEnds(Walked(NO_STEPS, None), rest);
    }
  }

  /** The clock goes back after the `i`-th reading, within its epoch or to another. */
  predicate GoesBack(rs: seq<Reading>, i: int, within: bool) {
    0 <= i < |rs| - 1 && rs[i + 1].recv < rs[i].recv && (rs[i + 1].epoch == rs[i].epoch) == within
  }

  function BackSteps(rs: seq<Reading>, within: bool): set<int> {
    set i | 0 <= i < |rs| && GoesBack(rs, i, within)
  }

  function DropAt(rs: seq<Reading>, i: int): int {
    if 0 <= i < |rs| - 1 then rs[i].recv - rs[i + 1].recv else 0
  }

  lemma GoesBackPush(rs: seq<Reading>, r: Reading, i: int, within: bool)
    requires rs != []
    ensures GoesBack(rs + [r], i, within)
            <==> if i == |rs| - 1 then r.recv < rs[i].recv && (r.epoch == rs[i].epoch) == within else GoesBack(rs, i, within)
    ensures DropAt(rs + [r], i) == if i == |rs| - 1 then rs[i].recv - r.recv else DropAt(rs, i)
  {
  }

  lemma BackStepsPush(rs: seq<Reading>, r: Reading, within: bool)
    requires rs != []
    ensures |rs| - 1 !in BackSteps(rs, within)
    ensures var last := rs[|rs| - 1];
            BackSteps(rs + [r], within)
            == BackSteps(rs, within) + if r.recv < last.recv && (r.epoch == last.epoch) == within then {|rs| - 1} else {}
  {
    forall i ensures i in BackSteps(rs + [r], within) <==>
                     if i == |rs| - 1 then GoesBack(rs + [r], i, within) else i in BackSteps(rs, within)
    {
      GoesBackPush(rs, r, i, within);
    }
  }

  /** The greatest drop at the given places, or 0. */
  predicate IsWorst(rs: seq<Reading>, places: set<int>, worst: nat) {
    && (forall i :: i in places ==> DropAt(rs, i) <= worst)
    && (worst == 0 || exists i :: i in places && DropAt(rs, i) == worst)
  }

  lemma WorstPush(rs: seq<Reading>, r: Reading, places: set<int>, worst: nat)
    requires rs != [] && IsWorst(rs, places, worst) && forall i :: i in places ==> i < |rs| - 1
    ensures IsWorst(rs + [r], places, worst)
    ensures r.recv < rs[|rs| - 1].recv ==> IsWorst(rs + [r], places + {|rs| - 1}, Max(worst, rs[|rs| - 1].recv - r.recv))
  {
    var k, all := |rs| - 1, rs + [r];
    GoesBackPush(rs, r, k, true);
    forall i | i in places ensures DropAt(all, i) == DropAt(rs, i) {
      GoesBackPush(rs, r, i, true);
    }
    assert k in places + {k};
  }

  /** What the clock check reports: how many neighbours go back within an epoch and across
      epochs, and by how much the worst within one does. */
  lemma {:induction false} StepsAre(rs: seq<Reading>)
    ensures Steps(rs).intra == |BackSteps(rs, true)| && Steps(rs).inter == |BackSteps(rs, false)|
    ensures IsWorst(rs, BackSteps(rs, true), Steps(rs).worst)
  {
    if |rs| > 1 {
      var rest, r := rs[..|rs| - 1], rs[|rs| - 1];
      assert rs == rest + [r];
      StepsAre(rest);
      StepsPush(rest, r);
      BackStepsPush(rest, r, true);
      BackStepsPush(rest, r, false);
      WorstPush(rest, r, BackSteps(rest, true), Steps(rest).worst);
    } else if |rs| == 1 {
      OneReading(rs[0]);
      assert rs == [rs[0]];
    }
  }

  lemma StepsPush(rs: seq<Reading>, r: Reading)
    requires rs != []
    ensures var c, last := Steps(rs), rs[|rs| - 1];
            Steps(rs + [r])
            == if r.recv >= last.recv then c
               else if r.epoch == last.epoch then Clock(c.intra + 1, c.inter, Max(c.worst, last.recv - r.recv))
               else Clock(c.intra, c.inter + 1, c.worst)
  {
    WalkPush(rs, r);
    WalkEnds(Walked(NO_STEPS, None), rs);
  }

  lemma NothingCarried(last: Option<Reading>)
    ensures Steps(Carried(last, [])) == NO_STEPS
  {
    WalkCarried(last, []);
  }

  lemma ClockAfterIs(c: Clock, last: Option<Reading>, rs: seq<Reading>)
    ensures ClockAfter(c, last, Recvs(rs), Epochs(rs))
            == (Joined(c, Steps(Carried(last, rs))), if rs == [] then last else LastOf(rs))
  {
    if rs == [] {
      NothingCarried(last);
    } else {
      ColumnClockIsSteps(Carried(last, rs));
      if last.Some? {
        ReadingsSplit(rs, last.value);
      }
    }
  }

  lemma FlagColumns(table: seq<Row>)
    ensures FlagsOf(table, IsMarked, IsSeenLocked)
            == FlagStats(Trues(Column(table, IsMarked)), multiset(KindColumn(table)), Trues(LockedMask(table)))
  {
    TruesIsCount(table, IsMarked);
    LockedMaskIs(table);
    TruesIsCount(table, IsSeenLocked);
    KindColumnIsKinds(table);
    KindCounts(table);
  }

  /** So the columnar fold of a table is the row by row one. */
  lemma ColumnsAreRows(a: Accumulator, table: seq<Row>)
    ensures Absorb(a, table) == Fed(a, table)
  {
    TruesIsCount(table, IsDelta);
    GapColumnIsGaps(table);
    FlagColumns(table);
    ClockColumnsAreReadings(table);
    ClockAfterIs(a.report.clock, a.last, Readings(table));
  }

  function Flat(tables: seq<seq<Row>>): seq<Row> {
    if tables == [] then [] else Flat(tables[..|tables| - 1]) + tables[|tables| - 1]
  }

  /** What the accumulator holds of the rows it was fed, however they were split. */
  function Totals(rows: seq<Row>): Report {
    Report(|rows|, Count(rows, IsDelta), GapsOf(rows), FlagsOf(rows, IsMarked, IsSeenLocked), Steps(Readings(rows)))
  }

  lemma CarryJoins(a: seq<Reading>, b: seq<Reading>)
    ensures Steps(a + b) == Joined(Steps(a), Steps(Carried(LastOf(a), b)))
  {
    var start := Walked(NO_STEPS, None);
    WalkConcat(start, a, b);
    WalkEnds(start, a);
    WalkAdds(Steps(a), LastOf(a), b);
    WalkCarried(LastOf(a), b);
  }

  lemma LastJoins(a: seq<Reading>, b: seq<Reading>)
    ensures LastOf(a + b) == if b == [] then LastOf(a) else LastOf(b)
  {
    if b == [] {
      assert a + b == a;
    }
  }

  lemma GapsAdd(a: seq<Row>, b: seq<Row>)
    ensures GapsOf(a + b) == AddGaps(GapsOf(a), GapsOf(b))
  {
    GapsConcat(a, b);
    StatsConcat(Gaps(a), Gaps(b));
  }

  lemma {:induction false} StatsConcat(xs: seq<int>, ys: seq<int>)
    ensures StatsOf(xs + ys) == AddGaps(StatsOf(xs), StatsOf(ys))
  {
    var zs := xs + ys;
    SumConcat(xs, ys);
    assert StatsOf(zs) == GapStats(|xs| + |ys|, Sum(zs), Greatest(zs));
  }

  lemma FlagsAdd(a: seq<Row>, b: seq<Row>, flagged: Row -> bool, locked: Row -> bool)
    ensures FlagsOf(a + b, flagged, locked) == AddFlags(FlagsOf(a, flagged, locked), FlagsOf(b, flagged, locked))
  {
    KindsConcat(a, b, flagged);
    CountConcat(a, b, locked);
  }

  lemma AbsorbAdds(rows: seq<Row>, table: seq<Row>)
    ensures Absorb(Accumulator(Totals(rows), LastOf(Readings(rows))), table)
            == Accumulator(Totals(rows + table), LastOf(Readings(rows + table)))
  {
    ColumnsAreRows(Accumulator(Totals(rows), LastOf(Readings(rows))), table);
    GapsAdd(rows, table);
    FlagsAdd(rows, table, IsMarked, IsSeenLocked);
    CountConcat(rows, table, IsDelta);
    ReadingsConcat(rows, table);
    CarryJoins(Readings(rows), Readings(table));
    LastJoins(Readings(rows), Readings(table));
  }

  /** The splitting of the rows into tables is immaterial, clock steps across a table
      boundary included. */
  lemma {:induction false} ChunksDoNotMatter(tables: seq<seq<Row>>)
    ensures AbsorbAll(tables) == Accumulator(Totals(Flat(tables)), LastOf(Readings(Flat(tables))))
  {
    if tables != [] {
      ChunksDoNotMatter(tables[..|tables| - 1]);
      AbsorbAdds(Flat(tables[..|tables| - 1]), tables[|tables| - 1]);
    }
  }

  // ---------- where the two agree ----------

  predicate NoEmptyKind(rows: seq<Row>) {
    forall i :: 0 <= i < |rows| ==> rows[i].invariantKind != Some("")
  }

  /** A flagged, crossed row with neither side quoted. */
  predicate IsNullLocked(r: Row) {
    IsFlagged(r) && r.crossed == Some(true) && r.bestBid.None? && r.bestAsk.None?
  }

  predicate NoNullLocked(rows: seq<Row>) {
    forall i :: 0 <= i < |rows| ==> !IsNullLocked(rows[i])
  }

  lemma {:induction false} CountOrder(rows: seq<Row>, p: Row -> bool, q: Row -> bool)
    requires forall i :: 0 <= i < |rows| && p(rows[i]) ==> q(rows[i])
    ensures Count(rows, p) <= Count(rows, q)
    ensures Count(rows, p) == Count(rows, q) <==> forall i :: 0 <= i < |rows| && q(rows[i]) ==> p(rows[i])
  {
    if rows != [] {
      var rest := rows[..|rows| - 1];
      CountOrder(rest, p, q);
      assert rows[|rest|] == rows[|rows| - 1];
      assert forall i :: 0 <= i < |rest| ==> rest[i] == rows[i];
    }
  }

  lemma {:induction false} KindCounts(rows: seq<Row>)
    ensures |Kinds(rows, IsMarked)| == Count(rows, IsMarked)
    ensures |Kinds(rows, IsFlagged)| == Count(rows, IsFlagged)
  {
    if rows != [] {
      KindCounts(rows[..|rows| - 1]);
    }
  }

  lemma {:induction false} SameKinds(rows: seq<Row>)
    requires NoEmptyKind(rows)
    ensures Kinds(rows, IsMarked) == Kinds(rows, IsFlagged)
  {
    if rows != [] {
      SameKinds(rows[..|rows| - 1]);
    }
  }

  /** The flag counts agree exactly when no kind is the empty string. */
  lemma FlagsAgreeIff(rows: seq<Row>)
    ensures Totals(rows).flags.flagged == Oracle(rows).flags.flagged <==> NoEmptyKind(rows)
  {
    KindCounts(rows);
    CountOrder(rows, IsFlagged, IsMarked);
  }

  /** A crossed row with equal quoted prices and the empty string as its kind. */
  predicate IsEmptyLocked(r: Row) {
    r.invariantKind == Some("") && r.crossed == Some(true) && r.bestBid.Some? && r.bestBid == r.bestAsk
  }

  lemma {:induction false} LockedDiffers(rows: seq<Row>)
    ensures Count(rows, IsSeenLocked) + Count(rows, IsNullLocked) == Count(rows, IsLocked) + Count(rows, IsEmptyLocked)
  {
    if rows != [] {
      LockedDiffers(rows[..|rows| - 1]);
    }
  }

  /** The locked counts agree exactly when as many crossed rows are locked by the accumulator
      alone, their kind being empty, as are by the oracle alone, both prices being null. */
  lemma LockedAgreesIff(rows: seq<Row>)
    ensures Totals(rows).flags.locked == Oracle(rows).flags.locked <==>
            Count(rows, IsEmptyLocked) == Count(rows, IsNullLocked)
  {
    LockedDiffers(rows);
  }

  lemma {:induction false} CountNone(rows: seq<Row>, p: Row -> bool)
    ensures Count(rows, p) == 0 <==> forall i :: 0 <= i < |rows| ==> !p(rows[i])
  {
    if rows != [] {
      var rest := rows[..|rows| - 1];
      CountNone(rest, p);
      assert rows == rest + [rows[|rest|]];
      assert forall i :: 0 <= i < |rest| ==> rest[i] == rows[i];
    }
  }

  /** Where no kind is empty: exactly when no flagged crossed row has both prices null. */
  lemma LockedAgreesWithoutEmpty(rows: seq<Row>)
    requires NoEmptyKind(rows)
    ensures Totals(rows).flags.locked == Oracle(rows).flags.locked <==> NoNullLocked(rows)
  {
    LockedAgreesIff(rows);
    CountNone(rows, IsEmptyLocked);
    CountNone(rows, IsNullLocked);
  }

  /** For every splitting of a partition's rows into tables: records, gaps, coverage and
      clock always equal the oracle's, and the whole report does exactly when no kind is
      empty and no flagged crossed row lacks both prices. */
  lemma AccumulatorIsOracle(tables: seq<seq<Row>>)
    ensures var got, want := AbsorbAll(tables).report, Oracle(Flat(tables));
            && got.records == want.records && got.deltas == want.deltas
            && got.gaps == want.gaps && got.clock == want.clock
            && (got == want <==> NoEmptyKind(Flat(tables)) && NoNullLocked(Flat(tables)))
  {
    ChunksDoNotMatter(tables);
    FlagsAgreeIff(Flat(tables));
    if NoEmptyKind(Flat(tables)) {
      SameKinds(Flat(tables));
      LockedAgreesWithoutEmpty(Flat(tables));
    }
  }

  // ---------- rows the fold writes ----------

  function KindName(v: O.Violation): string {
    match v
    case SnapshotCrossed => "snapshot_crossed"
    case NonMonotonicSeq => "non_monotonic_seq"
    case CrossedAfterDelta => "crossed_after_delta"
  }

  /** The quality row of a fold's event; the capture time comes with the record. */
  function RowOf(e: F.BookEvent, recv: Option<int>): Row {
    var bids, asks := e.depth.bids.Keys, e.depth.asks.Keys;
    Row(
      e.rec.msg.Delta?, Some(e.gap), if e.violation.None? then None else Some(KindName(e.violation.value)),
      Some(e.violation.Some? && !e.violation.value.NonMonotonicSeq?),
      if bids == {} then None else Some(MaxOf(bids)), if asks == {} then None else Some(MinOf(asks)),
      recv, e.rec.msg.epoch)
  }

  function RowsOf(events: seq<F.BookEvent>, recvs: seq<Option<int>>): (rows: seq<Row>)
    requires |events| == |recvs|
    ensures |rows| == |events| && forall i :: 0 <= i < |events| ==> rows[i] == RowOf(events[i], recvs[i])
  {
    seq(|events|, i requires 0 <= i < |events| => RowOf(events[i], recvs[i]))
  }

  /** The record broke the book by crossing or locking it, and left both sides empty. */
  predicate CrossedOnNothing(e: F.BookEvent) {
    && e.violation.Some? && !e.violation.value.NonMonotonicSeq?
    && e.depth.bids.Keys == {} && e.depth.asks.Keys == {}
  }

  predicate SomeCrossedOnNothing(events: seq<F.BookEvent>) {
    exists i :: 0 <= i < |events| && CrossedOnNothing(events[i])
  }

  lemma RowIsNullLockedIff(e: F.BookEvent, recv: Option<int>)
    ensures IsNullLocked(RowOf(e, recv)) <==> CrossedOnNothing(e)
    ensures RowOf(e, recv).invariantKind != Some("")
  {
  }

  /** On rows the fold writes, however they are split, the accumulator reports what the oracle
      does if and only if no record crossed a book that it left empty on both sides. */
  lemma FoldRowsAgreeIff(events: seq<F.BookEvent>, recvs: seq<Option<int>>, tables: seq<seq<Row>>)
    requires |events| == |recvs| && Flat(tables) == RowsOf(events, recvs)
    ensures AbsorbAll(tables).report == Oracle(RowsOf(events, recvs)) <==> !SomeCrossedOnNothing(events)
  {
    var rows := RowsOf(events, recvs);
    AccumulatorIsOracle(tables);
    forall i | 0 <= i < |events|
      ensures rows[i].invariantKind != Some("") && (IsNullLocked(rows[i]) <==> CrossedOnNothing(events[i]))
    {
      RowIsNullLockedIff(events[i], recvs[i]);
    }
  }

  // ---------- a partition on which they differ ----------

  /** A connection's first snapshot, with its best bid at its best ask. */
  const LOCKED_AT_50: F.Rec :=
    F.Rec(0, S.Snapshot(1, 0, Update([Change(50.0, Some(1.0))], [Change(50.0, Some(1.0))]), S.Stamp(1, 2)))

  const REFUSED: F.BookEvent := F.BookEvent(LOCKED_AT_50, 0, Some(O.SnapshotCrossed), Empty())

  /** The fold refuses it, and writes a flagged row for an empty book. */
  lemma FirstSnapshotRefused()
    ensures F.Fold([LOCKED_AT_50], false).events == [REFUSED] && !F.Fold([LOCKED_AT_50], false).raised
  {
    assert [Change(50.0, Some(1.0))][..0] == [] && [LOCKED_AT_50][..0] == [];
    var d := Build(LOCKED_AT_50.msg.update);
    assert d.bids.Keys == {50.0} && d.asks.Keys == {50.0};
  }

  /** The concrete failure: that one row is locked to the oracle, whose null prices are equal,
      and not to the accumulator. */
  lemma NullPricesDiffer()
    ensures F.Fold([LOCKED_AT_50], false).events == [REFUSED]
    ensures var rows := RowsOf([REFUSED], [None]);
            Oracle(rows).flags.locked == 1 && AbsorbAll([rows]).report.flags.locked == 0
  {
    FirstSnapshotRefused();
    var rows := RowsOf([REFUSED], [None]);
    var r := RowOf(REFUSED, None);
    assert rows == [r] && rows[..0] == [];
    OneRow(r);
    assert [rows][..0] == [] && Flat([rows]) == [] + rows && [] + rows == rows;
    ChunksDoNotMatter([rows]);
  }

  lemma OneRow(r: Row)
    ensures Count([r], IsLocked) == (if IsLocked(r) then 1 else 0)
    ensures Count([r], IsSeenLocked) == (if IsSeenLocked(r) then 1 else 0)
  {
    assert [r][..0] == [];
  }

  lemma FedNothing(a: Accumulator)
    ensures Fed(a, []) == a
  {
    NothingCarried(a.last);
  }

  class BookCheckAccumulator {
    var report: Report
    var last: Option<Reading>

    function Value(): Accumulator
      reads this
    {
      Accumulator(report, last)
    }

    constructor ()
      ensures Value() == Fresh()
    {
      report, last := Fresh().report, None;
    }

    /** One table, column by column; what it adds is what its rows add one by one. */
    method Update(table: seq<Row>)
      modifies this
      ensures Value() == Fed(old(Value()), table)
    {
      FedNothing(Value());
      if table == [] {
        return;
      }
      TruesIsCount(table, IsDelta);
      GapColumnIsGaps(table);
      FlagColumns(table);
      report := report.(records := report.records + |table|, deltas := report.deltas + Trues(Column(table, IsDelta)));
      var gaps := GapColumn(table);
      if gaps != [] {
        report := report.(gaps := AddGaps(report.gaps, StatsOf(gaps)));
      }
      var marked, kinds, locked := Column(table, IsMarked), KindColumn(table), LockedMask(table);
      report := report.(flags := AddFlags(report.flags, FlagStats(Trues(marked), multiset(kinds), Trues(locked))));
      ClockUpdate(table);
    }

    /** The steps of this table, from the reading carried in. */
    method ClockUpdate(table: seq<Row>)
      modifies this
      ensures report == old(report).(clock := Joined(old(report).clock, Steps(Carried(old(last), Readings(table)))))
      ensures last == if Readings(table) == [] then old(last) else LastOf(Readings(table))
    {
      ClockColumnsAreReadings(table);
      ClockAfterIs(report.clock, last, Readings(table));
      var recv, epoch := RecvColumn(table), EpochColumn(table);
      if |recv| == 0 {
        return;
      }
      var end := Reading(recv[|recv| - 1], epoch[|epoch| - 1]);
      if last.Some? {
        recv, epoch := [last.value.recv] + recv, [last.value.epoch] + epoch;
      }
      report := report.(clock := Joined(report.clock, ColumnClock(recv, epoch)));
      last := Some(end);
    }
  }
}
