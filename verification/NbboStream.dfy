/** The offline NBBO: the in-memory oracle and the streaming path that must equal it. */
module NbboStream {
  import opened Decimal
  import opened Names
  import opened Levels
  import opened AsOf
  import opened Merge

  /** A venue's quote with the time it was made; `None` in its stream evicts the leg. */
  datatype Quote = Quote(ts: int, bid: real, ask: real)

  type Leg = Option<Quote>

  /** What is stored for one venue: its quotes in fold order and its down transitions. */
  datatype Feed = Feed(quotes: seq<Quote>, downs: seq<int>)

  function QuoteEvents(qs: seq<Quote>): seq<Timed<Leg>> {
    seq(|qs|, i requires 0 <= i < |qs| => Timed(qs[i].ts, Some(qs[i])))
  }

  function Sentinels(downs: seq<int>): seq<Timed<Leg>> {
    seq(|downs|, i requires 0 <= i < |downs| => Timed(downs[i], None))
  }

  // ---------- the two ways to a venue's stream ----------

  /** The oracle: quotes, then sentinels, in one stable sort. */
  function OracleStream(f: Feed): seq<Timed<Leg>> {
    StableSort(QuoteEvents(f.quotes) + Sentinels(f.downs))
  }

  function InsertTime(ts: seq<int>, t: int): seq<int> {
    if ts == [] || ts[|ts| - 1] <= t then ts + [t] else InsertTime(ts[..|ts| - 1], t) + [ts[|ts| - 1]]
  }

  function SortTimes(ts: seq<int>): seq<int> {
    if ts == [] then [] else InsertTime(SortTimes(ts[..|ts| - 1]), ts[|ts| - 1])
  }

  /** The streaming driver: quotes re-sorted within the window, merged with the sorted
      sentinels, quotes first on a tie. */
  function StreamedStream(f: Feed, window: int): seq<Timed<Leg>> {
    MergeTwo(Output(AcceptAll(QuoteEvents(f.quotes), window)), Sentinels(SortTimes(f.downs)))
  }

  lemma SentinelsPush(ts: seq<int>, t: int)
    ensures Sentinels(ts + [t]) == Sentinels(ts) + [Timed(t, None)]
  {
  }

  lemma {:induction false} SentinelsInsert(ts: seq<int>, t: int)
    ensures Sentinels(InsertTime(ts, t)) == Insert(Sentinels(ts), Timed(t, None))
  {
    if ts == [] || ts[|ts| - 1] <= t {
      SentinelsPush(ts, t);
    } else {
      var rest, last := ts[..|ts| - 1], ts[|ts| - 1];
      SentinelsInsert(rest, t);
      SentinelsPush(InsertTime(rest, t), last);
      assert Sentinels(ts)[..|ts| - 1] == Sentinels(rest);
    }
  }

  lemma {:induction false} SentinelsSort(ts: seq<int>)
    ensures Sentinels(SortTimes(ts)) == StableSort(Sentinels(ts))
  {
    if ts != [] {
      var rest, last := ts[..|ts| - 1], ts[|ts| - 1];
      SentinelsSort(rest);
      SentinelsInsert(SortTimes(rest), last);
      assert Sentinels(ts)[..|ts| - 1] == Sentinels(rest);
    }
  }

  /** Unless a quote is too late to place, both paths give the same stream. */
  lemma StreamedIsOracle(f: Feed, window: int)
    requires !AnyTooLate(QuoteEvents(f.quotes), window)
    ensures StreamedStream(f, window) == OracleStream(f)
  {
    var qs := QuoteEvents(f.quotes);
    ReorderRaisesIff(qs, window);
    ReorderIsStableSort(qs, window);
    SentinelsSort(f.downs);
    MergeTwoIsSort(qs, Sentinels(f.downs));
  }

  // ---------- one tick ----------

  /** The venues whose leg is neither evicted nor older than the allowed age. */
  function Live(ts: int, snap: map<string, Leg>, maxAge: int): map<string, Quote> {
    map v | v in snap && snap[v].Some? && ts - snap[v].value.ts <= maxAge :: snap[v].value
  }

  predicate BidAbove(live: map<string, Quote>, u: string, v: string)
    requires u in live && v in live
  {
    live[u].bid > live[v].bid || (live[u].bid == live[v].bid && LexLess(v, u))
  }

  predicate AskBelow(live: map<string, Quote>, u: string, v: string)
    requires u in live && v in live
  {
    live[u].ask < live[v].ask || (live[u].ask == live[v].ask && LexLess(u, v))
  }

  predicate IsBidWinner(live: map<string, Quote>, w: string) {
    w in live && forall v :: v in live && v != w ==> BidAbove(live, w, v)
  }

  predicate IsAskWinner(live: map<string, Quote>, w: string) {
    w in live && forall v :: v in live && v != w ==> AskBelow(live, w, v)
  }

  lemma OneBidWinner(live: map<string, Quote>, w: string, x: string)
    requires IsBidWinner(live, w) && IsBidWinner(live, x)
    ensures w == x
  {
    LexTotal(w, x);
  }

  lemma OneAskWinner(live: map<string, Quote>, w: string, x: string)
    requires IsAskWinner(live, w) && IsAskWinner(live, x)
    ensures w == x
  {
    LexTotal(w, x);
  }

  lemma BidAboveExtends(live: map<string, Quote>, u: string, v: string, w: string)
    requires u in live && v in live && w in live && BidAbove(live, u, v) && BidAbove(live, v, w)
    ensures BidAbove(live, u, w)
  {
    if live[u].bid == live[w].bid {
      LexTransitive(w, v, u);
    }
  }

  lemma AskBelowExtends(live: map<string, Quote>, u: string, v: string, w: string)
    requires u in live && v in live && w in live && AskBelow(live, u, v) && AskBelow(live, v, w)
    ensures AskBelow(live, u, w)
  {
    if live[u].ask == live[w].ask {
      LexTransitive(u, v, w);
    }
  }

  /** `max` over the live venues by bid, then name, in the order the dict yields them. */
  method BidWinner(live: map<string, Quote>, names: seq<string>) returns (w: string)
    requires names != [] && forall v :: v in names <==> v in live
    ensures IsBidWinner(live, w)
  {
    w := names[0];
    for i := 1 to |names|
      invariant w in live
      invariant forall j :: 0 <= j < i && names[j] != w ==> BidAbove(live, w, names[j])
    {
      var v := names[i];
      LexTotal(v, w);
      if BidAbove(live, v, w) {
        forall j | 0 <= j < i && names[j] != v ensures BidAbove(live, v, names[j]) {
          if names[j] != w {
            BidAboveExtends(live, v, w, names[j]);
          }
        }
        w := v;
      }
    }
  }

  /** `min` over the live venues by ask, then name. */
  method AskWinner(live: map<string, Quote>, names: seq<string>) returns (w: string)
    requires names != [] && forall v :: v in names <==> v in live
    ensures IsAskWinner(live, w)
  {
    w := names[0];
    for i := 1 to |names|
      invariant w in live
      invariant forall j :: 0 <= j < i && names[j] != w ==> AskBelow(live, w, names[j])
    {
      var v := names[i];
      LexTotal(v, w);
      if AskBelow(live, v, w) {
        forall j | 0 <= j < i && names[j] != v ensures AskBelow(live, v, names[j]) {
          if names[j] != w {
            AskBelowExtends(live, v, w, names[j]);
          }
        }
        w := v;
      }
    }
  }

  datatype Row = Row(ts: int, bid: real, ask: real, bidVenue: string, askVenue: string, venues: nat)

  /** The row of a tick with a live venue, told by what makes its venues the winners. */
  predicate IsRow(row: Row, ts: int, live: map<string, Quote>) {
    && row.ts == ts && row.venues == |live|
    && IsBidWinner(live, row.bidVenue) && row.bid == live[row.bidVenue].bid
    && IsAskWinner(live, row.askVenue) && row.ask == live[row.askVenue].ask
  }

  lemma OneRow(a: Row, b: Row, ts: int, live: map<string, Quote>)
    requires IsRow(a, ts, live) && IsRow(b, ts, live)
    ensures a == b
  {
    OneBidWinner(live, a.bidVenue, b.bidVenue);
    OneAskWinner(live, a.askVenue, b.askVenue);
  }

  // ---------- all ticks ----------

  /** One row for each tick with a live venue, in tick order. */
  predicate AreRows(rows: seq<Row>, ticks: seq<Timed<map<string, Leg>>>, maxAge: int) {
    if ticks == [] then rows == []
    else
      var rest, t := ticks[..|ticks| - 1], ticks[|ticks| - 1];
      var live := Live(t.ts, t.val, maxAge);
      if live == map[] then AreRows(rows, rest, maxAge)
      else rows != [] && IsRow(rows[|rows| - 1], t.ts, live) && AreRows(rows[..|rows| - 1], rest, maxAge)
  }

  lemma {:induction false} RowsAreDetermined(a: seq<Row>, b: seq<Row>, ticks: seq<Timed<map<string, Leg>>>, maxAge: int)
    requires AreRows(a, ticks, maxAge) && AreRows(b, ticks, maxAge)
    ensures a == b
    decreases |ticks|
  {
    if ticks != [] {
      var rest, t := ticks[..|ticks| - 1], ticks[|ticks| - 1];
      var live := Live(t.ts, t.val, maxAge);
      if live == map[] {
        RowsAreDetermined(a, b, rest, maxAge);
      } else {
        RowsAreDetermined(a[..|a| - 1], b[..|b| - 1], rest, maxAge);
        OneRow(a[|a| - 1], b[|b| - 1], t.ts, live);
        assert a == a[..|a| - 1] + [a[|a| - 1]] && b == b[..|b| - 1] + [b[|b| - 1]];
      }
    }
  }

  predicate RowsAdvance(rows: seq<Row>) {
    forall i, j :: 0 <= i < j < |rows| ==> rows[i].ts < rows[j].ts
  }

  /** The rows' times are among the ticks'. */
  predicate AtTicks(rows: seq<Row>, ticks: seq<Timed<map<string, Leg>>>) {
    forall i :: 0 <= i < |rows| ==> Occurs(ticks, rows[i].ts)
  }

  lemma AtTicksPush(rows: seq<Row>, rest: seq<Timed<map<string, Leg>>>, t: Timed<map<string, Leg>>)
    requires AtTicks(rows, rest) && Strict(rest + [t])
    ensures AtTicks(rows, rest + [t]) && forall i :: 0 <= i < |rows| ==> rows[i].ts < t.ts
    ensures Occurs(rest + [t], t.ts)
  {
    OccursPush(rest, t, t.ts);
    forall i | 0 <= i < |rows| ensures Occurs(rest + [t], rows[i].ts) && rows[i].ts < t.ts {
      OccursPush(rest, t, rows[i].ts);
      var k :| 0 <= k < |rest| && rest[k].ts == rows[i].ts;
      assert (rest + [t])[k] == rest[k] && (rest + [t])[|rest|] == t;
    }
  }

  /** At most one row more, at that time. */
  predicate Extends(rows: seq<Row>, before: seq<Row>, ts: int) {
    rows == before || (|rows| == |before| + 1 && rows[..|before|] == before && rows[|before|].ts == ts)
  }

  lemma TimesPush(rows: seq<Row>, before: seq<Row>, rest: seq<Timed<map<string, Leg>>>, t: Timed<map<string, Leg>>)
    requires RowsAdvance(before) && AtTicks(before, rest) && Strict(rest + [t]) && Extends(rows, before, t.ts)
    ensures RowsAdvance(rows) && AtTicks(rows, rest + [t])
  {
    AtTicksPush(before, rest, t);
    forall i | 0 <= i < |before| ensures rows[i] == before[i] {
    }
  }

  lemma RowsBefore(rows: seq<Row>, ticks: seq<Timed<map<string, Leg>>>, maxAge: int) returns (before: seq<Row>)
    requires AreRows(rows, ticks, maxAge) && ticks != []
    ensures AreRows(before, ticks[..|ticks| - 1], maxAge)
    ensures Extends(rows, before, ticks[|ticks| - 1].ts)
  {
    var t := ticks[|ticks| - 1];
    before := if Live(t.ts, t.val, maxAge) == map[] then rows else rows[..|rows| - 1];
  }

  /** Row times strictly increase, so the writer's regression check never fires. */
  lemma {:induction false} RowTimesAdvance(rows: seq<Row>, ticks: seq<Timed<map<string, Leg>>>, maxAge: int)
    requires AreRows(rows, ticks, maxAge) && Strict(ticks)
    ensures RowsAdvance(rows) && AtTicks(rows, ticks)
    decreases |ticks|
  {
    if ticks != [] {
      var rest, t := ticks[..|ticks| - 1], ticks[|ticks| - 1];
      var before := RowsBefore(rows, ticks, maxAge);
      RowTimesAdvance(before, rest, maxAge);
      assert ticks == rest + [t];
      TimesPush(rows, before, rest, t);
    }
  }

  /** The names a dict of live legs yields, in some order. */
  method Listing(live: map<string, Quote>) returns (names: seq<string>)
    ensures forall v :: v in names <==> v in live
    ensures live != map[] ==> names != []
  {
    names := [];
    var left := live.Keys;
    while left != {}
      invariant left <= live.Keys && forall v :: v in names <==> v in live.Keys - left
      decreases |left|
    {
      var v :| v in left;
      left, names := left - {v}, names + [v];
    }
    if names == [] && live != map[] {
      var v := Member(live.Keys);
    }
  }

  lemma RowsPush(rows: seq<Row>, ticks: seq<Timed<map<string, Leg>>>, i: nat, maxAge: int)
    requires i < |ticks| && AreRows(rows, ticks[..i], maxAge)
    ensures var live := Live(ticks[i].ts, ticks[i].val, maxAge);
            && (live == map[] ==> AreRows(rows, ticks[..i + 1], maxAge))
            && (forall row :: live != map[] && IsRow(row, ticks[i].ts, live) ==> AreRows(rows + [row], ticks[..i + 1], maxAge))
  {
    assert ticks[..i + 1][..i] == ticks[..i];
    forall row ensures (rows + [row])[..|rows|] == rows {
    }
  }

  // ---------- the rows, told by the streams ----------

  /** The venue's last event at or before `t` is this quote, and it is no older than allowed. */
  predicate IsFreshQuote(streams: Streams<string, Leg>, v: string, t: int, maxAge: int, q: Quote) {
    && v in streams
    && (exists i :: 0 <= i < |streams[v]| && IsLastBy(streams[v], i, t) && streams[v][i].val == Some(q))
    && t - q.ts <= maxAge
  }

  predicate IsLastBy<V>(es: seq<Timed<V>>, i: nat, t: int)
    requires i < |es|
  {
    es[i].ts <= t && (i + 1 < |es| ==> es[i + 1].ts > t)
  }

  ghost predicate IsFresh(streams: Streams<string, Leg>, v: string, t: int, maxAge: int) {
    exists q :: IsFreshQuote(streams, v, t, maxAge, q)
  }

  ghost function FreshVenues(streams: Streams<string, Leg>, t: int, maxAge: int): set<string> {
    set v | v in streams && IsFresh(streams, v, t, maxAge)
  }

  /** Both venues named are fresh and quote those prices; no fresh venue bids higher or asks
      lower, and at the same price the greater name has the bid and the lesser the ask. */
  ghost predicate IsFreshRow(row: Row, streams: Streams<string, Leg>, maxAge: int) {
    && row.venues == |FreshVenues(streams, row.ts, maxAge)|
    && (exists q :: IsFreshQuote(streams, row.bidVenue, row.ts, maxAge, q) && q.bid == row.bid)
    && (exists q :: IsFreshQuote(streams, row.askVenue, row.ts, maxAge, q) && q.ask == row.ask)
    && (forall v, q :: IsFreshQuote(streams, v, row.ts, maxAge, q) && v != row.bidVenue ==>
          q.bid < row.bid || (q.bid == row.bid && LexLess(v, row.bidVenue)))
    && (forall v, q :: IsFreshQuote(streams, v, row.ts, maxAge, q) && v != row.askVenue ==>
          q.ask > row.ask || (q.ask == row.ask && LexLess(row.askVenue, v)))
  }

  predicate HasRowAt(rows: seq<Row>, t: int) {
    exists i :: 0 <= i < |rows| && rows[i].ts == t
  }

  /** One row, in time order, for each time at which something happens and some venue is fresh. */
  ghost predicate AreFreshRows(rows: seq<Row>, streams: Streams<string, Leg>, maxAge: int) {
    && RowsAdvance(rows)
    && (forall t :: HasRowAt(rows, t) <==> OccursInAny(streams, t) && FreshVenues(streams, t, maxAge) != {})
    && (forall i :: 0 <= i < |rows| ==> IsFreshRow(rows[i], streams, maxAge))
  }

  lemma {:induction false} UpToIsPrefix<V>(es: seq<Timed<V>>, t: int) returns (n: nat)
    requires Sorted(es)
    ensures n <= |es| && UpTo(es, t) == es[..n]
    ensures (n > 0 ==> es[n - 1].ts <= t) && (n < |es| ==> es[n].ts > t)
  {
    if es == [] {
      n := 0;
    } else if es[|es| - 1].ts <= t {
      UpToAll(es, t);
      n := |es|;
    } else {
      n := UpToIsPrefix(es[..|es| - 1], t);
    }
  }

  lemma LastByIs<V>(es: seq<Timed<V>>, t: int, i: nat)
    requires Sorted(es) && i < |es| && IsLastBy(es, i, t)
    ensures UpTo(es, t) != [] && UpTo(es, t)[|UpTo(es, t)| - 1] == es[i]
  {
    var n := UpToIsPrefix(es, t);
    assert n == i + 1;
  }

  /** The live legs are the fresh quotes. */
  lemma LiveIsFresh(streams: Streams<string, Leg>, t: int, maxAge: int, v: string, q: Quote)
    requires AllSorted(streams)
    ensures var live := Live(t, LastBy(streams, t), maxAge); v in live && live[v] == q <==> IsFreshQuote(streams, v, t, maxAge, q)
  {
    var live := Live(t, LastBy(streams, t), maxAge);
    if v in live {
      var n := UpToIsPrefix(streams[v], t);
      assert IsLastBy(streams[v], n - 1, t);
    }
    if IsFreshQuote(streams, v, t, maxAge, q) {
      var i :| 0 <= i < |streams[v]| && IsLastBy(streams[v], i, t) && streams[v][i].val == Some(q);
      LastByIs(streams[v], t, i);
    }
  }

  lemma LiveAreFresh(streams: Streams<string, Leg>, t: int, maxAge: int)
    requires AllSorted(streams)
    ensures Live(t, LastBy(streams, t), maxAge).Keys == FreshVenues(streams, t, maxAge)
  {
    var live := Live(t, LastBy(streams, t), maxAge);
    forall v ensures v in live <==> v in FreshVenues(streams, t, maxAge) {
      if v in live {
        LiveIsFresh(streams, t, maxAge, v, live[v]);
      }
      if v in FreshVenues(streams, t, maxAge) {
        var q :| IsFreshQuote(streams, v, t, maxAge, q);
        LiveIsFresh(streams, t, maxAge, v, q);
      }
    }
  }

  lemma RowIsFresh(row: Row, streams: Streams<string, Leg>, t: int, maxAge: int)
    requires AllSorted(streams) && IsRow(row, t, Live(t, LastBy(streams, t), maxAge))
    ensures IsFreshRow(row, streams, maxAge)
  {
    var live := Live(t, LastBy(streams, t), maxAge);
    LiveAreFresh(streams, t, maxAge);
    LiveIsFresh(streams, t, maxAge, row.bidVenue, live[row.bidVenue]);
    LiveIsFresh(streams, t, maxAge, row.askVenue, live[row.askVenue]);
    forall v, q | IsFreshQuote(streams, v, t, maxAge, q) ensures v in live && live[v] == q {
      LiveIsFresh(streams, t, maxAge, v, q);
    }
  }

  /** Which ticks the rows are of. */
  lemma {:induction false} RowsOfTicks(rows: seq<Row>, ticks: seq<Timed<map<string, Leg>>>, maxAge: int, i: nat) returns (k: nat)
    requires AreRows(rows, ticks, maxAge) && i < |rows|
    ensures k < |ticks| && IsRow(rows[i], ticks[k].ts, Live(ticks[k].ts, ticks[k].val, maxAge))
    decreases |ticks|
  {
    var rest, t := ticks[..|ticks| - 1], ticks[|ticks| - 1];
    if Live(t.ts, t.val, maxAge) == map[] {
      k := RowsOfTicks(rows, rest, maxAge, i);
    } else if i < |rows| - 1 {
      k := RowsOfTicks(rows[..|rows| - 1], rest, maxAge, i);
    } else {
      k := |ticks| - 1;
    }
  }

  lemma {:induction false} TicksOfRows(rows: seq<Row>, ticks: seq<Timed<map<string, Leg>>>, maxAge: int, k: nat) returns (i: nat)
    requires AreRows(rows, ticks, maxAge) && k < |ticks| && Live(ticks[k].ts, ticks[k].val, maxAge) != map[]
    ensures i < |rows| && rows[i].ts == ticks[k].ts
    decreases |ticks|
  {
    var rest, t := ticks[..|ticks| - 1], ticks[|ticks| - 1];
    if k == |ticks| - 1 {
      i := |rows| - 1;
    } else if Live(t.ts, t.val, maxAge) == map[] {
      i := TicksOfRows(rows, rest, maxAge, k);
    } else {
      i := TicksOfRows(rows[..|rows| - 1], rest, maxAge, k);
    }
  }

  lemma RowAtFresh(rows: seq<Row>, streams: Streams<string, Leg>, ticks: seq<Timed<map<string, Leg>>>, maxAge: int, t: int)
    requires AllSorted(streams) && IsAsOf(ticks, streams) && AreRows(rows, ticks, maxAge)
    ensures HasRowAt(rows, t) <==> OccursInAny(streams, t) && FreshVenues(streams, t, maxAge) != {}
  {
    LiveAreFresh(streams, t, maxAge);
    if HasRowAt(rows, t) {
      var i :| 0 <= i < |rows| && rows[i].ts == t;
      var k := RowsOfTicks(rows, ticks, maxAge, i);
      assert Occurs(ticks, t);
      assert rows[i].bidVenue in FreshVenues(streams, t, maxAge);
    }
    if OccursInAny(streams, t) && FreshVenues(streams, t, maxAge) != {} {
      assert Occurs(ticks, t);
      var k :| 0 <= k < |ticks| && ticks[k].ts == t;
      var i := TicksOfRows(rows, ticks, maxAge, k);
    }
  }

  /** The rows of the as-of ticks are the rows the streams ask for. */
  lemma RowsAreFresh(rows: seq<Row>, streams: Streams<string, Leg>, ticks: seq<Timed<map<string, Leg>>>, maxAge: int)
    requires AllSorted(streams) && IsAsOf(ticks, streams) && AreRows(rows, ticks, maxAge)
    ensures AreFreshRows(rows, streams, maxAge)
  {
    RowTimesAdvance(rows, ticks, maxAge);
    forall t ensures HasRowAt(rows, t) <==> OccursInAny(streams, t) && FreshVenues(streams, t, maxAge) != {} {
      RowAtFresh(rows, streams, ticks, maxAge, t);
    }
    forall i | 0 <= i < |rows| ensures IsFreshRow(rows[i], streams, maxAge) {
      var k := RowsOfTicks(rows, ticks, maxAge, i);
      RowIsFresh(rows[i], streams, ticks[k].ts, maxAge);
    }
  }

  /** The generator both paths share. */
  method IterNbbo(streams: Streams<string, Leg>, order: seq<string>, maxAge: int) returns (rows: seq<Row>)
    requires Lists(order, streams) && AllSorted(streams)
    ensures IsNbboOf(rows, streams, order, maxAge)
    ensures AreFreshRows(rows, streams, maxAge)
  {
    var ticks := MergeLatest(streams, order);
    MergeLatestIsAsOf(streams, order);
    AsOfIsUnique(ticks, Ticks(MergeAll(streams, order)), streams);
    rows := [];
    for i := 0 to |ticks|
      invariant AreRows(rows, ticks[..i], maxAge)
    {
      RowsPush(rows, ticks, i, maxAge);
      var live := Live(ticks[i].ts, ticks[i].val, maxAge);
      if live != map[] {
        var names := Listing(live);
        var bidVenue := BidWinner(live, names);
        var askVenue := AskWinner(live, names);
        rows := rows + [Row(ticks[i].ts, live[bidVenue].bid, live[askVenue].ask, bidVenue, askVenue, |live|)];
      }
    }
    assert ticks[..|ticks|] == ticks;
    RowsAreFresh(rows, streams, ticks, maxAge);
  }

  // ---------- streaming refines the oracle ----------

  function OracleStreams(feeds: map<string, Feed>): Streams<string, Leg> {
    map v | v in feeds :: OracleStream(feeds[v])
  }

  function StreamedStreams(feeds: map<string, Feed>, window: int): Streams<string, Leg> {
    map v | v in feeds :: StreamedStream(feeds[v], window)
  }

  predicate SomeVenueTooLate(feeds: map<string, Feed>, window: int) {
    exists v :: v in feeds && AnyTooLate(QuoteEvents(feeds[v].quotes), window)
  }

  lemma OracleIsSorted(feeds: map<string, Feed>)
    ensures AllSorted(OracleStreams(feeds))
  {
    forall v | v in feeds ensures Sorted(OracleStream(feeds[v])) {
      StableSortSorts(QuoteEvents(feeds[v].quotes) + Sentinels(feeds[v].downs));
    }
  }

  lemma StreamsAgree(feeds: map<string, Feed>, window: int)
    requires !SomeVenueTooLate(feeds, window)
    ensures StreamedStreams(feeds, window) == OracleStreams(feeds)
  {
    var streamed, oracle := StreamedStreams(feeds, window), OracleStreams(feeds);
    forall v | v in feeds ensures streamed[v] == oracle[v] {
      StreamedIsOracle(feeds[v], window);
    }
    SameMap(streamed, oracle);
  }

  lemma SameMap<K, V>(a: map<K, V>, b: map<K, V>)
    requires a.Keys == b.Keys && forall k :: k in a ==> a[k] == b[k]
    ensures a == b
  {
  }

  /** What a run of the generator on these streams writes. */
  predicate IsNbboOf(rows: seq<Row>, streams: Streams<string, Leg>, order: seq<string>, maxAge: int) {
    Lists(order, streams) && AreRows(rows, Ticks(MergeAll(streams, order)), maxAge)
  }

  /** The rows do not depend on the order in which the venues are listed. */
  lemma VenueOrderIsImmaterial(streams: Streams<string, Leg>, maxAge: int, orderA: seq<string>, orderB: seq<string>,
                               a: seq<Row>, b: seq<Row>)
    requires AllSorted(streams) && IsNbboOf(a, streams, orderA, maxAge) && IsNbboOf(b, streams, orderB, maxAge)
    ensures a == b && RowsAdvance(a)
  {
    var ticks := Ticks(MergeAll(streams, orderA));
    MergeLatestIsAsOf(streams, orderA);
    MergeLatestIsAsOf(streams, orderB);
    AsOfIsUnique(ticks, Ticks(MergeAll(streams, orderB)), streams);
    RowsAreDetermined(a, b, ticks, maxAge);
    RowTimesAdvance(a, ticks, maxAge);
  }

  /** Unless some venue's quote is too late, every run of the streaming path and every run
      of the oracle give the same rows, in whatever order each lists its venues. */
  lemma StreamingNbboIsOracle(feeds: map<string, Feed>, window: int, maxAge: int, oracleOrder: seq<string>,
                              streamOrder: seq<string>, oracle: seq<Row>, streamed: seq<Row>)
    requires !SomeVenueTooLate(feeds, window)
    requires IsNbboOf(oracle, OracleStreams(feeds), oracleOrder, maxAge)
    requires IsNbboOf(streamed, StreamedStreams(feeds, window), streamOrder, maxAge)
    ensures streamed == oracle && RowsAdvance(streamed)
  {
    StreamsAgree(feeds, window);
    OracleIsSorted(feeds);
    VenueOrderIsImmaterial(OracleStreams(feeds), maxAge, streamOrder, oracleOrder, streamed, oracle);
  }

  // ---------- a down at the same time as a quote ----------

  lemma {:induction false} UpToEndsAt<V>(es: seq<Timed<V>>, t: int)
    requires Sorted(es) && At(es, t) != []
    ensures UpTo(es, t) != [] && UpTo(es, t)[|UpTo(es, t)| - 1] == At(es, t)[|At(es, t)| - 1]
  {
    if es[|es| - 1].ts > t {
      UpToEndsAt(es[..|es| - 1], t);
    } else if es[|es| - 1].ts < t {
      AtNone(es, t);
    }
  }

  lemma {:induction false} SentinelAt(downs: seq<int>, t: int)
    requires t in downs
    ensures At(Sentinels(downs), t) != [] && At(Sentinels(downs), t)[|At(Sentinels(downs), t)| - 1].val == None
  {
    var rest := downs[..|downs| - 1];
    assert Sentinels(downs)[..|downs| - 1] == Sentinels(rest);
    if downs[|downs| - 1] != t {
      SentinelAt(rest, t);
    }
  }

  /** A venue that goes down is out of the tick at that very time, even if it quoted at
      the same nanosecond. */
  lemma DownEvictsAtItsTick(feeds: map<string, Feed>, v: string, t: int, maxAge: int)
    requires v in feeds && t in feeds[v].downs
    ensures v !in Live(t, LastBy(OracleStreams(feeds), t), maxAge)
  {
    DownIsLast(feeds[v], t);
    assert OracleStreams(feeds)[v] == OracleStream(feeds[v]);
  }

  lemma DownIsLast(f: Feed, t: int)
    requires t in f.downs
    ensures var s := UpTo(OracleStream(f), t); s != [] && s[|s| - 1].val == None
  {
    SentinelAt(f.downs, t);
    SortEndsWithSecond(QuoteEvents(f.quotes), Sentinels(f.downs), t);
  }

  /** Sorted behind the first part, the second has the last word at a time it reaches. */
  lemma SortEndsWithSecond<V>(a: seq<Timed<V>>, b: seq<Timed<V>>, t: int)
    requires At(b, t) != []
    ensures UpTo(StableSort(a + b), t) != []
    ensures var s := UpTo(StableSort(a + b), t); s[|s| - 1] == At(b, t)[|At(b, t)| - 1]
  {
    StableSortIsStable(a + b, t);
    AtConcat(a, b, t);
    UpToEndsAt(StableSort(a + b), t);
  }

  // ---------- a fresh quote, told by what is stored ----------

  /** The latest event at or before `t`; at equal times the last to arrive. */
  predicate IsNewest<V>(es: seq<Timed<V>>, i: int, t: int) {
    && 0 <= i < |es| && es[i].ts <= t
    && forall j :: 0 <= j < |es| && j != i ==> es[j].ts > t || es[j].ts < es[i].ts || (es[j].ts == es[i].ts && j < i)
  }

  lemma NewestAt<V>(es: seq<Timed<V>>, i: nat, t: int)
    requires IsNewest(es, i, t)
    ensures At(es, es[i].ts) != [] && At(es, es[i].ts)[|At(es, es[i].ts)| - 1] == es[i]
    ensures QuietAfter(es, es[i].ts, t)
  {
    var u := es[i].ts;
    var later := es[i + 1..];
    assert es == es[..i + 1] + later;
    AtConcat(es[..i + 1], later, u);
    LastIsAt(es[..i + 1]);
    forall j | 0 <= j < |later| ensures later[j].ts != u {
      assert later[j] == es[i + 1 + j];
    }
    AtNone(later, u);
    forall w | u < w <= t ensures At(es, w) == [] {
      AtNone(es, w);
    }
  }

  lemma {:induction false} NewestExists<V>(es: seq<Timed<V>>, t: int) returns (i: nat)
    requires exists j :: 0 <= j < |es| && es[j].ts <= t
    ensures IsNewest(es, i, t)
  {
    var rest, e := es[..|es| - 1], es[|es| - 1];
    assert es == rest + [e];
    if exists j :: 0 <= j < |rest| && rest[j].ts <= t {
      i := NewestExists(rest, t);
      if e.ts <= t && rest[i].ts <= e.ts {
        i := |rest|;
      }
    } else {
      i := |rest|;
      assert forall j :: 0 <= j < |rest| ==> es[j] == rest[j];
    }
  }

  /** No event lies after `u` and up to `t`. */
  predicate QuietAfter<V>(es: seq<Timed<V>>, u: int, t: int) {
    forall w :: u < w <= t ==> At(es, w) == []
  }

  lemma SortIsQuiet<V>(es: seq<Timed<V>>, u: int, t: int)
    requires QuietAfter(es, u, t)
    ensures QuietAfter(StableSort(es), u, t)
  {
    forall w | u < w <= t ensures At(StableSort(es), w) == [] {
      StableSortIsStable(es, w);
    }
  }

  lemma QuietBetween<V>(es: seq<Timed<V>>, u: int, t: int)
    requires Sorted(es) && u <= t && QuietAfter(es, u, t)
    ensures UpTo(es, t) == UpTo(es, u)
  {
    var n := UpToIsPrefix(es, t);
    var m := UpToIsPrefix(es, u);
    if m < n {
      AtHas(es, m);
    }
    assert m == n;
  }

  /** The sort ends, up to a time, with the newest event. */
  lemma SortEndsWithNewest<V>(es: seq<Timed<V>>, i: nat, t: int)
    requires IsNewest(es, i, t)
    ensures var s := UpTo(StableSort(es), t); s != [] && s[|s| - 1] == es[i]
  {
    NewestAt(es, i, t);
    SortIsQuiet(es, es[i].ts, t);
    SortEndsAt(es, es[i].ts, t);
  }

  lemma SortEndsAt<V>(es: seq<Timed<V>>, u: int, t: int)
    requires u <= t && At(es, u) != [] && QuietAfter(StableSort(es), u, t)
    ensures var s := UpTo(StableSort(es), t); s != [] && s[|s| - 1] == At(es, u)[|At(es, u)| - 1]
  {
    StableSortSorts(es);
    StableSortIsStable(es, u);
    QuietBetween(StableSort(es), u, t);
    UpToEndsAt(StableSort(es), u);
  }

  lemma SortReaches<V>(es: seq<Timed<V>>, t: int)
    requires UpTo(StableSort(es), t) != []
    ensures exists j :: 0 <= j < |es| && es[j].ts <= t
  {
    StableSortSorts(es);
    var sorted := StableSort(es);
    var n := UpToIsPrefix(sorted, t);
    AtHas(sorted, n - 1);
    StableSortIsStable(es, sorted[n - 1].ts);
    if forall j :: 0 <= j < |es| ==> es[j].ts > t {
      AtNone(es, sorted[n - 1].ts);
    }
  }

  predicate NoDownSince(f: Feed, from: int, t: int) {
    forall k :: 0 <= k < |f.downs| ==> f.downs[k] < from || f.downs[k] > t
  }

  /** The `i`-th stored quote is the latest at or before `t`, and no down has followed. */
  predicate Stands(f: Feed, i: int, t: int) {
    0 <= i < |f.quotes| && IsNewest(QuoteEvents(f.quotes), i, t) && NoDownSince(f, f.quotes[i].ts, t)
  }

  /** The venue's standing quote, not too old. */
  predicate IsStandingQuote(f: Feed, t: int, maxAge: int, q: Quote) {
    t - q.ts <= maxAge && exists i :: 0 <= i < |f.quotes| && Stands(f, i, t) && f.quotes[i] == q
  }

  lemma NewestQuote(f: Feed, t: int, i: nat)
    ensures IsNewest(QuoteEvents(f.quotes) + Sentinels(f.downs), i, t) && i < |f.quotes| <==> Stands(f, i, t)
  {
    var qs, es := QuoteEvents(f.quotes), QuoteEvents(f.quotes) + Sentinels(f.downs);
    assert forall j :: 0 <= j < |qs| ==> es[j] == qs[j];
    forall k | 0 <= k < |f.downs| ensures es[|qs| + k].ts == f.downs[k] {
    }
    if IsNewest(es, i, t) && i < |f.quotes| {
      forall k | 0 <= k < |f.downs| ensures f.downs[k] < f.quotes[i].ts || f.downs[k] > t {
        assert es[|qs| + k].ts == f.downs[k];
      }
    }
  }

  lemma StandingIsLast(f: Feed, i: nat, t: int)
    requires Stands(f, i, t)
    ensures var s := UpTo(OracleStream(f), t); s != [] && s[|s| - 1].val == Some(f.quotes[i])
  {
    NewestQuote(f, t, i);
    SortEndsWithNewest(QuoteEvents(f.quotes) + Sentinels(f.downs), i, t);
  }

  lemma LastIsStanding(f: Feed, t: int) returns (i: nat)
    requires UpTo(OracleStream(f), t) != []
    ensures var s := UpTo(OracleStream(f), t); s[|s| - 1].val.Some? ==> Stands(f, i, t) && s[|s| - 1].val.value == f.quotes[i]
  {
    var es := QuoteEvents(f.quotes) + Sentinels(f.downs);
    SortReaches(es, t);
    i := NewestExists(es, t);
    SortEndsWithNewest(es, i, t);
    NewestQuote(f, t, i);
  }

  /** A leg is fresh exactly when it is the venue's standing quote: the streams say of it what
      is stored does. */
  lemma FreshIsStanding(feeds: map<string, Feed>, v: string, t: int, maxAge: int, q: Quote)
    ensures IsFreshQuote(OracleStreams(feeds), v, t, maxAge, q) <==> v in feeds && IsStandingQuote(feeds[v], t, maxAge, q)
  {
    if v in feeds {
      OracleIsSorted(feeds);
      LiveIsFresh(OracleStreams(feeds), t, maxAge, v, q);
      StandsInFeed(feeds[v], t, maxAge, q);
    }
  }

  lemma StandsInFeed(f: Feed, t: int, maxAge: int, q: Quote)
    ensures var s := UpTo(OracleStream(f), t);
            IsStandingQuote(f, t, maxAge, q) <==> s != [] && s[|s| - 1].val == Some(q) && t - q.ts <= maxAge
  {
    if IsStandingQuote(f, t, maxAge, q) {
      var i :| 0 <= i < |f.quotes| && Stands(f, i, t) && f.quotes[i] == q;
      StandingIsLast(f, i, t);
    }
    if UpTo(OracleStream(f), t) != [] {
      var i := LastIsStanding(f, t);
    }
  }
}
