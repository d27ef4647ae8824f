/** The gateway's per-message step: the stream clock, the eviction of silent and down
    venues, the routing of a quote, and the gate that holds output during a warm start. */
module Server {
  import opened Decimal
  import opened Levels
  import opened Names
  import opened Aggregator
  import opened Nbbo
  import W = WarmStart

  /** One consumed message. `Book` carries the quote the aggregator derived from it, if any,
      and the instrument its stream is mapped to; `Other` is a trade or an ignored message;
      `Bad` cannot be decoded; `Arm` is the gate being built from the planned seeks. */
  datatype Input =
    | Status(exchange: string, up: bool, tsNs: int)
    | Book(id: Option<string>, bbo: Option<Bbo>, tsNs: int, at: W.Observed)
    | Other(tsNs: int, at: W.Observed)
    | Bad
    | Arm(seeks: seq<W.Seek>)

  /** `order` lists the venues heard from, in the order they were first heard. `quotes` and
      `wire` are what has been sent. */
  datatype State = State(
    agg: Agg, now: int, seen: map<string, int>, order: seq<string>,
    gate: W.Gate, armed: bool, quotes: seq<Bbo>, wire: seq<NbboMsg>, timeoutNs: int)

  function Start(timeoutNs: int): State {
    State(Agg(map[], [], {}), 0, map[], [], map[], false, [], [], timeoutNs)
  }

  function Send(st: State, agg: Agg, out: seq<NbboMsg>): State {
    st.(agg := agg, wire := if W.Warming(st.gate) then st.wire else st.wire + out)
  }

  ghost function Mark(st: State, exchange: string, down: bool): State {
    var q := SetVenueDown(st.agg, exchange, down, st.now);
    Send(st, q.agg, q.out)
  }

  predicate Silent(st: State, exchange: string) {
    exchange in st.seen && st.now - st.seen[exchange] > st.timeoutNs
  }

  ghost function EvictEach(st: State, venues: seq<string>): State {
    if venues == [] then st
    else
      var rest, v := EvictEach(st, venues[..|venues| - 1]), venues[|venues| - 1];
      if Silent(st, v) then Mark(rest, v, true) else rest
  }

  /** Advances the clock, then evicts the venues it has left behind. */
  ghost function Advance(st: State, tsNs: int): State {
    var later := st.(now := if tsNs > st.now then tsNs else st.now);
    EvictEach(later, st.order)
  }

  ghost function HandleStatus(st: State, exchange: string, up: bool, tsNs: int): State {
    Mark(st.(seen := st.seen[exchange := tsNs], order := if exchange in st.seen then st.order else st.order + [exchange]), exchange, !up)
  }

  function Publish(st: State, bbo: Bbo): State {
    st.(quotes := if W.Warming(st.gate) then st.quotes else st.quotes + [bbo])
  }

  ghost function Combine(st: State, id: string, bbo: Bbo): State {
    var q := OnBbo(st.agg, id, bbo, st.now);
    Send(st, q.agg, q.out)
  }

  ghost function Route(st: State, id: Option<string>, bbo: Option<Bbo>): State {
    if bbo.None? then st
    else if id.None? then Publish(st, bbo.value)
    else Combine(Publish(st, bbo.value), id.value, bbo.value)
  }

  /** The message that opens the gate sends the current state of every instrument. */
  ghost function Pass(st: State, at: W.Observed): State {
    var after := st.(gate := W.Observe(st.gate, at));
    if W.Opens(st.gate, at) then Send(after, st.agg, SnapshotFrom(st.agg, st.agg.ids, st.now)) else after
  }

  ghost function Step(st: State, m: Input): State {
    match m
    case Status(exchange, up, tsNs) => HandleStatus(Advance(st, tsNs), exchange, up, tsNs)
    case Book(id, bbo, tsNs, at) => Pass(Route(Advance(st, tsNs), id, bbo), at)
    case Other(tsNs, at) => Pass(Advance(st, tsNs), at)
    case Bad => st
    case Arm(seeks) => if st.armed then st else st.(gate := W.GateOf(seeks), armed := true)
  }

  ghost function Run(ms: seq<Input>, timeoutNs: int): State {
    if ms == [] then Start(timeoutNs) else Step(Run(ms[..|ms| - 1], timeoutNs), ms[|ms| - 1])
  }

  // ---------- what the log says of a venue ----------

  /** The greatest event time consumed, from 0. */
  function Clock(ms: seq<Input>): int {
    if ms == [] then 0
    else
      var before, m := Clock(ms[..|ms| - 1]), ms[|ms| - 1];
      if (m.Status? || m.Book? || m.Other?) && m.tsNs > before then m.tsNs else before
  }

  /** The venue's latest status message. */
  function Latest(ms: seq<Input>, exchange: string): (s: Option<Input>)
    ensures s.Some? ==> s.value.Status? && s.value.exchange == exchange
  {
    if ms == [] then None
    else
      var m := ms[|ms| - 1];
      if m.Status? && m.exchange == exchange then Some(m) else Latest(ms[..|ms| - 1], exchange)
  }

  predicate ToldDown(ms: seq<Input>, exchange: string) {
    var s := Latest(ms, exchange);
    s.Some? && !s.value.up
  }

  predicate GoneSilent(ms: seq<Input>, exchange: string, now: int, timeoutNs: int) {
    var s := Latest(ms, exchange);
    s.Some? && now - s.value.tsNs > timeoutNs
  }

  /** The venue's latest status is down, or trails the clock by more than the timeout. */
  predicate Dead(ms: seq<Input>, exchange: string, now: int, timeoutNs: int) {
    ToldDown(ms, exchange) || GoneSilent(ms, exchange, now, timeoutNs)
  }

  // ---------- the clock and the heartbeats ----------

  ghost predicate Heard(st: State, ms: seq<Input>) {
    && st.now == Clock(ms)
    && (forall v :: v in st.order <==> v in st.seen)
    && (forall v :: v in st.seen <==> Latest(ms, v).Some?)
    && (forall v :: v in st.seen ==> st.seen[v] == Latest(ms, v).value.tsNs)
  }

  /** Told-down venues are out; a venue that is out was told down or is silent. */
  ghost predicate Evicted(st: State, ms: seq<Input>) {
    && (forall v :: ToldDown(ms, v) ==> v in st.agg.down)
    && (forall v :: v in st.agg.down ==> Dead(ms, v, st.now, st.timeoutNs))
  }

  /** The eviction touches nothing but the quotes' state and the wire. */
  lemma {:induction false} EvictFrame(st: State, venues: seq<string>)
    ensures var e := EvictEach(st, venues);
            e == st.(agg := e.agg, wire := e.wire)
  {
    if venues != [] {
      EvictFrame(st, venues[..|venues| - 1]);
    }
  }

  lemma MarkDown(st: State, v: string, down: bool)
    ensures Mark(st, v, down).agg.down == if down then st.agg.down + {v} else st.agg.down - {v}
  {
  }

  lemma {:induction false} EvictDown(st: State, venues: seq<string>, v: string)
    ensures v in EvictEach(st, venues).agg.down <==> v in st.agg.down || (v in venues && Silent(st, v))
  {
    if venues != [] {
      var rest, x := venues[..|venues| - 1], venues[|venues| - 1];
      assert venues == rest + [x];
      EvictDown(st, rest, v);
      MarkDown(EvictEach(st, rest), x, true);
    }
  }

  lemma ClockPush(ms: seq<Input>, m: Input)
    ensures Clock(ms + [m]) == if (m.Status? || m.Book? || m.Other?) && m.tsNs > Clock(ms) then m.tsNs else Clock(ms)
    ensures forall v :: Latest(ms + [m], v) == if m.Status? && m.exchange == v then Some(m) else Latest(ms, v)
  {
    assert (ms + [m])[..|ms|] == ms;
  }

  /** Right after the eviction, the venues that are out are exactly the dead ones. */
  lemma AdvanceEvicts(st: State, ms: seq<Input>, tsNs: int)
    requires Heard(st, ms) && Evicted(st, ms)
    ensures var after := Advance(st, tsNs);
            && after.now == (if tsNs > Clock(ms) then tsNs else Clock(ms))
            && after.seen == st.seen && after.order == st.order && after.gate == st.gate && after.armed == st.armed && after.timeoutNs == st.timeoutNs
            && (forall v :: v in after.agg.down <==> Dead(ms, v, after.now, after.timeoutNs))
  {
    var later := st.(now := if tsNs > st.now then tsNs else st.now);
    EvictFrame(later, st.order);
    forall v ensures v in Advance(st, tsNs).agg.down <==> Dead(ms, v, later.now, later.timeoutNs) {
      EvictDown(later, st.order, v);
    }
  }

  lemma StatusHears(st: State, ms: seq<Input>, m: Input)
    requires Heard(st, ms) && Evicted(st, ms) && m.Status?
    ensures Heard(Step(st, m), ms + [m]) && Evicted(Step(st, m), ms + [m]) && Step(st, m).timeoutNs == st.timeoutNs
  {
    AdvanceEvicts(st, ms, m.tsNs);
    ClockPush(ms, m);
    var after := Advance(st, m.tsNs);
    StatusHeard(after, ms, m);
    StatusEvicts(after, ms, m);
  }

  lemma StatusHeard(after: State, ms: seq<Input>, m: Input)
    requires m.Status? && after.now == Clock(ms + [m])
    requires Heard(after.(now := Clock(ms)), ms)
    ensures Heard(HandleStatus(after, m.exchange, m.up, m.tsNs), ms + [m])
  {
    ClockPush(ms, m);
    var q := HandleStatus(after, m.exchange, m.up, m.tsNs);
    forall v ensures v in q.order <==> v in q.seen {
    }
  }

  lemma StatusEvicts(after: State, ms: seq<Input>, m: Input)
    requires m.Status?
    requires forall v :: v in after.agg.down <==> Dead(ms, v, after.now, after.timeoutNs)
    ensures Evicted(HandleStatus(after, m.exchange, m.up, m.tsNs), ms + [m])
  {
    ClockPush(ms, m);
    var q := HandleStatus(after, m.exchange, m.up, m.tsNs);
    MarkDown(after.(seen := q.seen, order := q.order), m.exchange, !m.up);
    forall v ensures v != m.exchange ==> (Dead(ms + [m], v, after.now, after.timeoutNs) <==> Dead(ms, v, after.now, after.timeoutNs)) {
    }
  }

  /** What a message without a status leaves of the clock and the evictions. */
  lemma OtherHears(st: State, after: State, ms: seq<Input>, m: Input)
    requires Heard(st, ms) && Evicted(st, ms) && (m.Book? || m.Other?)
    requires SameHealth(after, Advance(st, m.tsNs))
    ensures Heard(after, ms + [m]) && Evicted(after, ms + [m])
  {
    AdvanceEvicts(st, ms, m.tsNs);
    ClockPush(ms, m);
    forall v ensures Dead(ms + [m], v, after.now, after.timeoutNs) <==> Dead(ms, v, after.now, after.timeoutNs) {
    }
  }

  /** The two agree on the clock, the heartbeats and the venues taken out. */
  predicate SameHealth(a: State, b: State) {
    a.now == b.now && a.seen == b.seen && a.order == b.order && a.timeoutNs == b.timeoutNs && a.agg.down == b.agg.down
  }

  lemma RouteFrame(st: State, id: Option<string>, bbo: Option<Bbo>)
    ensures SameHealth(Route(st, id, bbo), st)
  {
  }

  lemma PassFrame(st: State, at: W.Observed)
    ensures SameHealth(Pass(st, at), st)
  {
  }

  lemma StepFrame(st: State, m: Input)
    requires m.Book? || m.Other?
    ensures SameHealth(Step(st, m), Advance(st, m.tsNs))
  {
    var a := Advance(st, m.tsNs);
    if m.Book? {
      RouteFrame(a, m.id, m.bbo);
      PassFrame(Route(a, m.id, m.bbo), m.at);
    } else {
      PassFrame(a, m.at);
    }
  }

  lemma QuietHears(st: State, after: State, ms: seq<Input>, m: Input)
    requires Heard(st, ms) && Evicted(st, ms) && (m.Bad? || m.Arm?)
    requires after == st.(gate := after.gate, armed := after.armed)
    ensures Heard(after, ms + [m]) && Evicted(after, ms + [m])
  {
    ClockPush(ms, m);
    forall v ensures Dead(ms + [m], v, st.now, st.timeoutNs) <==> Dead(ms, v, st.now, st.timeoutNs) {
    }
  }

  lemma StepHears(st: State, ms: seq<Input>, m: Input)
    requires Heard(st, ms) && Evicted(st, ms)
    ensures Heard(Step(st, m), ms + [m]) && Evicted(Step(st, m), ms + [m]) && Step(st, m).timeoutNs == st.timeoutNs
  {
    if m.Status? {
      StatusHears(st, ms, m);
    } else if m.Book? || m.Other? {
      StepFrame(st, m);
      AdvanceEvicts(st, ms, m.tsNs);
      OtherHears(st, Step(st, m), ms, m);
    } else {
      QuietHears(st, Step(st, m), ms, m);
    }
  }

  ghost predicate Hears(st: State, ms: seq<Input>, timeoutNs: int) {
    Heard(st, ms) && Evicted(st, ms) && st.timeoutNs == timeoutNs
  }

  lemma StartHears(timeoutNs: int)
    ensures Hears(Start(timeoutNs), [], timeoutNs)
  {
  }

  lemma KeepsHearing(st: State, ms: seq<Input>, m: Input, timeoutNs: int)
    requires Hears(st, ms, timeoutNs)
    ensures Hears(Step(st, m), ms + [m], timeoutNs)
  {
    StepHears(st, ms, m);
  }

  lemma {:induction false} RunHears(timeoutNs: int, ms: seq<Input>)
    ensures Hears(Run(ms, timeoutNs), ms, timeoutNs)
  {
    if ms == [] {
      StartHears(timeoutNs);
    } else {
      var rest, m := ms[..|ms| - 1], ms[|ms| - 1];
      RunHears(timeoutNs, rest);
      KeepsHearing(Run(rest, timeoutNs), rest, m, timeoutNs);
      assert ms == rest + [m];
    }
  }

  /** Liveness: when a message is routed, the venues taken out are exactly those whose latest
      status is down or trails the stream clock by more than the timeout. */
  lemma {:induction false} DownExactlyWhenDead(timeoutNs: int, ms: seq<Input>, m: Input)
    requires m.Book? || m.Other?
    ensures var routed := Advance(Run(ms, timeoutNs), m.tsNs);
            && routed.now == Clock(ms + [m])
            && forall v :: v in routed.agg.down <==> Dead(ms + [m], v, Clock(ms + [m]), timeoutNs)
  {
    RunHears(timeoutNs, ms);
    AdvanceEvicts(Run(ms, timeoutNs), ms, m.tsNs);
    ClockPush(ms, m);
    forall v ensures Dead(ms + [m], v, Clock(ms + [m]), timeoutNs) <==> Dead(ms, v, Clock(ms + [m]), timeoutNs) {
    }
  }

  /** The stream clock never goes back. */
  lemma {:induction false} ClockNeverFalls(ms: seq<Input>, more: seq<Input>)
    ensures Clock(ms) <= Clock(ms + more)
  {
    if more == [] {
      assert ms + more == ms;
    } else {
      assert (ms + more)[..|ms + more| - 1] == ms + more[..|more| - 1];
      ClockNeverFalls(ms, more[..|more| - 1]);
    }
  }

  // ---------- what the log holds of an instrument ----------

  predicate IsQuote(m: Input, id: string) {
    m.Book? && m.id == Some(id) && m.bbo.Some?
  }

  predicate QuotedIn(ms: seq<Input>, id: string) {
    exists i :: 0 <= i < |ms| && IsQuote(ms[i], id)
  }

  /** The last quote of the instrument whose key names the venue. */
  function LatestQuote(ms: seq<Input>, id: string, exchange: string): Option<Bbo> {
    if ms == [] then None
    else
      var m := ms[|ms| - 1];
      if IsQuote(m, id) && m.bbo.value.key.exchange == exchange then m.bbo else LatestQuote(ms[..|ms| - 1], id, exchange)
  }

  function LegOf(legs: Legs, exchange: string): Option<Bbo> {
    if exchange in legs then Some(legs[exchange]) else None
  }

  /** The instruments known are those quoted, and the legs of each are the latest quotes. */
  ghost predicate Holds(a: Agg, ms: seq<Input>) {
    forall id :: HoldsOf(a, ms, id)
  }

  ghost predicate HoldsOf(a: Agg, ms: seq<Input>, id: string) {
    && (id in a.state <==> QuotedIn(ms, id))
    && (forall v :: LegOf(InstrumentOf(a, id).legs, v) == LatestQuote(ms, id, v))
  }

  ghost predicate SameQuotes(a: Agg, b: Agg) {
    forall id :: (id in b.state <==> id in a.state) && InstrumentOf(b, id).legs == InstrumentOf(a, id).legs
  }

  lemma SameHolds(a: Agg, b: Agg, ms: seq<Input>)
    requires SameQuotes(a, b) && Holds(a, ms)
    ensures Holds(b, ms)
  {
    forall id ensures HoldsOf(b, ms, id) {
      assert HoldsOf(a, ms, id);
    }
  }

  lemma MarkQuotes(st: State, v: string, down: bool)
    ensures SameQuotes(st.agg, Mark(st, v, down).agg)
  {
    forall id ensures (id in Mark(st, v, down).agg.state <==> id in st.agg.state)
                      && InstrumentOf(Mark(st, v, down).agg, id).legs == InstrumentOf(st.agg, id).legs
    {
      SetVenueDownLegs(st.agg, v, down, st.now, id);
    }
  }

  lemma {:induction false} EvictQuotes(st: State, venues: seq<string>)
    ensures SameQuotes(st.agg, EvictEach(st, venues).agg)
  {
    if venues != [] {
      EvictQuotes(st, venues[..|venues| - 1]);
      MarkQuotes(EvictEach(st, venues[..|venues| - 1]), venues[|venues| - 1], true);
    }
  }

  lemma QuotePush(ms: seq<Input>, m: Input, id: string)
    ensures QuotedIn(ms + [m], id) <==> QuotedIn(ms, id) || IsQuote(m, id)
    ensures forall v :: LatestQuote(ms + [m], id, v)
                        == if IsQuote(m, id) && m.bbo.value.key.exchange == v then m.bbo else LatestQuote(ms, id, v)
  {
    var all := ms + [m];
    assert all[..|ms|] == ms;
    if QuotedIn(ms, id) {
      var i :| 0 <= i < |ms| && IsQuote(ms[i], id);
      assert IsQuote(all[i], id);
    }
    if IsQuote(m, id) {
      assert IsQuote(all[|ms|], id);
    }
  }

  lemma NotQuoted(a: Agg, ms: seq<Input>, m: Input)
    requires Holds(a, ms) && (m.Book? ==> m.id.None? || m.bbo.None?)
    ensures Holds(a, ms + [m])
  {
    forall id ensures HoldsOf(a, ms + [m], id) {
      assert HoldsOf(a, ms, id);
      QuotePush(ms, m, id);
    }
  }

  lemma NowQuoted(a: Agg, ms: seq<Input>, m: Input, nowNs: int)
    requires Holds(a, ms) && m.Book? && m.id.Some? && m.bbo.Some?
    ensures Holds(OnBbo(a, m.id.value, m.bbo.value, nowNs).agg, ms + [m])
  {
    var b := OnBbo(a, m.id.value, m.bbo.value, nowNs).agg;
    forall id ensures HoldsOf(b, ms + [m], id) {
      assert HoldsOf(a, ms, id);
      QuotePush(ms, m, id);
      QuotedLegs(a, m.id.value, m.bbo.value, nowNs, id);
    }
  }

  /** A quote becomes its venue's leg, and no other leg changes. */
  lemma QuotedLegs(a: Agg, id: string, bbo: Bbo, nowNs: int, other: string)
    ensures var b := OnBbo(a, id, bbo, nowNs).agg;
            && (other in b.state <==> other in a.state || other == id)
            && forall v :: LegOf(InstrumentOf(b, other).legs, v)
                           == if other == id && v == bbo.key.exchange then Some(bbo) else LegOf(InstrumentOf(a, other).legs, v)
  {
  }

  lemma RouteHolds(st: State, ms: seq<Input>, m: Input)
    requires Holds(st.agg, ms) && m.Book?
    ensures Holds(Route(st, m.id, m.bbo).agg, ms + [m])
  {
    if m.id.Some? && m.bbo.Some? {
      NowQuoted(st.agg, ms, m, st.now);
    } else {
      NotQuoted(st.agg, ms, m);
    }
  }

  lemma AdvanceHolds(st: State, ms: seq<Input>, tsNs: int)
    requires Holds(st.agg, ms)
    ensures Holds(Advance(st, tsNs).agg, ms)
  {
    var later := st.(now := if tsNs > st.now then tsNs else st.now);
    EvictQuotes(later, st.order);
    SameHolds(st.agg, Advance(st, tsNs).agg, ms);
  }

  lemma StatusHolds(st: State, ms: seq<Input>, m: Input)
    requires Holds(st.agg, ms) && m.Status?
    ensures Holds(Step(st, m).agg, ms + [m])
  {
    AdvanceHolds(st, ms, m.tsNs);
    var after := Advance(st, m.tsNs);
    var heard := after.(seen := after.seen[m.exchange := m.tsNs],
                        order := if m.exchange in after.seen then after.order else after.order + [m.exchange]);
    MarkQuotes(heard, m.exchange, !m.up);
    SameHolds(after.agg, Step(st, m).agg, ms);
    NotQuoted(Step(st, m).agg, ms, m);
  }

  lemma StepHolds(st: State, ms: seq<Input>, m: Input)
    requires Holds(st.agg, ms)
    ensures Holds(Step(st, m).agg, ms + [m])
  {
    if m.Status? {
      StatusHolds(st, ms, m);
    } else if m.Book? {
      AdvanceHolds(st, ms, m.tsNs);
      RouteHolds(Advance(st, m.tsNs), ms, m);
    } else {
      if m.Other? {
        AdvanceHolds(st, ms, m.tsNs);
      }
      NotQuoted(Step(st, m).agg, ms, m);
    }
  }

  /** Over every run: an instrument is known exactly when the log quotes it, and each venue's
      leg is its latest quote. */
  lemma {:induction false} RunHolds(timeoutNs: int, ms: seq<Input>)
    ensures Holds(Run(ms, timeoutNs).agg, ms)
  {
    if ms != [] {
      var rest, m := ms[..|ms| - 1], ms[|ms| - 1];
      RunHolds(timeoutNs, rest);
      StepHolds(Run(rest, timeoutNs), rest, m);
      assert ms == rest + [m];
    }
  }

  // ---------- when output is held, and what quotes go out ----------

  /** The seeks the gate was built from: the first to arrive. */
  function ArmedWith(ms: seq<Input>): Option<seq<W.Seek>> {
    if ms == [] then None
    else
      var before, m := ArmedWith(ms[..|ms| - 1]), ms[|ms| - 1];
      if before.None? && m.Arm? then Some(m.seeks) else before
  }

  /** The positions consumed since. */
  function SinceArmed(ms: seq<Input>): seq<W.Observed> {
    if ms == [] then []
    else
      var rest, m := ms[..|ms| - 1], ms[|ms| - 1];
      if ArmedWith(rest).Some? && (m.Book? || m.Other?) then SinceArmed(rest) + [m.at] else SinceArmed(rest)
  }

  /** A partition that the seeks gate has not drained since. */
  predicate Held(ms: seq<Input>) {
    ArmedWith(ms).Some? && !W.AllDrained(ArmedWith(ms).value, SinceArmed(ms))
  }

  ghost predicate GateTold(st: State, ms: seq<Input>) {
    && (st.armed <==> ArmedWith(ms).Some?)
    && st.gate == if st.armed then W.ObserveAll(W.GateOf(ArmedWith(ms).value), SinceArmed(ms)) else map[]
  }

  /** What a message does to the gate. */
  function Gating(m: Input, armed: bool, gate: W.Gate): W.Gate {
    if m.Book? || m.Other? then W.Observe(gate, m.at) else if m.Arm? && !armed then W.GateOf(m.seeks) else gate
  }

  lemma AdvanceFrame(st: State, tsNs: int)
    ensures var a := Advance(st, tsNs); a.gate == st.gate && a.armed == st.armed && a.quotes == st.quotes
  {
    EvictFrame(st.(now := if tsNs > st.now then tsNs else st.now), st.order);
  }

  lemma RouteQuotes(st: State, id: Option<string>, bbo: Option<Bbo>)
    ensures var r := Route(st, id, bbo);
            && r.armed == st.armed && r.gate == st.gate
            && r.quotes == st.quotes + if W.Warming(st.gate) then [] else ToSeq(bbo)
  {
    assert st.quotes + [] == st.quotes;
  }

  lemma PassGate(st: State, at: W.Observed)
    ensures Pass(st, at).armed == st.armed && Pass(st, at).gate == W.Observe(st.gate, at) && Pass(st, at).quotes == st.quotes
  {
  }

  lemma StepGate(st: State, m: Input)
    ensures Step(st, m).armed == (st.armed || m.Arm?) && Step(st, m).gate == Gating(m, st.armed, st.gate)
    ensures Step(st, m).quotes == st.quotes + if m.Book? && !W.Warming(st.gate) then ToSeq(m.bbo) else []
  {
    match m
    case Status(_, _, tsNs) =>
      AdvanceFrame(st, tsNs);
    case Book(id, bbo, tsNs, at) =>
      AdvanceFrame(st, tsNs);
      RouteQuotes(Advance(st, tsNs), id, bbo);
      PassGate(Route(Advance(st, tsNs), id, bbo), at);
    case Other(tsNs, at) =>
      AdvanceFrame(st, tsNs);
      PassGate(Advance(st, tsNs), at);
    case Bad =>
    case Arm(_) =>
  }

  lemma ArmedPush(ms: seq<Input>, m: Input)
    ensures ArmedWith(ms + [m]) == if ArmedWith(ms).None? && m.Arm? then Some(m.seeks) else ArmedWith(ms)
    ensures SinceArmed(ms + [m])
            == if ArmedWith(ms).Some? && (m.Book? || m.Other?) then SinceArmed(ms) + [m.at] else SinceArmed(ms)
    ensures ArmedWith(ms).None? ==> SinceArmed(ms) == []
  {
    assert (ms + [m])[..|ms|] == ms;
    NothingUnarmed(ms);
  }

  lemma {:induction false} NothingUnarmed(ms: seq<Input>)
    ensures ArmedWith(ms).None? ==> SinceArmed(ms) == []
  {
    if ms != [] {
      NothingUnarmed(ms[..|ms| - 1]);
    }
  }

  lemma StepToldGate(st: State, ms: seq<Input>, m: Input, all: seq<Input>)
    requires GateTold(st, ms) && all == ms + [m]
    ensures GateTold(Step(st, m), all)
  {
    StepGate(st, m);
    ArmedPush(ms, m);
    var os := SinceArmed(ms);
    assert m.Book? || m.Other? ==> (os + [m.at])[..|os|] == os;
  }

  lemma {:induction false} RunGate(timeoutNs: int, ms: seq<Input>)
    ensures GateTold(Run(ms, timeoutNs), ms)
  {
    if ms != [] {
      RunGate(timeoutNs, ms[..|ms| - 1]);
      StepToldGate(Run(ms[..|ms| - 1], timeoutNs), ms[..|ms| - 1], ms[|ms| - 1], ms);
    }
  }

  /** Output is held exactly from the arming until every gated partition has drained. */
  lemma HeldUntilDrained(timeoutNs: int, ms: seq<Input>)
    ensures W.Warming(Run(ms, timeoutNs).gate) <==> Held(ms)
  {
    RunGate(timeoutNs, ms);
    if ArmedWith(ms).Some? {
      W.WarmingUntilDrained(ArmedWith(ms).value, SinceArmed(ms));
    }
  }

  /** The quotes consumed while output was not held, in order. */
  function QuotesOf(ms: seq<Input>): seq<Bbo> {
    if ms == [] then []
    else
      var rest, m := ms[..|ms| - 1], ms[|ms| - 1];
      QuotesOf(rest) + if m.Book? && !Held(rest) then ToSeq(m.bbo) else []
  }

  /** Over every run, the quotes sent are those consumed while output was not held. */
  lemma {:induction false} RunQuotes(timeoutNs: int, ms: seq<Input>)
    ensures Run(ms, timeoutNs).quotes == QuotesOf(ms)
  {
    if ms != [] {
      var rest, m := ms[..|ms| - 1], ms[|ms| - 1];
      RunQuotes(timeoutNs, rest);
      HeldUntilDrained(timeoutNs, rest);
      StepGate(Run(rest, timeoutNs), m);
    }
  }

  // ---------- the output ----------

  /** The quotes' state is gated, and unless output is held the wire is in step with it and
      names live venues only. */
  ghost predicate Sound(st: State) {
    && Gated(st.agg)
    && (!W.Warming(st.gate) ==> InSync(st.agg, st.wire) && Named(st.agg, st.wire))
  }

  lemma MarkSound(st: State, v: string, down: bool)
    requires Sound(st)
    ensures Sound(Mark(st, v, down))
  {
    SetVenueDownKeeps(st.agg, v, down, st.now);
    if !W.Warming(st.gate) {
      SetVenueDownSyncs(st.agg, v, down, st.now, st.wire);
      SetVenueDownNames(st.agg, v, down, st.now, st.wire);
    }
  }

  lemma {:induction false} EvictSound(st: State, venues: seq<string>)
    requires Sound(st)
    ensures Sound(EvictEach(st, venues))
  {
    if venues != [] {
      EvictSound(st, venues[..|venues| - 1]);
      MarkSound(EvictEach(st, venues[..|venues| - 1]), venues[|venues| - 1], true);
    }
  }

  lemma AdvanceSound(st: State, tsNs: int)
    requires Sound(st)
    ensures Sound(Advance(st, tsNs)) && Advance(st, tsNs).gate == st.gate && Advance(st, tsNs).armed == st.armed
  {
    var later := st.(now := if tsNs > st.now then tsNs else st.now);
    EvictSound(later, st.order);
    EvictFrame(later, st.order);
  }

  lemma RouteSound(st: State, id: Option<string>, bbo: Option<Bbo>)
    requires Sound(st)
    ensures Sound(Route(st, id, bbo))
  {
    if bbo.Some? && id.Some? {
      OnBboKeeps(st.agg, id.value, bbo.value, st.now);
      if !W.Warming(st.gate) {
        OnBboSyncs(st.agg, id.value, bbo.value, st.now, st.wire);
        OnBboNames(st.agg, id.value, bbo.value, st.now, st.wire);
      }
    }
  }

  lemma PassSound(st: State, at: W.Observed)
    requires Sound(st)
    ensures Sound(Pass(st, at))
  {
    if W.Opens(st.gate, at) {
      SnapshotSyncs(st.agg, st.now, st.wire);
      SnapshotNames(st.agg, st.now, st.wire);
    }
  }

  lemma StepSound(st: State, m: Input)
    requires Sound(st) && (!st.armed ==> !W.Warming(st.gate))
    ensures Sound(Step(st, m)) && (!Step(st, m).armed ==> !W.Warming(Step(st, m).gate))
  {
    match m
    case Status(exchange, up, tsNs) =>
      AdvanceSound(st, tsNs);
      var after := Advance(st, tsNs);
      MarkSound(after.(seen := after.seen[exchange := tsNs], order := if exchange in after.seen then after.order else after.order + [exchange]),
                exchange, !up);
    case Book(id, bbo, tsNs, at) =>
      AdvanceSound(st, tsNs);
      RouteSound(Advance(st, tsNs), id, bbo);
      PassSound(Route(Advance(st, tsNs), id, bbo), at);
    case Other(tsNs, at) =>
      AdvanceSound(st, tsNs);
      PassSound(Advance(st, tsNs), at);
    case Bad =>
    case Arm(seeks) =>
  }

  lemma {:induction false} RunSound(timeoutNs: int, ms: seq<Input>)
    ensures Sound(Run(ms, timeoutNs)) && (!Run(ms, timeoutNs).armed ==> !W.Warming(Run(ms, timeoutNs).gate))
  {
    if ms != [] {
      RunSound(timeoutNs, ms[..|ms| - 1]);
      StepSound(Run(ms[..|ms| - 1], timeoutNs), ms[|ms| - 1]);
    }
  }

  /** The emit gate over every run: while output is not held, the tuple remembered of an
      instrument is absent exactly when no leg is live, and otherwise it is the L1 of the
      current winners and of the last NBBO sent for it. The legs are the log's latest quotes. */
  lemma WireIsCurrent(timeoutNs: int, ms: seq<Input>, id: string)
    requires QuotedIn(ms, id) && !Held(ms)
    ensures var st := Run(ms, timeoutNs);
            && id in st.agg.state
            && var inst := st.agg.state[id];
               && (forall v :: LegOf(inst.legs, v) == LatestQuote(ms, id, v))
               && (inst.last.None? <==> LiveVenues(inst.legs, st.agg.down) == {})
               && (inst.last.Some? ==>
                     && LastFor(st.wire, id).Some?
                     && IsBest(Compute(id, inst.legs, st.agg.down, st.now).value, inst.legs, st.agg.down)
                     && TopOf(LastFor(st.wire, id).value) == inst.last.value
                        == TopOf(Compute(id, inst.legs, st.agg.down, st.now).value))
  {
    RunSound(timeoutNs, ms);
    RunHolds(timeoutNs, ms);
    HeldUntilDrained(timeoutNs, ms);
    var st := Run(ms, timeoutNs);
    assert HoldsOf(st.agg, ms, id);
    var inst := st.agg.state[id];
    assert Remembered(inst, st.agg.down);
    TupleOf(id, inst.legs, st.agg.down, st.now);
    if inst.last.Some? {
      ComputeIsBest(id, inst.legs, st.agg.down, st.now);
    }
  }

  // ---------- the wire, told by the log ----------

  /** The venue has quoted the instrument in `qs`, and by `ms` it is not dead. */
  predicate LiveIn(qs: seq<Input>, ms: seq<Input>, timeoutNs: int, id: string, v: string) {
    LatestQuote(qs, id, v).Some? && !Dead(ms, v, Clock(ms), timeoutNs)
  }

  /** The live venue with the highest bid, then the larger size, then the lesser name. */
  ghost predicate BestBidder(qs: seq<Input>, ms: seq<Input>, timeoutNs: int, id: string, w: string) {
    && LiveIn(qs, ms, timeoutNs, id, w)
    && forall v :: LiveIn(qs, ms, timeoutNs, id, v) && v != w ==>
         var q, r := LatestQuote(qs, id, w).value, LatestQuote(qs, id, v).value;
         HigherBid(q, r) || (!HigherBid(r, q) && LexLess(w, v))
  }

  ghost predicate BestAsker(qs: seq<Input>, ms: seq<Input>, timeoutNs: int, id: string, w: string) {
    && LiveIn(qs, ms, timeoutNs, id, w)
    && forall v :: LiveIn(qs, ms, timeoutNs, id, v) && v != w ==>
         var q, r := LatestQuote(qs, id, w).value, LatestQuote(qs, id, v).value;
         LowerAsk(q, r) || (!LowerAsk(r, q) && LexLess(w, v))
  }

  ghost predicate HasBestLevels(sent: NbboMsg, qs: seq<Input>, ms: seq<Input>, timeoutNs: int) {
    exists w, x ::
      && BestBidder(qs, ms, timeoutNs, sent.id, w) && sent.bid.level == LatestQuote(qs, sent.id, w).value.bid
      && BestAsker(qs, ms, timeoutNs, sent.id, x) && sent.ask.level == LatestQuote(qs, sent.id, x).value.ask
  }

  ghost predicate NamesNoneDead(sent: NbboMsg, ms: seq<Input>, timeoutNs: int) {
    forall v :: Dead(ms, v, Clock(ms), timeoutNs) ==>
      v != sent.bid.exchange && v != sent.ask.exchange && v !in sent.constituents
  }

  /** The last NBBO sent of an instrument that a live venue quotes. */
  ghost predicate TellsBest(wire: seq<NbboMsg>, qs: seq<Input>, ms: seq<Input>, timeoutNs: int) {
    forall id, v :: LiveIn(qs, ms, timeoutNs, id, v) ==>
      && LastFor(wire, id).Some?
      && HasBestLevels(LastFor(wire, id).value, qs, ms, timeoutNs)
      && NamesNoneDead(LastFor(wire, id).value, ms, timeoutNs)
  }

  /** The venues taken out are the dead ones, and the legs are the latest quotes. */
  ghost predicate Told(st: State, qs: seq<Input>, ms: seq<Input>, timeoutNs: int) {
    Holds(st.agg, qs) && forall v :: v in st.agg.down <==> Dead(ms, v, Clock(ms), timeoutNs)
  }

  lemma LiveIsLive(st: State, qs: seq<Input>, ms: seq<Input>, timeoutNs: int, id: string)
    requires Told(st, qs, ms, timeoutNs)
    ensures var legs := InstrumentOf(st.agg, id).legs;
            forall v :: v in LiveVenues(legs, st.agg.down) <==> LiveIn(qs, ms, timeoutNs, id, v)
    ensures var legs := InstrumentOf(st.agg, id).legs;
            forall v :: v in legs ==> LatestQuote(qs, id, v) == Some(legs[v])
  {
    assert HoldsOf(st.agg, qs, id);
    var legs := InstrumentOf(st.agg, id).legs;
    forall v ensures v in legs <==> LatestQuote(qs, id, v).Some?
             ensures v in legs ==> LatestQuote(qs, id, v) == Some(legs[v])
    {
      assert LegOf(legs, v) == LatestQuote(qs, id, v);
    }
  }

  lemma WinnersAreBest(st: State, qs: seq<Input>, ms: seq<Input>, timeoutNs: int, id: string, c: NbboMsg)
    requires Told(st, qs, ms, timeoutNs) && IsBest(c, InstrumentOf(st.agg, id).legs, st.agg.down)
    ensures BestBidder(qs, ms, timeoutNs, id, c.bid.exchange) && c.bid.level == LatestQuote(qs, id, c.bid.exchange).value.bid
    ensures BestAsker(qs, ms, timeoutNs, id, c.ask.exchange) && c.ask.level == LatestQuote(qs, id, c.ask.exchange).value.ask
  {
    LiveIsLive(st, qs, ms, timeoutNs, id);
  }

  lemma LastTellsBest(st: State, qs: seq<Input>, ms: seq<Input>, timeoutNs: int, id: string, v: string)
    requires Sound(st) && !W.Warming(st.gate) && Told(st, qs, ms, timeoutNs) && LiveIn(qs, ms, timeoutNs, id, v)
    ensures LastFor(st.wire, id).Some?
    ensures HasBestLevels(LastFor(st.wire, id).value, qs, ms, timeoutNs)
    ensures NamesNoneDead(LastFor(st.wire, id).value, ms, timeoutNs)
  {
    LiveIsLive(st, qs, ms, timeoutNs, id);
    var legs := InstrumentOf(st.agg, id).legs;
    assert v in LiveVenues(legs, st.agg.down) && Remembered(st.agg.state[id], st.agg.down);
    TupleOf(id, legs, st.agg.down, st.now);
    ComputeIsBest(id, legs, st.agg.down, st.now);
    var c := Compute(id, legs, st.agg.down, st.now).value;
    WinnersAreBest(st, qs, ms, timeoutNs, id, c);
    LastIsFor(st.wire, id);
    var sent := LastFor(st.wire, id).value;
    assert TopOf(sent) == TopOf(c);
    assert NamedAt(st.agg.state[id], st.wire, id, st.agg.down);
  }

  lemma {:induction false} LastIsFor(wire: seq<NbboMsg>, id: string)
    ensures LastFor(wire, id).Some? ==> LastFor(wire, id).value.id == id
  {
    if wire != [] {
      LastIsFor(wire[..|wire| - 1], id);
    }
  }

  lemma ToldTellsBest(st: State, qs: seq<Input>, ms: seq<Input>, timeoutNs: int)
    requires Sound(st) && !W.Warming(st.gate) && Told(st, qs, ms, timeoutNs)
    ensures TellsBest(st.wire, qs, ms, timeoutNs)
  {
    forall id, v | LiveIn(qs, ms, timeoutNs, id, v)
      ensures LastFor(st.wire, id).Some? && HasBestLevels(LastFor(st.wire, id).value, qs, ms, timeoutNs)
              && NamesNoneDead(LastFor(st.wire, id).value, ms, timeoutNs)
    {
      LastTellsBest(st, qs, ms, timeoutNs, id, v);
    }
  }

  /** The wire over every run, told by the log alone. While output is not held: as soon as a
      message's evictions are done, the last NBBO of every instrument that a venue not yet dead
      has quoted holds the best bid and the best ask among those venues' latest quotes, and
      names no dead venue; and so again, the message's own quote included, when the message
      has been handled. */
  lemma WireTellsBest(timeoutNs: int, ms: seq<Input>, m: Input)
    requires m.Book? || m.Other?
    ensures !Held(ms) ==> TellsBest(Advance(Run(ms, timeoutNs), m.tsNs).wire, ms, ms + [m], timeoutNs)
    ensures !Held(ms + [m]) ==> TellsBest(Run(ms + [m], timeoutNs).wire, ms + [m], ms + [m], timeoutNs)
  {
    var st := Run(ms, timeoutNs);
    assert (ms + [m])[..|ms|] == ms;
    DownExactlyWhenDead(timeoutNs, ms, m);
    HeldUntilDrained(timeoutNs, ms);
    HeldUntilDrained(timeoutNs, ms + [m]);
    RunSound(timeoutNs, ms);
    RunSound(timeoutNs, ms + [m]);
    RunHolds(timeoutNs, ms);
    RunHolds(timeoutNs, ms + [m]);
    AdvanceSound(st, m.tsNs);
    AdvanceHolds(st, ms, m.tsNs);
    StepFrame(st, m);
    if !Held(ms) {
      ToldTellsBest(Advance(st, m.tsNs), ms, ms + [m], timeoutNs);
    }
    if !Held(ms + [m]) {
      ToldTellsBest(Step(st, m), ms + [m], ms + [m], timeoutNs);
    }
  }

  /** What a quote sends names no dead venue: not as a winner, not as a constituent. */
  lemma QuoteNamesNoDeadVenue(timeoutNs: int, ms: seq<Input>, m: Input, i: nat)
    requires m.Book? && m.id.Some? && m.bbo.Some?
    requires var routed := Advance(Run(ms, timeoutNs), m.tsNs); i < |OnBbo(routed.agg, m.id.value, m.bbo.value, routed.now).out|
    ensures var routed := Advance(Run(ms, timeoutNs), m.tsNs);
            var sent := OnBbo(routed.agg, m.id.value, m.bbo.value, routed.now).out[i];
            forall v :: Dead(ms + [m], v, Clock(ms + [m]), timeoutNs) ==>
              v != sent.bid.exchange && v != sent.ask.exchange && v !in sent.constituents
  {
    DownExactlyWhenDead(timeoutNs, ms, m);
    RunSound(timeoutNs, ms);
    var st := Run(ms, timeoutNs);
    AdvanceSound(st, m.tsNs);
    var routed := Advance(st, m.tsNs);
    OnBboEmitsIff(routed.agg, m.id.value, m.bbo.value, routed.now);
    var legs := InstrumentOf(routed.agg, m.id.value).legs[m.bbo.value.key.exchange := m.bbo.value];
    MembersAre(OnBbo(routed.agg, m.id.value, m.bbo.value, routed.now).out[i].constituents, LiveVenues(legs, routed.agg.down));
  }

  lemma {:induction false} EvictHeld(st: State, venues: seq<string>)
    requires W.Warming(st.gate)
    ensures EvictEach(st, venues).wire == st.wire
  {
    if venues != [] {
      EvictHeld(st, venues[..|venues| - 1]);
      EvictFrame(st, venues[..|venues| - 1]);
    }
  }

  /** Nothing is sent while the gate holds. */
  lemma HeldIsSilent(st: State, m: Input)
    requires W.Warming(st.gate) && W.Warming(Step(st, m).gate)
    ensures Step(st, m).wire == st.wire && Step(st, m).quotes == st.quotes
  {
    if m.Status? || m.Book? || m.Other? {
      var later := st.(now := if m.tsNs > st.now then m.tsNs else st.now);
      EvictHeld(later, st.order);
      EvictFrame(later, st.order);
    }
  }

  // ---------- the closures ----------

  class Gateway {
    const nbbo: NbboAggregator
    const timeoutNs: int
    var streamNow: int
    var lastSeen: map<string, int>
    var order: seq<string>
    var gate: W.DrainGate?
    var quotes: seq<Bbo>
    var wire: seq<NbboMsg>

    function Pending(): W.Gate
      reads this, gate
    {
      if gate == null then map[] else gate.pending
    }

    function Value(): State
      reads this, nbbo, gate
    {
      State(nbbo.Contents(), streamNow, lastSeen, order, Pending(), gate != null, quotes, wire, timeoutNs)
    }

    ghost predicate Valid()
      reads this, nbbo
    {
      Gated(nbbo.Contents()) && forall v :: v in order ==> v in lastSeen
    }

    constructor (timeoutNs: int)
      ensures Value() == Start(timeoutNs) && Valid() && fresh(nbbo)
    {
      nbbo := new NbboAggregator();
      this.timeoutNs := timeoutNs;
      streamNow, lastSeen, order, gate, quotes, wire := 0, map[], [], null, [], [];
    }

    /** Held through the warm-start drain. */
    method EmitNbbo(out: seq<NbboMsg>)
      modifies this`wire
      ensures Value() == Send(old(Value()), nbbo.Contents(), out)
    {
      if Pending() == map[] {
        wire := wire + out;
      }
    }

    method MarkAndEmit(exchange: string, down: bool)
      requires Valid()
      modifies this`wire, nbbo
      ensures Valid() && Value() == Mark(old(Value()), exchange, down)
    {
      var out := nbbo.MarkVenue(exchange, down, streamNow);
      EmitNbbo(out);
    }

    method EvictSilentVenues()
      requires Valid()
      modifies this`wire, nbbo
      ensures Valid() && Value() == EvictEach(old(Value()), order)
    {
      for i := 0 to |order|
        invariant Valid() && Value() == EvictEach(old(Value()), order[..i])
      {
        EvictPush(old(Value()), order, i);
        if streamNow - lastSeen[order[i]] > timeoutNs {
          MarkAndEmit(order[i], true);
        }
      }
      assert order[..|order|] == order;
    }

    method AdvanceTo(tsNs: int)
      requires Valid()
      modifies this`streamNow, this`wire, nbbo
      ensures Valid() && Value() == Advance(old(Value()), tsNs)
    {
      streamNow := if tsNs > streamNow then tsNs else streamNow;
      EvictSilentVenues();
    }

    method OnStatus(exchange: string, up: bool, tsNs: int)
      requires Valid()
      modifies this`lastSeen, this`order, this`wire, nbbo
      ensures Valid() && Value() == HandleStatus(old(Value()), exchange, up, tsNs)
    {
      if exchange !in lastSeen {
        order := order + [exchange];
      }
      lastSeen := lastSeen[exchange := tsNs];
      MarkAndEmit(exchange, !up);
    }

    method RouteQuote(id: Option<string>, bbo: Option<Bbo>)
      requires Valid()
      modifies this`quotes, this`wire, nbbo
      ensures Valid() && Value() == Route(old(Value()), id, bbo)
    {
      if bbo.Some? {
        PublishQuote(bbo.value);
        if id.Some? {
          CombineQuote(id.value, bbo.value);
        }
      }
    }

    method PublishQuote(bbo: Bbo)
      modifies this`quotes
      ensures Value() == Publish(old(Value()), bbo)
    {
      if Pending() == map[] {
        quotes := quotes + [bbo];
      }
    }

    method CombineQuote(id: string, bbo: Bbo)
      requires Valid()
      modifies this`wire, nbbo
      ensures Valid() && Value() == Combine(old(Value()), id, bbo)
    {
      var out := nbbo.OnBBO(id, bbo, streamNow);
      EmitNbbo(ToSeq(out));
    }

    method PassOffset(at: W.Observed)
      requires Valid()
      modifies this`wire, gate
      ensures Valid() && Value() == Pass(old(Value()), at)
    {
      if gate != null {
        var opens := gate.Record(at.key.topic, at.key.partition, at.offset);
        if opens {
          var out := nbbo.Snapshot(streamNow);
          EmitNbbo(out);
        }
      }
    }

    method EachMessage(m: Input)
      requires Valid()
      modifies this, nbbo, gate
      ensures Valid() && Value() == Step(old(Value()), m)
    {
      match m
      case Status(exchange, up, tsNs) =>
        AdvanceTo(tsNs);
        OnStatus(exchange, up, tsNs);
      case Book(id, bbo, tsNs, at) =>
        AdvanceTo(tsNs);
        RouteQuote(id, bbo);
        PassOffset(at);
      case Other(tsNs, at) =>
        AdvanceTo(tsNs);
        PassOffset(at);
      case Bad =>
      case Arm(seeks) =>
        if gate == null {
          gate := new W.DrainGate(seeks);
        }
    }
  }

  lemma EvictPush(st: State, venues: seq<string>, i: nat)
    requires i < |venues|
    ensures EvictEach(st, venues[..i + 1])
            == if Silent(st, venues[i]) then Mark(EvictEach(st, venues[..i]), venues[i], true) else EvictEach(st, venues[..i])
  {
    assert venues[..i + 1][..i] == venues[..i];
  }
}
