/** The cross-venue best bid and offer: its winners, its emit gate, and the venues taken
    out of it. */
module Nbbo {
  import opened Decimal
  import opened Levels
  import opened Names
  import opened Stream
  import opened Aggregator

  /** The latest quote of each venue. */
  type Legs = map<string, Bbo>

  function LiveVenues(legs: Legs, down: set<string>): set<string> {
    legs.Keys - down
  }

  // ---------- the winners ----------

  predicate BeatsBid(candidate: Bbo, incumbent: Bbo) {
    var c := Cmp(candidate.bid.px, incumbent.bid.px);
    if c != 0 then c > 0 else Cmp(candidate.bid.sz, incumbent.bid.sz) > 0
  }

  predicate BeatsAsk(candidate: Bbo, incumbent: Bbo) {
    var c := Cmp(candidate.ask.px, incumbent.ask.px);
    if c != 0 then c < 0 else Cmp(candidate.ask.sz, incumbent.ask.sz) > 0
  }

  /** The best so far, or the next venue if it beats it. */
  function OrBid(legs: Legs, best: Option<string>, v: string): Option<string>
    requires v in legs && (best.Some? ==> best.value in legs)
  {
    if best.None? || BeatsBid(legs[v], legs[best.value]) then Some(v) else best
  }

  function OrAsk(legs: Legs, best: Option<string>, v: string): Option<string>
    requires v in legs && (best.Some? ==> best.value in legs)
  {
    if best.None? || BeatsAsk(legs[v], legs[best.value]) then Some(v) else best
  }

  /** The walk over the sorted live venues; only a strict win replaces. */
  function BestBid(legs: Legs, names: seq<string>): (w: Option<string>)
    requires forall v :: v in names ==> v in legs
    ensures w.Some? ==> w.value in names
    ensures w.None? <==> names == []
  {
    if names == [] then None
    else
      OrBid(legs, BestBid(legs, names[..|names| - 1]), names[|names| - 1])
  }

  function BestAsk(legs: Legs, names: seq<string>): (w: Option<string>)
    requires forall v :: v in names ==> v in legs
    ensures w.Some? ==> w.value in names
    ensures w.None? <==> names == []
  {
    if names == [] then None
    else
      OrAsk(legs, BestAsk(legs, names[..|names| - 1]), names[|names| - 1])
  }

  /** A higher exact price, then a larger exact size. */
  predicate HigherBid(a: Bbo, b: Bbo) {
    Value(a.bid.px) > Value(b.bid.px) || (Value(a.bid.px) == Value(b.bid.px) && Value(a.bid.sz) > Value(b.bid.sz))
  }

  predicate LowerAsk(a: Bbo, b: Bbo) {
    Value(a.ask.px) < Value(b.ask.px) || (Value(a.ask.px) == Value(b.ask.px) && Value(a.ask.sz) > Value(b.ask.sz))
  }

  lemma BeatsBidIsHigher(a: Bbo, b: Bbo)
    ensures BeatsBid(a, b) <==> HigherBid(a, b)
  {
    CmpAgrees(a.bid.px, b.bid.px);
    CmpAgrees(a.bid.sz, b.bid.sz);
  }

  lemma BeatsAskIsLower(a: Bbo, b: Bbo)
    ensures BeatsAsk(a, b) <==> LowerAsk(a, b)
  {
    CmpAgrees(a.ask.px, b.ask.px);
    CmpAgrees(a.ask.sz, b.ask.sz);
  }

  /** Best by price, then size, then name. */
  predicate WinsBid(legs: Legs, w: string, v: string)
    requires w in legs && v in legs
  {
    HigherBid(legs[w], legs[v]) || (!HigherBid(legs[v], legs[w]) && LexLess(w, v))
  }

  predicate WinsAsk(legs: Legs, w: string, v: string)
    requires w in legs && v in legs
  {
    LowerAsk(legs[w], legs[v]) || (!LowerAsk(legs[v], legs[w]) && LexLess(w, v))
  }

  predicate BidWinsAll(legs: Legs, w: string, names: seq<string>) {
    w in legs && forall v :: v in names && v in legs && v != w ==> WinsBid(legs, w, v)
  }

  /** A strict winner over the winner so far wins over all it won over. */
  lemma BidWinExtends(legs: Legs, x: string, best: string, v: string)
    requires x in legs && best in legs && v in legs
    requires HigherBid(legs[x], legs[best]) && (v == best || WinsBid(legs, best, v))
    ensures WinsBid(legs, x, v)
  {
  }

  lemma NewBidWinner(legs: Legs, rest: seq<string>, x: string, best: string)
    requires BidWinsAll(legs, best, rest) && x in legs && BeatsBid(legs[x], legs[best])
    ensures BidWinsAll(legs, x, rest + [x])
  {
    BeatsBidIsHigher(legs[x], legs[best]);
    forall v | v in rest && v in legs ensures WinsBid(legs, x, v) {
      BidWinExtends(legs, x, best, v);
    }
  }

  lemma SameBidWinner(legs: Legs, rest: seq<string>, x: string, best: string)
    requires BidWinsAll(legs, best, rest) && best in rest && x in legs && !BeatsBid(legs[x], legs[best]) && Ascending(rest + [x])
    ensures BidWinsAll(legs, best, rest + [x])
  {
    BeatsBidIsHigher(legs[x], legs[best]);
    GreatestIsLast(rest + [x], best);
  }

  lemma {:induction false} BestBidWins(legs: Legs, names: seq<string>)
    requires names != [] && Ascending(names) && forall v :: v in names ==> v in legs
    ensures BidWinsAll(legs, BestBid(legs, names).value, names)
  {
    var rest, x := names[..|names| - 1], names[|names| - 1];
    assert names == rest + [x];
    if rest != [] {
      BestBidWins(legs, rest);
      var best := BestBid(legs, rest).value;
      if BeatsBid(legs[x], legs[best]) {
        NewBidWinner(legs, rest, x, best);
      } else {
        SameBidWinner(legs, rest, x, best);
      }
    }
  }

  predicate AskWinsAll(legs: Legs, w: string, names: seq<string>) {
    w in legs && forall v :: v in names && v in legs && v != w ==> WinsAsk(legs, w, v)
  }

  /** A strict winner over the winner so far wins over all it won over. */
  lemma AskWinExtends(legs: Legs, x: string, best: string, v: string)
    requires x in legs && best in legs && v in legs
    requires LowerAsk(legs[x], legs[best]) && (v == best || WinsAsk(legs, best, v))
    ensures WinsAsk(legs, x, v)
  {
  }

  lemma NewAskWinner(legs: Legs, rest: seq<string>, x: string, best: string)
    requires AskWinsAll(legs, best, rest) && x in legs && BeatsAsk(legs[x], legs[best])
    ensures AskWinsAll(legs, x, rest + [x])
  {
    BeatsAskIsLower(legs[x], legs[best]);
    forall v | v in rest && v in legs ensures WinsAsk(legs, x, v) {
      AskWinExtends(legs, x, best, v);
    }
  }

  lemma SameAskWinner(legs: Legs, rest: seq<string>, x: string, best: string)
    requires AskWinsAll(legs, best, rest) && best in rest && x in legs && !BeatsAsk(legs[x], legs[best]) && Ascending(rest + [x])
    ensures AskWinsAll(legs, best, rest + [x])
  {
    BeatsAskIsLower(legs[x], legs[best]);
    GreatestIsLast(rest + [x], best);
  }

  lemma {:induction false} BestAskWins(legs: Legs, names: seq<string>)
    requires names != [] && Ascending(names) && forall v :: v in names ==> v in legs
    ensures AskWinsAll(legs, BestAsk(legs, names).value, names)
  {
    var rest, x := names[..|names| - 1], names[|names| - 1];
    assert names == rest + [x];
    if rest != [] {
      BestAskWins(legs, rest);
      var best := BestAsk(legs, rest).value;
      if BeatsAsk(legs[x], legs[best]) {
        NewAskWinner(legs, rest, x, best);
      } else {
        SameAskWinner(legs, rest, x, best);
      }
    }
  }

  // ---------- the message ----------

  datatype L1 = L1(bid: WireLevel, ask: WireLevel)

  datatype Leg = Leg(level: WireLevel, exchange: string, stamp: Stamp)

  datatype NbboMsg = NbboMsg(id: string, bid: Leg, ask: Leg, crossed: bool, constituents: seq<string>, nowNs: int)

  function TopOf(m: NbboMsg): L1 {
    L1(m.bid.level, m.ask.level)
  }

  /** What the sorted live venues make of the legs. */
  function Combined(id: string, legs: Legs, names: seq<string>, nowNs: int): NbboMsg
    requires names != [] && forall v :: v in names ==> v in legs
  {
    var bid, ask := legs[BestBid(legs, names).value], legs[BestAsk(legs, names).value];
    NbboMsg(
      id, Leg(bid.bid, bid.key.exchange, bid.stamp), Leg(ask.ask, ask.key.exchange, ask.stamp),
      Cmp(ask.ask.px, bid.bid.px) < 0, names, nowNs)
  }

  ghost function Compute(id: string, legs: Legs, down: set<string>, nowNs: int): Option<NbboMsg> {
    var names := Listing(LiveVenues(legs, down));
    MembersAre(names, LiveVenues(legs, down));
    if names == [] then None else Some(Combined(id, legs, names, nowNs))
  }

  /** The tuple the emit gate compares. */
  ghost function Tuple(legs: Legs, down: set<string>): Option<L1> {
    var m := Compute("", legs, down, 0);
    if m.None? then None else Some(TopOf(m.value))
  }

  lemma TupleOf(id: string, legs: Legs, down: set<string>, nowNs: int)
    ensures Compute(id, legs, down, nowNs).None? <==> Tuple(legs, down).None?
    ensures Compute(id, legs, down, nowNs).Some? ==> Tuple(legs, down) == Some(TopOf(Compute(id, legs, down, nowNs).value))
    ensures Tuple(legs, down).None? <==> LiveVenues(legs, down) == {}
  {
    EmptyListing(Listing(LiveVenues(legs, down)));
  }

  /** Each leg is filed under its venue. */
  predicate Filed(legs: Legs) {
    forall v :: v in legs ==> legs[v].key.exchange == v
  }

  /** The winners are live venues, best by exact price, then exact size, then name; the
      crossed flag is exact. */
  predicate IsBest(m: NbboMsg, legs: Legs, down: set<string>) {
    && m.bid.exchange in LiveVenues(legs, down) && m.ask.exchange in LiveVenues(legs, down)
    && m.bid.level == legs[m.bid.exchange].bid && m.ask.level == legs[m.ask.exchange].ask
    && m.bid.stamp == legs[m.bid.exchange].stamp && m.ask.stamp == legs[m.ask.exchange].stamp
    && (forall v :: v in LiveVenues(legs, down) && v != m.bid.exchange ==> WinsBid(legs, m.bid.exchange, v))
    && (forall v :: v in LiveVenues(legs, down) && v != m.ask.exchange ==> WinsAsk(legs, m.ask.exchange, v))
    && (m.crossed <==> Value(m.ask.level.px) < Value(m.bid.level.px))
    && IsListing(m.constituents, LiveVenues(legs, down))
  }

  lemma ComputeIsBest(id: string, legs: Legs, down: set<string>, nowNs: int)
    requires Filed(legs) && LiveVenues(legs, down) != {}
    ensures var m := Compute(id, legs, down, nowNs);
            m.Some? && m.value.id == id && m.value.nowNs == nowNs && IsBest(m.value, legs, down)
  {
    var names := Listing(LiveVenues(legs, down));
    EmptyListing(names);
    MembersAre(names, LiveVenues(legs, down));
    BestBidWins(legs, names);
    BestAskWins(legs, names);
    var m := Combined(id, legs, names, nowNs);
    CmpAgrees(m.ask.level.px, m.bid.level.px);
  }

  lemma MembersAre(names: seq<string>, s: set<string>)
    requires IsListing(names, s)
    ensures forall v :: v in names <==> v in s
  {
  }

  /** No other venue could be the winner. */
  lemma OneWinner(m: NbboMsg, other: NbboMsg, legs: Legs, down: set<string>)
    requires IsBest(m, legs, down) && IsBest(other, legs, down)
    ensures m.bid.exchange == other.bid.exchange && m.ask.exchange == other.ask.exchange && TopOf(m) == TopOf(other)
  {
    LexTotal(m.bid.exchange, other.bid.exchange);
    LexTotal(m.ask.exchange, other.ask.exchange);
  }

  // ---------- the aggregator as a state ----------

  datatype Instrument = Instrument(legs: Legs, last: Option<L1>)

  /** `ids` lists the instruments in the order they were first quoted. */
  datatype Agg = Agg(state: map<string, Instrument>, ids: seq<string>, down: set<string>)

  datatype Quoted = Quoted(agg: Agg, out: seq<NbboMsg>)

  function InstrumentOf(a: Agg, id: string): Instrument {
    if id in a.state then a.state[id] else Instrument(map[], None)
  }

  /** What a quote leaves of its instrument. */
  ghost function Requoted(inst: Instrument, id: string, msg: Bbo, down: set<string>, nowNs: int): Instrument {
    var legs := inst.legs[msg.key.exchange := msg];
    var computed := Compute(id, legs, down, nowNs);
    Instrument(legs, if computed.None? then inst.last else Some(TopOf(computed.value)))
  }

  ghost function OnBbo(a: Agg, id: string, msg: Bbo, nowNs: int): Quoted {
    var inst := InstrumentOf(a, id);
    var after := Requoted(inst, id, msg, a.down, nowNs);
    var computed := Compute(id, after.legs, a.down, nowNs);
    Quoted(
      Agg(a.state[id := after], if id in a.state then a.ids else a.ids + [id], a.down),
      if computed.None? || inst.last == after.last then [] else [computed.value])
  }

  datatype Swept = Swept(state: map<string, Instrument>, out: seq<NbboMsg>)

  datatype Refreshed = Refreshed(state: map<string, Instrument>, sent: Option<NbboMsg>)

  /** Recomputes one instrument, if it has a leg of the venue. */
  ghost function Refresh(state: map<string, Instrument>, id: string, exchange: string, down: set<string>, nowNs: int): Refreshed {
    if id !in state || exchange !in state[id].legs then Refreshed(state, None)
    else
      var inst := state[id];
      var computed := Compute(id, inst.legs, down, nowNs);
      Refreshed(state[id := inst.(last := if computed.None? then None else Some(TopOf(computed.value)))], computed)
  }

  function ToSeq<T>(o: Option<T>): seq<T> {
    if o.None? then [] else [o.value]
  }

  ghost function SweepOne(s: Swept, id: string, exchange: string, down: set<string>, nowNs: int): Swept {
    var r := Refresh(s.state, id, exchange, down, nowNs);
    Swept(r.state, s.out + ToSeq(r.sent))
  }

  ghost function Sweep(state: map<string, Instrument>, ids: seq<string>, exchange: string, down: set<string>, nowNs: int): Swept {
    if ids == [] then Swept(state, [])
    else SweepOne(Sweep(state, ids[..|ids| - 1], exchange, down, nowNs), ids[|ids| - 1], exchange, down, nowNs)
  }

  /** Recomputes every instrument with a leg of the venue, on an actual transition. */
  ghost function SetVenueDown(a: Agg, exchange: string, down: bool, nowNs: int): Quoted {
    if down == (exchange in a.down) then Quoted(a, [])
    else
      var venues := if down then a.down + {exchange} else a.down - {exchange};
      var s := Sweep(a.state, a.ids, exchange, venues, nowNs);
      Quoted(Agg(s.state, a.ids, venues), s.out)
  }

  ghost function SnapshotFrom(a: Agg, ids: seq<string>, nowNs: int): seq<NbboMsg> {
    if ids == [] then []
    else SnapshotFrom(a, ids[..|ids| - 1], nowNs) + ToSeq(SnapshotOf(a, ids[|ids| - 1], nowNs))
  }

  ghost function SnapshotOf(a: Agg, id: string, nowNs: int): Option<NbboMsg> {
    Compute(id, InstrumentOf(a, id).legs, a.down, nowNs)
  }

  // ---------- the emit gate ----------

  predicate NoRepeats(ids: seq<string>) {
    forall i, j :: 0 <= i < j < |ids| ==> ids[i] != ids[j]
  }

  /** The remembered tuple is the current winners' L1, or nothing when no leg is live. */
  ghost predicate Remembered(inst: Instrument, down: set<string>) {
    Filed(inst.legs) && inst.last == Tuple(inst.legs, down)
  }

  ghost predicate Gated(a: Agg) {
    && NoRepeats(a.ids) && (forall id :: id in a.ids <==> id in a.state)
    && (forall id :: id in a.state ==> Remembered(a.state[id], a.down))
  }

  /** The last message sent for an instrument. */
  function LastFor(wire: seq<NbboMsg>, id: string): Option<NbboMsg> {
    if wire == [] then None
    else if wire[|wire| - 1].id == id then Some(wire[|wire| - 1])
    else LastFor(wire[..|wire| - 1], id)
  }

  /** What the wire last said of each live instrument is what is remembered of it. */
  ghost predicate InSync(a: Agg, wire: seq<NbboMsg>) {
    forall id :: id in a.state && a.state[id].last.Some? ==>
      LastFor(wire, id).Some? && TopOf(LastFor(wire, id).value) == a.state[id].last.value
  }

  lemma LastForPush(wire: seq<NbboMsg>, m: NbboMsg, id: string)
    ensures LastFor(wire + [m], id) == if m.id == id then Some(m) else LastFor(wire, id)
  {
    assert (wire + [m])[..|wire|] == wire;
  }

  lemma RequotedIsRemembered(inst: Instrument, id: string, msg: Bbo, down: set<string>, nowNs: int)
    requires Remembered(inst, down)
    ensures Remembered(Requoted(inst, id, msg, down, nowNs), down)
  {
    var legs := inst.legs[msg.key.exchange := msg];
    TupleOf(id, legs, down, nowNs);
    TupleOf(id, inst.legs, down, nowNs);
    if LiveVenues(legs, down) == {} {
      assert LiveVenues(inst.legs, down) <= LiveVenues(legs, down);
    }
  }

  lemma NewIsRemembered(down: set<string>)
    ensures Remembered(Instrument(map[], None), down)
  {
    TupleOf("", map[], down, 0);
    assert LiveVenues(map[], down) == {};
  }

  lemma OnBboKeeps(a: Agg, id: string, msg: Bbo, nowNs: int)
    requires Gated(a)
    ensures Gated(OnBbo(a, id, msg, nowNs).agg)
  {
    NewIsRemembered(a.down);
    RequotedIsRemembered(InstrumentOf(a, id), id, msg, a.down, nowNs);
  }

  lemma BeforeQuote(a: Agg, id: string)
    requires Gated(a)
    ensures Remembered(InstrumentOf(a, id), a.down)
  {
    NewIsRemembered(a.down);
  }

  /** A quote is sent on exactly when it leaves a live leg and changes the winning L1. */
  lemma OnBboEmitsIff(a: Agg, id: string, msg: Bbo, nowNs: int)
    requires Gated(a)
    ensures var before, after := InstrumentOf(a, id).legs, InstrumentOf(a, id).legs[msg.key.exchange := msg];
            var q := OnBbo(a, id, msg, nowNs);
            && (q.out != [] <==> Tuple(after, a.down).Some? && Tuple(after, a.down) != Tuple(before, a.down))
            && (q.out != [] ==> |q.out| == 1 && q.out[0].id == id && IsBest(q.out[0], after, a.down))
  {
    var inst := InstrumentOf(a, id);
    var after := inst.legs[msg.key.exchange := msg];
    BeforeQuote(a, id);
    TupleOf(id, after, a.down, nowNs);
    assert Filed(after);
    if LiveVenues(after, a.down) != {} {
      ComputeIsBest(id, after, a.down, nowNs);
    }
  }

  // ---------- a venue taken out or let back in ----------

  lemma LiveElsewhere(legs: Legs, down: set<string>, exchange: string)
    requires exchange !in legs
    ensures Tuple(legs, down + {exchange}) == Tuple(legs, down) == Tuple(legs, down - {exchange})
  {
    assert LiveVenues(legs, down + {exchange}) == LiveVenues(legs, down);
    assert LiveVenues(legs, down - {exchange}) == LiveVenues(legs, down);
  }

  lemma SweepOneIs(s: Swept, x: string, exchange: string, down: set<string>, nowNs: int)
    ensures SweepOne(s, x, exchange, down, nowNs).state
            == if x in s.state && exchange in s.state[x].legs then s.state[x := s.state[x].(last := Tuple(s.state[x].legs, down))]
               else s.state
  {
    if x in s.state {
      TupleOf(x, s.state[x].legs, down, nowNs);
    }
  }

  lemma {:induction false} SweepKeys(state: map<string, Instrument>, ids: seq<string>, exchange: string, down: set<string>, nowNs: int)
    ensures Sweep(state, ids, exchange, down, nowNs).state.Keys == state.Keys
  {
    if ids != [] {
      SweepKeys(state, ids[..|ids| - 1], exchange, down, nowNs);
      SweepOneIs(Sweep(state, ids[..|ids| - 1], exchange, down, nowNs), ids[|ids| - 1], exchange, down, nowNs);
    }
  }

  /** The sweep brings every instrument with a leg of the venue up to date, and only those. */
  lemma {:induction false} SweepIs(state: map<string, Instrument>, ids: seq<string>, exchange: string, down: set<string>, nowNs: int, id: string)
    requires id in state
    ensures id in Sweep(state, ids, exchange, down, nowNs).state
    ensures Sweep(state, ids, exchange, down, nowNs).state[id]
            == if id in ids && exchange in state[id].legs then state[id].(last := Tuple(state[id].legs, down)) else state[id]
  {
    if ids != [] {
      var rest, x := ids[..|ids| - 1], ids[|ids| - 1];
      assert ids == rest + [x];
      SweepIs(state, rest, exchange, down, nowNs, id);
      SweepOneIs(Sweep(state, rest, exchange, down, nowNs), x, exchange, down, nowNs);
    }
  }

  lemma SetVenueDownKeeps(a: Agg, exchange: string, down: bool, nowNs: int)
    requires Gated(a)
    ensures Gated(SetVenueDown(a, exchange, down, nowNs).agg)
    ensures var b := SetVenueDown(a, exchange, down, nowNs).agg;
            b.down == (if down then a.down + {exchange} else a.down - {exchange}) && b.state.Keys == a.state.Keys
  {
    var b := SetVenueDown(a, exchange, down, nowNs).agg;
    SweepKeys(a.state, a.ids, exchange, b.down, nowNs);
    forall id | id in b.state ensures Remembered(b.state[id], b.down) {
      SweepIs(a.state, a.ids, exchange, b.down, nowNs, id);
      assert Remembered(a.state[id], a.down);
      if exchange !in a.state[id].legs {
        LiveElsewhere(a.state[id].legs, a.down, exchange);
      }
    }
  }

  /** A venue's transition leaves every quote where it was. */
  lemma SetVenueDownLegs(a: Agg, exchange: string, down: bool, nowNs: int, id: string)
    ensures var b := SetVenueDown(a, exchange, down, nowNs).agg;
            && (id in b.state <==> id in a.state)
            && InstrumentOf(b, id).legs == InstrumentOf(a, id).legs
  {
    var b := SetVenueDown(a, exchange, down, nowNs).agg;
    SweepKeys(a.state, a.ids, exchange, b.down, nowNs);
    if id in a.state {
      SweepIs(a.state, a.ids, exchange, b.down, nowNs, id);
    } else {
      assert id !in a.state.Keys;
    }
  }

  // ---------- the wire ----------

  predicate SyncedAt(inst: Instrument, wire: seq<NbboMsg>, id: string) {
    inst.last.Some? ==> LastFor(wire, id).Some? && TopOf(LastFor(wire, id).value) == inst.last.value
  }

  lemma OnBboSyncs(a: Agg, id: string, msg: Bbo, nowNs: int, wire: seq<NbboMsg>)
    requires Gated(a) && InSync(a, wire)
    ensures InSync(OnBbo(a, id, msg, nowNs).agg, wire + OnBbo(a, id, msg, nowNs).out)
  {
    var q := OnBbo(a, id, msg, nowNs);
    var m := Compute(id, q.agg.state[id].legs, a.down, nowNs);
    assert wire + [] == wire;
    forall other | other in q.agg.state && q.agg.state[other].last.Some? ensures SyncedAt(q.agg.state[other], wire + q.out, other) {
      if q.out != [] {
        LastForPush(wire, m.value, other);
      }
    }
  }

  lemma SweepOneSyncs(s: Swept, x: string, exchange: string, down: set<string>, nowNs: int, wire: seq<NbboMsg>, id: string)
    requires id in s.state && SyncedAt(s.state[id], wire + s.out, id)
    ensures var after := SweepOne(s, x, exchange, down, nowNs);
            id in after.state && SyncedAt(after.state[id], wire + after.out, id)
  {
    var after := SweepOne(s, x, exchange, down, nowNs);
    var sent := Refresh(s.state, x, exchange, down, nowNs).sent;
    assert wire + (s.out + ToSeq(sent)) == (wire + s.out) + ToSeq(sent);
    SentIsLast(wire + s.out, sent, id);
  }

  lemma {:induction false} SweepSyncs(state: map<string, Instrument>, ids: seq<string>, exchange: string, down: set<string>, nowNs: int,
                                      wire: seq<NbboMsg>, id: string)
    requires id in state && SyncedAt(state[id], wire, id)
    ensures var s := Sweep(state, ids, exchange, down, nowNs);
            id in s.state && SyncedAt(s.state[id], wire + s.out, id)
  {
    if ids == [] {
      assert wire + [] == wire;
    } else {
      SweepSyncs(state, ids[..|ids| - 1], exchange, down, nowNs, wire, id);
      SweepOneSyncs(Sweep(state, ids[..|ids| - 1], exchange, down, nowNs), ids[|ids| - 1], exchange, down, nowNs, wire, id);
    }
  }

  lemma SetVenueDownSyncs(a: Agg, exchange: string, down: bool, nowNs: int, wire: seq<NbboMsg>)
    requires Gated(a) && InSync(a, wire)
    ensures InSync(SetVenueDown(a, exchange, down, nowNs).agg, wire + SetVenueDown(a, exchange, down, nowNs).out)
  {
    var q := SetVenueDown(a, exchange, down, nowNs);
    assert wire + [] == wire;
    SweepKeys(a.state, a.ids, exchange, q.agg.down, nowNs);
    forall id | id in q.agg.state ensures SyncedAt(q.agg.state[id], wire + q.out, id) {
      assert SyncedAt(a.state[id], wire, id);
      SweepSyncs(a.state, a.ids, exchange, q.agg.down, nowNs, wire, id);
    }
  }

  lemma SentIsLast(wire: seq<NbboMsg>, sent: Option<NbboMsg>, id: string)
    ensures LastFor(wire + ToSeq(sent), id) == if sent.Some? && sent.value.id == id then sent else LastFor(wire, id)
  {
    if sent.Some? {
      LastForPush(wire, sent.value, id);
    } else {
      assert wire + [] == wire;
    }
  }

  /** What the snapshot's message for `x`, if any, adds to the wire. */
  lemma SnapshotStep(a: Agg, rest: seq<string>, x: string, nowNs: int, wire: seq<NbboMsg>, id: string)
    ensures var before, sent := wire + SnapshotFrom(a, rest, nowNs), SnapshotOf(a, x, nowNs);
            LastFor(wire + SnapshotFrom(a, rest + [x], nowNs), id)
            == if sent.Some? && sent.value.id == id then sent else LastFor(before, id)
  {
    assert (rest + [x])[..|rest|] == rest;
    var sent := SnapshotOf(a, x, nowNs);
    Regroup(wire, SnapshotFrom(a, rest, nowNs), ToSeq(sent));
    SentIsLast(wire + SnapshotFrom(a, rest, nowNs), sent, id);
  }

  lemma Regroup<T>(a: seq<T>, b: seq<T>, c: seq<T>)
    ensures a + (b + c) == (a + b) + c
  {
  }

  lemma SnapshotOfSays(a: Agg, id: string, nowNs: int)
    requires id in a.state && Remembered(a.state[id], a.down)
    ensures var sent := SnapshotOf(a, id, nowNs);
            if sent.None? then a.state[id].last.None?
            else sent.value.id == id && a.state[id].last == Some(TopOf(sent.value))
  {
    TupleOf(id, a.state[id].legs, a.down, nowNs);
  }

  lemma {:induction false} SnapshotSays(a: Agg, ids: seq<string>, nowNs: int, wire: seq<NbboMsg>, id: string)
    requires id in ids && id in a.state && Remembered(a.state[id], a.down)
    ensures SyncedAt(a.state[id], wire + SnapshotFrom(a, ids, nowNs), id)
  {
    var rest, x := ids[..|ids| - 1], ids[|ids| - 1];
    assert ids == rest + [x];
    SnapshotStep(a, rest, x, nowNs, wire, id);
    if x == id {
      SnapshotOfSays(a, id, nowNs);
    } else {
      SnapshotSays(a, rest, nowNs, wire, id);
    }
  }

  /** Sending the snapshot brings any wire into step with the book of quotes. */
  lemma SnapshotSyncs(a: Agg, nowNs: int, wire: seq<NbboMsg>)
    requires Gated(a)
    ensures InSync(a, wire + SnapshotFrom(a, a.ids, nowNs))
  {
    forall id | id in a.state && a.state[id].last.Some? ensures SyncedAt(a.state[id], wire + SnapshotFrom(a, a.ids, nowNs), id) {
      SnapshotSays(a, a.ids, nowNs, wire, id);
    }
  }

  // ---------- whom the wire names ----------

  /** Winners and constituents are live venues. */
  predicate NamesLive(m: NbboMsg, legs: Legs, down: set<string>) {
    && m.bid.exchange in LiveVenues(legs, down) && m.ask.exchange in LiveVenues(legs, down)
    && forall v :: v in m.constituents ==> v in LiveVenues(legs, down)
  }

  /** What the wire last said of the instrument, if it has a live leg, names live venues. */
  predicate NamedAt(inst: Instrument, wire: seq<NbboMsg>, id: string, down: set<string>) {
    inst.last.Some? ==> LastFor(wire, id).Some? && NamesLive(LastFor(wire, id).value, inst.legs, down)
  }

  predicate Named(a: Agg, wire: seq<NbboMsg>) {
    forall id :: id in a.state ==> NamedAt(a.state[id], wire, id, a.down)
  }

  lemma ComputeNames(id: string, legs: Legs, down: set<string>, nowNs: int)
    requires Filed(legs)
    ensures var m := Compute(id, legs, down, nowNs); m.Some? ==> m.value.id == id && NamesLive(m.value, legs, down)
  {
    var m := Compute(id, legs, down, nowNs);
    if m.Some? {
      TupleOf(id, legs, down, nowNs);
      ComputeIsBest(id, legs, down, nowNs);
      MembersAre(m.value.constituents, LiveVenues(legs, down));
    }
  }

  /** The instrument of a quote: either the quote is sent on, or the last message stands. */
  lemma QuotedNames(inst: Instrument, id: string, msg: Bbo, down: set<string>, nowNs: int, wire: seq<NbboMsg>)
    requires Remembered(inst, down) && NamedAt(inst, wire, id, down)
    ensures var after := Requoted(inst, id, msg, down, nowNs);
            var m := Compute(id, after.legs, down, nowNs);
            && (m.None? || inst.last == after.last ==> NamedAt(after, wire, id, down))
            && (m.Some? ==> NamedAt(after, wire + [m.value], id, down))
  {
    var after := Requoted(inst, id, msg, down, nowNs);
    var m := Compute(id, after.legs, down, nowNs);
    RequotedIsRemembered(inst, id, msg, down, nowNs);
    TupleOf(id, after.legs, down, nowNs);
    ComputeNames(id, after.legs, down, nowNs);
    if m.Some? {
      LastForPush(wire, m.value, id);
    }
  }

  lemma UnquotedNames(inst: Instrument, wire: seq<NbboMsg>, m: NbboMsg, other: string, down: set<string>)
    requires NamedAt(inst, wire, other, down) && m.id != other
    ensures NamedAt(inst, wire + [m], other, down)
  {
    LastForPush(wire, m, other);
  }

  lemma OnBboNames(a: Agg, id: string, msg: Bbo, nowNs: int, wire: seq<NbboMsg>)
    requires Gated(a) && Named(a, wire)
    ensures Named(OnBbo(a, id, msg, nowNs).agg, wire + OnBbo(a, id, msg, nowNs).out)
  {
    var inst, q := InstrumentOf(a, id), OnBbo(a, id, msg, nowNs);
    var after := Requoted(inst, id, msg, a.down, nowNs);
    var m := Compute(id, after.legs, a.down, nowNs);
    assert wire + [] == wire;
    NewIsRemembered(a.down);
    QuotedNames(inst, id, msg, a.down, nowNs, wire);
    assert NamedAt(after, wire + q.out, id, a.down);
    forall other | other in a.state && other != id ensures NamedAt(a.state[other], wire + q.out, other, a.down) {
      if q.out != [] {
        UnquotedNames(a.state[other], wire, m.value, other, a.down);
      }
    }
  }

  /** A sweep leaves what it recomputes well named, and says nothing of any other instrument. */
  lemma {:induction false} SweepNames(state: map<string, Instrument>, ids: seq<string>, exchange: string, down: set<string>, nowNs: int,
                                      wire: seq<NbboMsg>, id: string)
    requires id in state && Filed(state[id].legs)
    ensures var s := Sweep(state, ids, exchange, down, nowNs);
            && id in s.state
            && if id in ids && exchange in state[id].legs then NamedAt(s.state[id], wire + s.out, id, down)
               else s.state[id] == state[id] && LastFor(wire + s.out, id) == LastFor(wire, id)
  {
    if ids == [] {
      assert wire + [] == wire;
    } else {
      var rest, x := ids[..|ids| - 1], ids[|ids| - 1];
      assert ids == rest + [x];
      SweepNames(state, rest, exchange, down, nowNs, wire, id);
      SweepIs(state, rest, exchange, down, nowNs, id);
      SweepIs(state, ids, exchange, down, nowNs, id);
      var before := Sweep(state, rest, exchange, down, nowNs);
      SweepOneNames(before, x, exchange, down, nowNs, wire, id);
    }
  }

  lemma SweepOneNames(s: Swept, x: string, exchange: string, down: set<string>, nowNs: int, wire: seq<NbboMsg>, id: string)
    requires id in s.state && Filed(s.state[id].legs)
    ensures var after := SweepOne(s, x, exchange, down, nowNs);
            && id in after.state
            && if x == id && exchange in s.state[id].legs then NamedAt(after.state[id], wire + after.out, id, down)
               else after.state[id] == s.state[id] && LastFor(wire + after.out, id) == LastFor(wire + s.out, id)
  {
    var sent := Refresh(s.state, x, exchange, down, nowNs).sent;
    assert wire + (s.out + ToSeq(sent)) == (wire + s.out) + ToSeq(sent);
    SentIsLast(wire + s.out, sent, id);
    ComputeNames(id, s.state[id].legs, down, nowNs);
  }

  lemma NamedElsewhere(inst: Instrument, wire: seq<NbboMsg>, id: string, down: set<string>, exchange: string)
    requires NamedAt(inst, wire, id, down) && exchange !in inst.legs
    ensures NamedAt(inst, wire, id, down + {exchange}) && NamedAt(inst, wire, id, down - {exchange})
  {
    assert LiveVenues(inst.legs, down + {exchange}) == LiveVenues(inst.legs, down);
    assert LiveVenues(inst.legs, down - {exchange}) == LiveVenues(inst.legs, down);
  }

  /** A venue taken out is named no longer: every instrument with a leg of it is said anew,
      or has no live leg left. */
  lemma SetVenueDownNames(a: Agg, exchange: string, down: bool, nowNs: int, wire: seq<NbboMsg>)
    requires Gated(a) && Named(a, wire)
    ensures Named(SetVenueDown(a, exchange, down, nowNs).agg, wire + SetVenueDown(a, exchange, down, nowNs).out)
  {
    var q := SetVenueDown(a, exchange, down, nowNs);
    assert wire + [] == wire;
    SetVenueDownKeeps(a, exchange, down, nowNs);
    if down != (exchange in a.down) {
      forall id | id in q.agg.state ensures NamedAt(q.agg.state[id], wire + q.out, id, q.agg.down) {
        assert Remembered(a.state[id], a.down) && NamedAt(a.state[id], wire, id, a.down);
        SweepNames(a.state, a.ids, exchange, q.agg.down, nowNs, wire, id);
        if exchange !in a.state[id].legs {
          NamedElsewhere(a.state[id], wire, id, a.down, exchange);
        }
      }
    }
  }

  lemma {:induction false} SnapshotNamesOne(a: Agg, ids: seq<string>, nowNs: int, wire: seq<NbboMsg>, id: string)
    requires id in ids && id in a.state && Remembered(a.state[id], a.down)
    ensures NamedAt(a.state[id], wire + SnapshotFrom(a, ids, nowNs), id, a.down)
  {
    var rest, x := ids[..|ids| - 1], ids[|ids| - 1];
    assert ids == rest + [x];
    SnapshotStep(a, rest, x, nowNs, wire, id);
    if x == id {
      SnapshotOfSays(a, id, nowNs);
      ComputeNames(id, a.state[id].legs, a.down, nowNs);
    } else {
      SnapshotNamesOne(a, rest, nowNs, wire, id);
    }
  }

  lemma SnapshotNames(a: Agg, nowNs: int, wire: seq<NbboMsg>)
    requires Gated(a)
    ensures Named(a, wire + SnapshotFrom(a, a.ids, nowNs))
  {
    forall id | id in a.state ensures NamedAt(a.state[id], wire + SnapshotFrom(a, a.ids, nowNs), id, a.down) {
      assert Remembered(a.state[id], a.down);
      SnapshotNamesOne(a, a.ids, nowNs, wire, id);
    }
  }

  // ---------- the loops ----------

  lemma SweepPush(state: map<string, Instrument>, ids: seq<string>, i: nat, exchange: string, down: set<string>, nowNs: int)
    requires i < |ids|
    ensures Sweep(state, ids[..i + 1], exchange, down, nowNs)
            == SweepOne(Sweep(state, ids[..i], exchange, down, nowNs), ids[i], exchange, down, nowNs)
  {
    assert ids[..i + 1][..i] == ids[..i];
  }

  lemma SnapshotPush(a: Agg, ids: seq<string>, i: nat, nowNs: int)
    requires i < |ids|
    ensures SnapshotFrom(a, ids[..i + 1], nowNs) == SnapshotFrom(a, ids[..i], nowNs) + ToSeq(SnapshotOf(a, ids[i], nowNs))
  {
    assert ids[..i + 1][..i] == ids[..i];
  }

  lemma BestPush(legs: Legs, names: seq<string>, i: nat)
    requires i < |names| && forall v :: v in names ==> v in legs
    ensures forall v :: v in names[..i + 1] ==> v in legs
    ensures var best, v := BestBid(legs, names[..i]), names[i];
            BestBid(legs, names[..i + 1]) == OrBid(legs, best, v)
    ensures var best, v := BestAsk(legs, names[..i]), names[i];
            BestAsk(legs, names[..i + 1]) == OrAsk(legs, best, v)
  {
    assert names[..i + 1][..i] == names[..i];
  }

  // ---------- the class ----------

  class NbboAggregator {
    var state: map<string, Instrument>
    var ids: seq<string>
    var downVenues: set<string>

    function Contents(): Agg
      reads this
    {
      Agg(state, ids, downVenues)
    }

    constructor ()
      ensures Contents() == Agg(map[], [], {}) && Gated(Contents())
    {
      state, ids, downVenues := map[], [], {};
    }

    /** Combines the winners of the sorted live venues. */
    method ComputeFor(id: string, legs: Legs, nowNs: int) returns (computed: Option<NbboMsg>)
      ensures computed == Compute(id, legs, downVenues, nowNs)
    {
      var names := SortNames(legs.Keys - downVenues);
      ListingIsUnique(names, Listing(LiveVenues(legs, downVenues)), LiveVenues(legs, downVenues));
      MembersAre(names, LiveVenues(legs, downVenues));
      if names == [] {
        return None;
      }
      var bid, ask := Walk(legs, names);
      var b, a := legs[bid.value], legs[ask.value];
      return Some(NbboMsg(
        id, Leg(b.bid, b.key.exchange, b.stamp), Leg(a.ask, a.key.exchange, a.stamp),
        Cmp(a.ask.px, b.bid.px) < 0, names, nowNs));
    }

    /** One walk for both winners. */
    static method Walk(legs: Legs, names: seq<string>) returns (bid: Option<string>, ask: Option<string>)
      requires forall v :: v in names ==> v in legs
      ensures bid == BestBid(legs, names) && ask == BestAsk(legs, names)
    {
      bid, ask := None, None;
      for i := 0 to |names|
        invariant forall v :: v in names[..i] ==> v in legs
        invariant bid == BestBid(legs, names[..i]) && ask == BestAsk(legs, names[..i])
      {
        BestPush(legs, names, i);
        bid, ask := OrBid(legs, bid, names[i]), OrAsk(legs, ask, names[i]);
      }
      assert names[..|names|] == names;
    }

    method OnBBO(id: string, msg: Bbo, nowNs: int) returns (out: Option<NbboMsg>)
      requires Gated(Contents())
      modifies this`state, this`ids
      ensures Contents() == OnBbo(old(Contents()), id, msg, nowNs).agg && Gated(Contents())
      ensures OnBbo(old(Contents()), id, msg, nowNs).out == if out.None? then [] else [out.value]
    {
      OnBboKeeps(Contents(), id, msg, nowNs);
      var inst := if id in state then state[id] else Instrument(map[], None);
      if id !in state {
        ids := ids + [id];
      }
      var legs := inst.legs[msg.key.exchange := msg];
      var computed := ComputeFor(id, legs, nowNs);
      var last := if computed.None? then inst.last else Some(TopOf(computed.value));
      state := state[id := Instrument(legs, last)];
      return if computed.None? || inst.last == last then None else computed;
    }

    /** Brings one instrument up to date, if it has a leg of the venue. */
    method RefreshOne(id: string, exchange: string, nowNs: int) returns (sent: Option<NbboMsg>)
      requires id in state
      modifies this`state
      ensures Refreshed(state, sent) == Refresh(old(state), id, exchange, downVenues, nowNs)
      ensures state.Keys == old(state).Keys
    {
      if exchange !in state[id].legs {
        return None;
      }
      sent := ComputeFor(id, state[id].legs, nowNs);
      state := state[id := state[id].(last := if sent.None? then None else Some(TopOf(sent.value)))];
    }

    method RefreshAll(exchange: string, nowNs: int) returns (out: seq<NbboMsg>)
      requires forall id :: id in ids ==> id in state
      modifies this`state
      ensures Swept(state, out) == Sweep(old(state), ids, exchange, downVenues, nowNs)
    {
      out := [];
      for i := 0 to |ids|
        invariant Swept(state, out) == Sweep(old(state), ids[..i], exchange, downVenues, nowNs)
        invariant state.Keys == old(state).Keys
      {
        SweepPush(old(state), ids, i, exchange, downVenues, nowNs);
        var sent := RefreshOne(ids[i], exchange, nowNs);
        out := out + ToSeq(sent);
      }
      assert ids[..|ids|] == ids;
    }

    method MarkVenue(exchange: string, down: bool, nowNs: int) returns (out: seq<NbboMsg>)
      requires Gated(Contents())
      modifies this`state, this`downVenues
      ensures Contents() == SetVenueDown(old(Contents()), exchange, down, nowNs).agg && Gated(Contents())
      ensures out == SetVenueDown(old(Contents()), exchange, down, nowNs).out
      ensures down == (exchange in old(downVenues)) ==> out == [] && Contents() == old(Contents())
    {
      SetVenueDownKeeps(Contents(), exchange, down, nowNs);
      if down == (exchange in downVenues) {
        return [];
      }
      downVenues := if down then downVenues + {exchange} else downVenues - {exchange};
      out := RefreshAll(exchange, nowNs);
    }

    method SnapshotOne(id: string, nowNs: int) returns (sent: Option<NbboMsg>)
      requires id in state
      ensures sent == SnapshotOf(Contents(), id, nowNs)
    {
      sent := ComputeFor(id, state[id].legs, nowNs);
    }

    method Snapshot(nowNs: int) returns (out: seq<NbboMsg>)
      requires Gated(Contents())
      ensures out == SnapshotFrom(Contents(), ids, nowNs)
    {
      out := [];
      for i := 0 to |ids|
        invariant out == SnapshotFrom(Contents(), ids[..i], nowNs)
      {
        SnapshotPush(Contents(), ids, i, nowNs);
        var sent := SnapshotOne(ids[i], nowNs);
        out := out + ToSeq(sent);
      }
      assert ids[..|ids|] == ids;
    }
  }
}
