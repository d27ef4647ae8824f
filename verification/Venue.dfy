/** The venue's true book, as a function of its update ids, and what it means for a
    delivered event or a fetched snapshot to tell the truth about it. */
module Venue {
  import opened Levels

  datatype Side2 = Bid | Ask

  datatype VenueUpdate = VenueUpdate(side: Side2, change: Change<real>)

  /** Update id `i` is `v[i - 1]`; `None` is an id spent on some other book. */
  type History = seq<Option<VenueUpdate>>

  function SideOf(d: Depth<real>, side: Side2): Side<real> {
    if side == Bid then d.bids else d.asks
  }

  function ChangesOf(u: Update<real>, side: Side2): seq<Change<real>> {
    if side == Bid then u.bids else u.asks
  }

  function Lookup(s: Side<real>, p: real): Option<real> {
    if p in s then Some(s[p]) else None
  }

  /** The venue's book once updates 1 to `n` have happened. */
  function After(v: History, n: nat): Depth<real>
    requires n <= |v|
  {
    if n == 0 then Empty()
    else
      var d := After(v, n - 1);
      match v[n - 1]
      case None => d
      case Some(u) =>
        if u.side == Bid then Depth(Put(d.bids, u.change), d.asks) else Depth(d.bids, Put(d.asks, u.change))
  }

  predicate Touches(v: History, id: int, side: Side2, p: real)
    requires 1 <= id <= |v|
  {
    v[id - 1].Some? && v[id - 1].value.side == side && v[id - 1].value.change.price == p
  }

  predicate Names(cs: seq<Change<real>>, p: real) {
    exists k :: 0 <= k < |cs| && cs[k].price == p
  }

  /** A depth event spans ids `first` to `last`; `prev` is the last id of the event before. */
  datatype Event = Event(first: int, last: int, prev: int, update: Update<real>)

  /** The event names every price touched in its span, with the size it has at the end. */
  ghost predicate Truthful(v: History, e: Event) {
    && 1 <= e.first <= e.last <= |v|
    && (forall side, id, p :: e.first <= id <= e.last && Touches(v, id, side, p) ==> Names(ChangesOf(e.update, side), p))
    && (forall side, k :: 0 <= k < |ChangesOf(e.update, side)| ==>
          var c := ChangesOf(e.update, side)[k]; c.entry == Lookup(SideOf(After(v, e.last), side), c.price))
  }

  predicate Idle(v: History, id: int)
    requires 1 <= id <= |v|
  {
    v[id - 1].None?
  }

  /** The futures chain: nothing happens to this book between one event and the next. */
  ghost predicate Chained(v: History, e: Event) {
    Truthful(v, e) && forall id :: e.prev < id < e.first && 1 <= id ==> Idle(v, id)
  }

  /** The prices a depth-limited snapshot speaks for: those at least as good as a listed one. */
  predicate Covers(u: Update<real>, side: Side2, p: real) {
    exists q :: q in SideOf(Build(u), side) && if side == Bid then q <= p else p <= q
  }

  ghost predicate TruthfulSnapshot(v: History, lastId: int, u: Update<real>) {
    && 0 <= lastId <= |v|
    && forall side, p :: Covers(u, side, p) ==> Lookup(SideOf(Build(u), side), p) == Lookup(SideOf(After(v, lastId), side), p)
  }

  /** A price no update touches keeps its size. */
  lemma {:induction false} Untouched(v: History, m: nat, n: nat, side: Side2, p: real)
    requires m <= n <= |v|
    requires forall id :: m < id <= n ==> !Touches(v, id, side, p)
    ensures Lookup(SideOf(After(v, n), side), p) == Lookup(SideOf(After(v, m), side), p)
  {
    if m < n {
      Untouched(v, m, n - 1, side, p);
      assert !Touches(v, n, side, p);
    }
  }

  lemma {:induction false} LastNaming(cs: seq<Change<real>>, p: real) returns (k: nat)
    requires Names(cs, p)
    ensures k < |cs| && cs[k].price == p && forall j :: k < j < |cs| ==> cs[j].price != p
  {
    k := |cs| - 1;
    if cs[k].price != p {
      var i :| 0 <= i < |cs| && cs[i].price == p;
      assert cs[..k][i].price == p;
      k := LastNaming(cs[..k], p);
    }
  }

  /** Reading a truthful list of changes onto any side sets every named price right. */
  lemma PutAllTells(s: Side<real>, cs: seq<Change<real>>, truth: Side<real>, p: real)
    requires Names(cs, p)
    requires forall k :: 0 <= k < |cs| ==> cs[k].entry == Lookup(truth, cs[k].price)
    ensures Lookup(PutAll(s, cs), p) == Lookup(truth, p)
  {
    var k := LastNaming(cs, p);
    PutAllAt(s, cs, p, k);
  }

  lemma PutAllSpares(s: Side<real>, cs: seq<Change<real>>, p: real)
    requires !Names(cs, p)
    ensures Lookup(PutAll(s, cs), p) == Lookup(s, p)
  {
    PutAllElsewhere(s, cs, p);
  }

  /** An event that leaves no update unaccounted for since id `m` carries agreement at a
      price from `m` to its own end, and establishes it at every price it names. */
  lemma EventCarries(v: History, m: nat, e: Event, book: Depth<real>, side: Side2, p: real)
    requires Truthful(v, e) && m <= e.last
    requires forall id :: m < id < e.first ==> !Touches(v, id, side, p)
    requires Names(ChangesOf(e.update, side), p) || Lookup(SideOf(book, side), p) == Lookup(SideOf(After(v, m), side), p)
    ensures Lookup(SideOf(Apply(book, e.update), side), p) == Lookup(SideOf(After(v, e.last), side), p)
  {
    var cs := ChangesOf(e.update, side);
    assert SideOf(Apply(book, e.update), side) == PutAll(SideOf(book, side), cs);
    if Names(cs, p) {
      PutAllTells(SideOf(book, side), cs, SideOf(After(v, e.last), side), p);
    } else {
      PutAllSpares(SideOf(book, side), cs, p);
      Untouched(v, m, e.last, side, p);
    }
  }
}
