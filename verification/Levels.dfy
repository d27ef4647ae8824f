/** The price-level theory every component shares.

    One side of a book maps an exact price to an entry.  A change either sets the
    entry at its price or deletes it; a snapshot is a list of changes read onto an
    empty side, a delta a list of changes read onto the current one.  The entry type
    is a parameter: the gateway keeps the spelled price and size, the ingester and
    the numeric reading of a book keep the size alone. */
module Levels {

  datatype Option<+T> = None | Some(value: T)

  function Max(a: int, b: int): int {
    if a > b then a else b
  }

  type Side<E> = map<real, E>

  /** `None` deletes the level. */
  datatype Change<+E> = Change(price: real, entry: Option<E>)

  datatype Update<+E> = Update(bids: seq<Change<E>>, asks: seq<Change<E>>)

  datatype Depth<E> = Depth(bids: Side<E>, asks: Side<E>)

  function Empty<E>(): Depth<E> {
    Depth(map[], map[])
  }

  function Put<E>(side: Side<E>, c: Change<E>): Side<E> {
    if c.entry.Some? then side[c.price := c.entry.value] else side - {c.price}
  }

  /** The changes in order, on top of `side`. */
  function PutAll<E>(side: Side<E>, cs: seq<Change<E>>): Side<E> {
    if cs == [] then side else Put(PutAll(side, cs[..|cs| - 1]), cs[|cs| - 1])
  }

  /** A snapshot keeps only the levels with a size: a zero level is passed over. */
  function Listed<E>(cs: seq<Change<E>>): Side<E> {
    if cs == [] then map[]
    else
      var rest, c := Listed(cs[..|cs| - 1]), cs[|cs| - 1];
      if c.entry.Some? then Put(rest, c) else rest
  }

  function Build<E>(u: Update<E>): Depth<E> {
    Depth(Listed(u.bids), Listed(u.asks))
  }

  function Apply<E>(d: Depth<E>, u: Update<E>): Depth<E> {
    Depth(PutAll(d.bids, u.bids), PutAll(d.asks, u.asks))
  }

  // ---------- top of book ----------

  lemma Member<T>(s: set<T>) returns (x: T)
    requires s != {}
    ensures x in s
  {
    x :| x in s;
  }

  lemma {:induction false} Extremes(s: set<real>) returns (lo: real, hi: real)
    requires s != {}
    ensures lo in s && hi in s && forall x :: x in s ==> lo <= x <= hi
  {
    var p := Member(s);
    lo, hi := p, p;
    if s != {p} {
      var rest := s - {p};
      lo, hi := Extremes(rest);
      assert forall x :: x in s ==> x == p || x in rest;
      lo, hi := if p < lo then p else lo, if hi < p then p else hi;
    }
  }

  lemma ExtremesExist(s: set<real>)
    requires s != {}
    ensures exists m :: m in s && forall x :: x in s ==> x <= m
    ensures exists m :: m in s && forall x :: x in s ==> m <= x
  {
    var lo, hi := Extremes(s);
  }

  function MaxOf(s: set<real>): (m: real)
    requires s != {}
    ensures m in s && forall x :: x in s ==> x <= m
  {
    ExtremesExist(s);
    var m :| m in s && forall x :: x in s ==> x <= m;
    m
  }

  function MinOf(s: set<real>): (m: real)
    requires s != {}
    ensures m in s && forall x :: x in s ==> m <= x
  {
    ExtremesExist(s);
    var m :| m in s && forall x :: x in s ==> m <= x;
    m
  }

  /** Some ask lies below some bid. */
  predicate Crossed<E>(d: Depth<E>) {
    d.bids.Keys != {} && d.asks.Keys != {} && MinOf(d.asks.Keys) < MaxOf(d.bids.Keys)
  }

  /** The best bid has reached the best ask. */
  predicate Locked<E>(d: Depth<E>) {
    d.bids.Keys != {} && d.asks.Keys != {} && MaxOf(d.bids.Keys) >= MinOf(d.asks.Keys)
  }

  lemma CrossedMeans<E>(d: Depth<E>)
    ensures Crossed(d) <==> exists b, a :: b in d.bids && a in d.asks && a < b
  {
    if b, a :| b in d.bids && a in d.asks && a < b {
      assert b in d.bids.Keys && a in d.asks.Keys;
    }
    if Crossed(d) {
      assert MaxOf(d.bids.Keys) in d.bids && MinOf(d.asks.Keys) in d.asks;
    }
  }

  lemma LockedMeans<E>(d: Depth<E>)
    ensures Locked(d) <==> exists b, a :: b in d.bids && a in d.asks && a <= b
  {
    if b, a :| b in d.bids && a in d.asks && a <= b {
      assert b in d.bids.Keys && a in d.asks.Keys;
    }
    if Locked(d) {
      assert MaxOf(d.bids.Keys) in d.bids && MinOf(d.asks.Keys) in d.asks;
    }
  }

  /** A book that is not locked is not crossed, and whatever levels it loses it stays so. */
  lemma UnlockedStays<E>(d: Depth<E>, t: Depth<E>)
    requires !Locked(d) && t.bids.Keys <= d.bids.Keys && t.asks.Keys <= d.asks.Keys
    ensures !Locked(t) && !Crossed(t)
  {
    LockedMeans(d);
    LockedMeans(t);
    assert Locked(t) ==> Locked(d);
  }

  // ---------- folding ----------

  lemma {:induction false} PutAllConcat<E>(side: Side<E>, a: seq<Change<E>>, b: seq<Change<E>>)
    ensures PutAll(side, a + b) == PutAll(PutAll(side, a), b)
  {
    if b == [] {
      assert a + b == a;
    } else {
      var b' := b[..|b| - 1];
      assert (a + b)[..|a + b| - 1] == a + b';
      PutAllConcat(side, a, b');
    }
  }

  /** What a price holds is decided by the last change naming it. */
  lemma {:induction false} PutAllAt<E>(side: Side<E>, cs: seq<Change<E>>, p: real, k: nat)
    requires k < |cs| && cs[k].price == p
    requires forall j :: k < j < |cs| ==> cs[j].price != p
    ensures p in PutAll(side, cs) <==> cs[k].entry.Some?
    ensures p in PutAll(side, cs) ==> PutAll(side, cs)[p] == cs[k].entry.value
  {
    if k < |cs| - 1 {
      PutAllAt(side, cs[..|cs| - 1], p, k);
    }
  }

  lemma {:induction false} PutAllElsewhere<E>(side: Side<E>, cs: seq<Change<E>>, p: real)
    requires forall j :: 0 <= j < |cs| ==> cs[j].price != p
    ensures p in PutAll(side, cs) <==> p in side
    ensures p in side ==> PutAll(side, cs)[p] == side[p]
  {
    if cs != [] {
      PutAllElsewhere(side, cs[..|cs| - 1], p);
    }
  }

  /** A snapshot lists a price exactly when some change gives it a size, and the last one to
      do so says which. */
  lemma {:induction false} ListedAt<E>(cs: seq<Change<E>>, p: real)
    ensures p in Listed(cs) <==> exists k :: 0 <= k < |cs| && cs[k].price == p && cs[k].entry.Some?
    ensures forall k :: 0 <= k < |cs| && cs[k].price == p && cs[k].entry.Some?
                        && (forall j :: k < j < |cs| && cs[j].price == p ==> cs[j].entry.None?) ==>
              p in Listed(cs) && Listed(cs)[p] == cs[k].entry.value
  {
    if cs != [] {
      var rest, c := cs[..|cs| - 1], cs[|cs| - 1];
      ListedAt(rest, p);
      if c.price != p || c.entry.None? {
        assert p in Listed(cs) <==> p in Listed(rest);
        assert forall k :: 0 <= k < |rest| ==> rest[k] == cs[k];
      }
    }
  }
}
