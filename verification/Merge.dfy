/** The k-way merge of time-ordered streams and the as-of snapshots folded from it. */
module Merge {
  import opened Levels
  import opened AsOf

  // ---------- two streams ----------

  /** Always the earlier head; the first stream's on a tie. */
  function MergeTwo<V>(a: seq<Timed<V>>, b: seq<Timed<V>>): seq<Timed<V>>
    decreases |a| + |b|
  {
    if a == [] then b
    else if b == [] then a
    else if a[0].ts <= b[0].ts then [a[0]] + MergeTwo(a[1..], b)
    else [b[0]] + MergeTwo(a, b[1..])
  }

  lemma {:induction false} MergeTwoFloor<V>(a: seq<Timed<V>>, b: seq<Timed<V>>, low: int)
    requires forall i :: 0 <= i < |a| ==> a[i].ts >= low
    requires forall i :: 0 <= i < |b| ==> b[i].ts >= low
    ensures forall i :: 0 <= i < |MergeTwo(a, b)| ==> MergeTwo(a, b)[i].ts >= low
    decreases |a| + |b|
  {
    if a != [] && b != [] {
      if a[0].ts <= b[0].ts {
        MergeTwoFloor(a[1..], b, low);
      } else {
        MergeTwoFloor(a, b[1..], low);
      }
    }
  }

  lemma SortedPush<V>(e: Timed<V>, es: seq<Timed<V>>)
    requires Sorted(es) && forall i :: 0 <= i < |es| ==> e.ts <= es[i].ts
    ensures Sorted([e] + es)
  {
  }

  lemma {:induction false} MergeTwoSorts<V>(a: seq<Timed<V>>, b: seq<Timed<V>>)
    requires Sorted(a) && Sorted(b)
    ensures Sorted(MergeTwo(a, b))
    decreases |a| + |b|
  {
    if a != [] && b != [] {
      if a[0].ts <= b[0].ts {
        MergeTwoSorts(a[1..], b);
        MergeTwoFloor(a[1..], b, a[0].ts);
        SortedPush(a[0], MergeTwo(a[1..], b));
      } else {
        MergeTwoSorts(a, b[1..]);
        MergeTwoFloor(a, b[1..], b[0].ts);
        SortedPush(b[0], MergeTwo(a, b[1..]));
      }
    }
  }

  lemma AtFront<V>(es: seq<Timed<V>>, t: int)
    requires es != []
    ensures At(es, t) == At([es[0]], t) + At(es[1..], t)
    ensures At([es[0]], t) == if es[0].ts == t then [es[0]] else []
  {
    AtConcat([es[0]], es[1..], t);
    assert es == [es[0]] + es[1..];
    assert [es[0]][..0] == [];
  }

  lemma AtHead<V>(e: Timed<V>, es: seq<Timed<V>>, t: int)
    ensures At([e] + es, t) == At([e], t) + At(es, t)
  {
    AtConcat([e], es, t);
  }

  /** At each time the merge has the first stream's events, then the second's. */
  lemma {:induction false} MergeTwoAt<V>(a: seq<Timed<V>>, b: seq<Timed<V>>, t: int)
    requires Sorted(a) && Sorted(b)
    ensures At(MergeTwo(a, b), t) == At(a, t) + At(b, t)
    decreases |a| + |b|
  {
    if a == [] || b == [] {
    } else if a[0].ts <= b[0].ts {
      MergeTwoAt(a[1..], b, t);
      AtHead(a[0], MergeTwo(a[1..], b), t);
      AtFront(a, t);
    } else {
      MergeTwoAt(a, b[1..], t);
      AtHead(b[0], MergeTwo(a, b[1..]), t);
      SecondHead(a, b, t);
    }
  }

  lemma SecondHead<V>(a: seq<Timed<V>>, b: seq<Timed<V>>, t: int)
    requires a != [] && b != [] && Sorted(a) && b[0].ts < a[0].ts
    ensures At([b[0]], t) + (At(a, t) + At(b[1..], t)) == At(a, t) + At(b, t)
  {
    if b[0].ts == t {
      AtNone(a, t);
    }
    AtFront(b, t);
    HeadMoves(At([b[0]], t), At(a, t), At(b[1..], t));
  }

  lemma HeadMoves<T>(head: seq<T>, a: seq<T>, b: seq<T>)
    requires head == [] || a == []
    ensures head + (a + b) == a + (head + b)
  {
    if head == [] {
      assert head + (a + b) == a + b && head + b == b;
    } else {
      assert a + b == b && a + (head + b) == head + b;
    }
  }

  /** Merging two sorted streams is sorting the one followed by the other. */
  lemma MergeTwoIsSort<V>(a: seq<Timed<V>>, b: seq<Timed<V>>)
    ensures MergeTwo(StableSort(a), StableSort(b)) == StableSort(a + b)
  {
    StableSortSorts(a);
    StableSortSorts(b);
    StableSortSorts(a + b);
    MergeTwoSorts(StableSort(a), StableSort(b));
    forall t ensures At(MergeTwo(StableSort(a), StableSort(b)), t) == At(StableSort(a + b), t) {
      MergeTwoAt(StableSort(a), StableSort(b), t);
      StableSortIsStable(a, t);
      StableSortIsStable(b, t);
      StableSortIsStable(a + b, t);
      AtConcat(a, b, t);
    }
    SortedIsDetermined(MergeTwo(StableSort(a), StableSort(b)), StableSort(a + b));
  }

  // ---------- any number of keyed streams ----------

  type Streams<K, V> = map<K, seq<Timed<V>>>

  datatype Tagged<+K, +V> = Tagged(key: K, val: V)

  /** `order` is the order in which the mapping yields its keys. */
  predicate Lists<K(==), V>(order: seq<K>, streams: Streams<K, V>) {
    (set k | k in order) == streams.Keys
  }

  predicate AllSorted<K(==), V>(streams: Streams<K, V>) {
    forall k :: k in streams ==> Sorted(streams[k])
  }

  /** The key whose head is earliest; the first such in the mapping's order. */
  function Front<K(==), V>(streams: Streams<K, V>, order: seq<K>): (r: Option<K>)
    requires forall k :: k in order ==> k in streams
    ensures r.None? ==> forall k :: k in order ==> streams[k] == []
    ensures r.Some? ==> r.value in order && streams[r.value] != []
    ensures r.Some? ==> forall k :: k in order && streams[k] != [] ==> streams[r.value][0].ts <= streams[k][0].ts
  {
    if order == [] then None
    else
      var best, k := Front(streams, order[..|order| - 1]), order[|order| - 1];
      if streams[k] == [] then best
      else if best.None? || streams[k][0].ts < streams[best.value][0].ts then Some(k)
      else best
  }

  function Total<K(==), V>(streams: Streams<K, V>, order: seq<K>): nat
    requires forall k :: k in order ==> k in streams
  {
    if order == [] then 0 else Total(streams, order[..|order| - 1]) + |streams[order[|order| - 1]]|
  }

  lemma {:induction false} TotalFalls<K, V>(streams: Streams<K, V>, order: seq<K>, k: K)
    requires forall k :: k in order ==> k in streams
    requires k in streams && streams[k] != []
    ensures Total(streams[k := streams[k][1..]], order) <= Total(streams, order)
    ensures k in order ==> Total(streams[k := streams[k][1..]], order) < Total(streams, order)
  {
    if order != [] {
      TotalFalls(streams, order[..|order| - 1], k);
      assert order == order[..|order| - 1] + [order[|order| - 1]];
    }
  }

  function MergeAll<K(==), V>(streams: Streams<K, V>, order: seq<K>): seq<Timed<Tagged<K, V>>>
    requires Lists(order, streams)
    decreases Total(streams, order)
  {
    var front := Front(streams, order);
    if front.None? then []
    else
      var k := front.value;
      TotalFalls(streams, order, k);
      [Timed(streams[k][0].ts, Tagged(k, streams[k][0].val))] + MergeAll(streams[k := streams[k][1..]], order)
  }

  /** One key's events, untagged. */
  function Of<K(==), V>(es: seq<Timed<Tagged<K, V>>>, k: K): seq<Timed<V>> {
    if es == [] then []
    else if es[|es| - 1].val.key == k then Of(es[..|es| - 1], k) + [Timed(es[|es| - 1].ts, es[|es| - 1].val.val)]
    else Of(es[..|es| - 1], k)
  }

  lemma {:induction false} OfConcat<K, V>(a: seq<Timed<Tagged<K, V>>>, b: seq<Timed<Tagged<K, V>>>, k: K)
    ensures Of(a + b, k) == Of(a, k) + Of(b, k)
  {
    if b == [] {
      assert a + b == a;
    } else {
      assert (a + b)[..|a + b| - 1] == a + b[..|b| - 1];
      OfConcat(a, b[..|b| - 1], k);
    }
  }

  lemma OfFront<K, V>(e: Timed<Tagged<K, V>>, es: seq<Timed<Tagged<K, V>>>, k: K)
    ensures Of([e] + es, k) == (if e.val.key == k then [Timed(e.ts, e.val.val)] else []) + Of(es, k)
  {
    OfConcat([e], es, k);
    assert [e][..0] == [];
  }

  /** The merge loses, invents and reorders nothing within a key. */
  lemma {:induction false} MergeKeepsStreams<K, V>(streams: Streams<K, V>, order: seq<K>, k: K)
    requires Lists(order, streams)
    ensures Of(MergeAll(streams, order), k) == if k in streams then streams[k] else []
    decreases Total(streams, order)
  {
    var front := Front(streams, order);
    if front.Some? {
      var f := front.value;
      TotalFalls(streams, order, f);
      var rest := streams[f := streams[f][1..]];
      MergeKeepsStreams(rest, order, k);
      OfFront(Timed(streams[f][0].ts, Tagged(f, streams[f][0].val)), MergeAll(rest, order), k);
      assert streams[f] == [streams[f][0]] + streams[f][1..];
    } else if k in streams {
      assert k in order;
    }
  }

  predicate AllFrom<K(==), V>(streams: Streams<K, V>, low: int) {
    forall k, i :: k in streams && 0 <= i < |streams[k]| ==> streams[k][i].ts >= low
  }

  lemma {:induction false} MergeFloor<K, V>(streams: Streams<K, V>, order: seq<K>, low: int)
    requires Lists(order, streams) && AllFrom(streams, low)
    ensures forall i :: 0 <= i < |MergeAll(streams, order)| ==> MergeAll(streams, order)[i].ts >= low
    decreases Total(streams, order)
  {
    var front := Front(streams, order);
    if front.Some? {
      var f := front.value;
      TotalFalls(streams, order, f);
      MergeFloor(streams[f := streams[f][1..]], order, low);
    }
  }

  lemma FrontIsFloor<K, V>(streams: Streams<K, V>, order: seq<K>)
    requires Lists(order, streams) && AllSorted(streams) && Front(streams, order).Some?
    ensures AllFrom(streams, streams[Front(streams, order).value][0].ts)
  {
    var f := Front(streams, order).value;
    forall k, i | k in streams && 0 <= i < |streams[k]| ensures streams[k][i].ts >= streams[f][0].ts {
      assert k in order;
      assert streams[k][0].ts <= streams[k][i].ts;
    }
  }

  lemma {:induction false} MergeSorts<K, V>(streams: Streams<K, V>, order: seq<K>)
    requires Lists(order, streams) && AllSorted(streams)
    ensures Sorted(MergeAll(streams, order))
    decreases Total(streams, order)
  {
    var front := Front(streams, order);
    if front.Some? {
      var f := front.value;
      TotalFalls(streams, order, f);
      FrontIsFloor(streams, order);
      var rest := streams[f := streams[f][1..]];
      MergeSorts(rest, order);
      MergeFloor(rest, order, streams[f][0].ts);
      SortedPush(Timed(streams[f][0].ts, Tagged(f, streams[f][0].val)), MergeAll(rest, order));
    }
  }

  // ---------- the running latest ----------

  function Latest<K(==), V>(es: seq<Timed<Tagged<K, V>>>): map<K, V> {
    if es == [] then map[] else Latest(es[..|es| - 1])[es[|es| - 1].val.key := es[|es| - 1].val.val]
  }

  /** One snapshot for each run of equal times, taken after the run's last event. */
  function Ticks<K(==), V>(es: seq<Timed<Tagged<K, V>>>): seq<Timed<map<K, V>>> {
    if es == [] then []
    else
      var before, tick := Ticks(es[..|es| - 1]), Timed(es[|es| - 1].ts, Latest(es));
      if |es| > 1 && es[|es| - 2].ts == es[|es| - 1].ts && before != [] then before[..|before| - 1] + [tick] else before + [tick]
  }

  /** The events at or before a time. */
  function UpTo<V>(es: seq<Timed<V>>, t: int): seq<Timed<V>> {
    if es == [] then []
    else if es[|es| - 1].ts <= t then UpTo(es[..|es| - 1], t) + [es[|es| - 1]]
    else UpTo(es[..|es| - 1], t)
  }

  /** The value a key has at a time: its last event's at or before it. */
  function LastBy<K(==), V>(streams: Streams<K, V>, t: int): map<K, V> {
    map k | k in streams && UpTo(streams[k], t) != [] :: UpTo(streams[k], t)[|UpTo(streams[k], t)| - 1].val
  }

  predicate Occurs<V>(es: seq<Timed<V>>, t: int) {
    exists i :: 0 <= i < |es| && es[i].ts == t
  }

  ghost predicate SameTimes<V, W>(a: seq<Timed<V>>, b: seq<Timed<W>>) {
    forall t :: Occurs(a, t) <==> Occurs(b, t)
  }

  predicate OccursInAny<K(==), V>(streams: Streams<K, V>, t: int) {
    exists k :: k in streams && Occurs(streams[k], t)
  }

  lemma {:induction false} UpToAll<V>(es: seq<Timed<V>>, t: int)
    requires forall i :: 0 <= i < |es| ==> es[i].ts <= t
    ensures UpTo(es, t) == es
  {
    if es != [] {
      UpToAll(es[..|es| - 1], t);
    }
  }

  lemma {:induction false} TickEnds<K, V>(es: seq<Timed<Tagged<K, V>>>)
    ensures es != [] ==> Ticks(es) != [] && Ticks(es)[|Ticks(es)| - 1] == Timed(es[|es| - 1].ts, Latest(es))
  {
  }

  /** What one more event does to the snapshots: a new one, or the last one replaced. */
  lemma TicksGrow<K, V>(es: seq<Timed<Tagged<K, V>>>)
    requires es != [] && Sorted(es)
    ensures var rest, e := es[..|es| - 1], es[|es| - 1];
            var before, tick := Ticks(rest), Timed(e.ts, Latest(es));
            if before != [] && before[|before| - 1].ts == e.ts then Ticks(es) == before[..|before| - 1] + [tick]
            else Ticks(es) == before + [tick] && (before != [] ==> before[|before| - 1].ts < e.ts)
  {
    TickEnds(es[..|es| - 1]);
  }

  lemma {:induction false} TicksStrict<K, V>(es: seq<Timed<Tagged<K, V>>>)
    requires Sorted(es)
    ensures Strict(Ticks(es))
  {
    if es != [] {
      TicksStrict(es[..|es| - 1]);
      TicksGrow(es);
    }
  }

  lemma {:induction false} TickTimes<K, V>(es: seq<Timed<Tagged<K, V>>>, t: int)
    requires Sorted(es)
    ensures Occurs(Ticks(es), t) <==> Occurs(es, t)
  {
    if es != [] {
      var rest, e := es[..|es| - 1], es[|es| - 1];
      TickTimes(rest, t);
      TicksGrow(es);
      assert es == rest + [e];
      OccursPush(rest, e, t);
      OccursReplaced(Ticks(rest), Timed(e.ts, Latest(es)), t);
    }
  }

  lemma OccursReplaced<V>(es: seq<Timed<V>>, e: Timed<V>, t: int)
    ensures Occurs(es + [e], t) <==> Occurs(es, t) || e.ts == t
    ensures es != [] && es[|es| - 1].ts == e.ts ==> (Occurs(es[..|es| - 1] + [e], t) <==> Occurs(es, t) || e.ts == t)
  {
    OccursPush(es, e, t);
    if es != [] {
      OccursPush(es[..|es| - 1], e, t);
      OccursPush(es[..|es| - 1], es[|es| - 1], t);
      assert es == es[..|es| - 1] + [es[|es| - 1]];
    }
  }

  lemma OccursPush<V>(es: seq<Timed<V>>, e: Timed<V>, t: int)
    ensures Occurs(es + [e], t) <==> Occurs(es, t) || e.ts == t
  {
    if Occurs(es, t) {
      var i :| 0 <= i < |es| && es[i].ts == t;
      assert (es + [e])[i].ts == t;
    }
    if e.ts == t {
      assert (es + [e])[|es|].ts == t;
    }
  }

  /** All snapshots but the last are those of the events before the last. */
  lemma EarlierTick<K, V>(es: seq<Timed<Tagged<K, V>>>, i: nat)
    requires Sorted(es) && i < |Ticks(es)| - 1
    ensures var rest, t := es[..|es| - 1], Ticks(es)[i].ts;
            i < |Ticks(rest)| && Ticks(es)[i] == Ticks(rest)[i] && UpTo(es, t) == UpTo(rest, t)
  {
    TicksGrow(es);
    TicksStrict(es);
    TickEnds(es);
    assert Ticks(es)[i].ts < Ticks(es)[|Ticks(es)| - 1].ts;
  }

  /** Each snapshot is the running latest over exactly the events up to its time. */
  lemma {:induction false} TicksAreLatest<K, V>(es: seq<Timed<Tagged<K, V>>>, i: nat)
    requires Sorted(es) && i < |Ticks(es)|
    ensures Ticks(es)[i].val == Latest(UpTo(es, Ticks(es)[i].ts))
  {
    var t := Ticks(es)[i].ts;
    if i == |Ticks(es)| - 1 {
      TickEnds(es);
      UpToAll(es, t);
    } else {
      EarlierTick(es, i);
      TicksAreLatest(es[..|es| - 1], i);
    }
  }

  lemma {:induction false} LatestOf<K, V>(es: seq<Timed<Tagged<K, V>>>, k: K)
    ensures k in Latest(es) <==> Of(es, k) != []
    ensures k in Latest(es) ==> Latest(es)[k] == Of(es, k)[|Of(es, k)| - 1].val
  {
    if es != [] {
      LatestOf(es[..|es| - 1], k);
    }
  }

  lemma {:induction false} UpToOf<K, V>(es: seq<Timed<Tagged<K, V>>>, t: int, k: K)
    ensures Of(UpTo(es, t), k) == UpTo(Of(es, k), t)
  {
    if es != [] {
      var rest, e := es[..|es| - 1], es[|es| - 1];
      UpToOf(rest, t, k);
      if e.ts <= t {
        assert (UpTo(rest, t) + [e])[..|UpTo(rest, t)|] == UpTo(rest, t);
      }
      if e.val.key == k {
        var u := Timed(e.ts, e.val.val);
        assert (Of(rest, k) + [u])[..|Of(rest, k)|] == Of(rest, k);
      }
    }
  }

  lemma LatestIsAsOf<K(!new), V>(streams: Streams<K, V>, order: seq<K>, t: int)
    requires Lists(order, streams)
    ensures Latest(UpTo(MergeAll(streams, order), t)) == LastBy(streams, t)
  {
    var es := MergeAll(streams, order);
    forall k ensures k in Latest(UpTo(es, t)) <==> k in LastBy(streams, t)
      ensures k in LastBy(streams, t) ==> Latest(UpTo(es, t))[k] == LastBy(streams, t)[k]
    {
      LatestOf(UpTo(es, t), k);
      UpToOf(es, t, k);
      MergeKeepsStreams(streams, order, k);
    }
    assert Latest(UpTo(es, t)).Keys == LastBy(streams, t).Keys;
  }

  lemma {:induction false} OfOccurs<K, V>(es: seq<Timed<Tagged<K, V>>>, k: K, t: int)
    requires Occurs(Of(es, k), t)
    ensures Occurs(es, t)
  {
    var rest, e := es[..|es| - 1], es[|es| - 1];
    assert es == rest + [e];
    OccursPush(rest, e, t);
    OccursPush(Of(rest, k), Timed(e.ts, e.val.val), t);
    if Occurs(Of(rest, k), t) {
      OfOccurs(rest, k, t);
    }
  }

  lemma {:induction false} OccursOf<K, V>(es: seq<Timed<Tagged<K, V>>>, t: int) returns (k: K)
    requires Occurs(es, t)
    ensures Occurs(Of(es, k), t)
  {
    var rest, e := es[..|es| - 1], es[|es| - 1];
    assert es == rest + [e];
    OccursPush(rest, e, t);
    if e.ts == t {
      k := e.val.key;
    } else {
      k := OccursOf(rest, t);
    }
    OccursPush(Of(rest, k), Timed(e.ts, e.val.val), t);
  }

  lemma OccursInMerge<K, V>(streams: Streams<K, V>, order: seq<K>, t: int)
    requires Lists(order, streams)
    ensures Occurs(MergeAll(streams, order), t) <==> OccursInAny(streams, t)
  {
    var es := MergeAll(streams, order);
    if OccursInAny(streams, t) {
      var k :| k in streams && Occurs(streams[k], t);
      MergeKeepsStreams(streams, order, k);
      OfOccurs(es, k, t);
    }
    if Occurs(es, t) {
      var k := OccursOf(es, t);
      MergeKeepsStreams(streams, order, k);
    }
  }

  // ---------- the as-of function ----------

  /** One snapshot for each time of any stream, in strictly increasing order, each holding
      every key's last value at or before that time. */
  ghost predicate IsAsOf<K(!new), V>(ticks: seq<Timed<map<K, V>>>, streams: Streams<K, V>) {
    && Strict(ticks)
    && (forall t :: Occurs(ticks, t) <==> OccursInAny(streams, t))
    && (forall i :: 0 <= i < |ticks| ==> ticks[i].val == LastBy(streams, ticks[i].ts))
  }

  lemma MergeLatestIsAsOf<K(!new), V>(streams: Streams<K, V>, order: seq<K>)
    requires Lists(order, streams) && AllSorted(streams)
    ensures IsAsOf(Ticks(MergeAll(streams, order)), streams)
  {
    var es := MergeAll(streams, order);
    MergeSorts(streams, order);
    TicksStrict(es);
    forall t ensures Occurs(Ticks(es), t) <==> OccursInAny(streams, t) {
      TickTimes(es, t);
      OccursInMerge(streams, order, t);
    }
    forall i | 0 <= i < |Ticks(es)| ensures Ticks(es)[i].val == LastBy(streams, Ticks(es)[i].ts) {
      TicksAreLatest(es, i);
      LatestIsAsOf(streams, order, Ticks(es)[i].ts);
    }
  }

  /** A strictly increasing sequence is determined by its times and the value at each. */
  lemma {:induction false} TicksAreDetermined<V>(a: seq<Timed<V>>, b: seq<Timed<V>>)
    requires Strict(a) && Strict(b)
    requires SameTimes(a, b)
    requires forall i, j :: 0 <= i < |a| && 0 <= j < |b| && a[i].ts == b[j].ts ==> a[i] == b[j]
    ensures a == b
  {
    if a == [] {
      if b != [] {
        assert Occurs(b, b[0].ts);
      }
    } else if b == [] {
      assert Occurs(a, a[0].ts);
    } else {
      LastTicksAgree(a, b);
      BeforeLastTicks(a, b);
      var x, a', b' := a[|a| - 1], a[..|a| - 1], b[..|b| - 1];
      TicksAreDetermined(a', b');
      assert a == a' + [x] && b == b' + [x];
    }
  }

  lemma LastTicksAgree<V>(a: seq<Timed<V>>, b: seq<Timed<V>>)
    requires a != [] && b != [] && Strict(a) && Strict(b) && SameTimes(a, b)
    requires forall i, j :: 0 <= i < |a| && 0 <= j < |b| && a[i].ts == b[j].ts ==> a[i] == b[j]
    ensures a[|a| - 1] == b[|b| - 1]
  {
    var x, y := a[|a| - 1], b[|b| - 1];
    assert Occurs(a, x.ts) && Occurs(b, y.ts);
    var i :| 0 <= i < |b| && b[i].ts == x.ts;
    var j :| 0 <= j < |a| && a[j].ts == y.ts;
  }

  lemma BeforeLastTicks<V>(a: seq<Timed<V>>, b: seq<Timed<V>>)
    requires a != [] && b != [] && Strict(a) && Strict(b) && SameTimes(a, b)
    requires a[|a| - 1] == b[|b| - 1]
    ensures SameTimes(a[..|a| - 1], b[..|b| - 1])
  {
    var a', b' := a[..|a| - 1], b[..|b| - 1];
    forall t ensures Occurs(a', t) <==> Occurs(b', t) {
      OccursBeforeLast(a, t);
      OccursBeforeLast(b, t);
    }
  }

  lemma OccursBeforeLast<V>(a: seq<Timed<V>>, t: int)
    requires a != [] && Strict(a)
    ensures Occurs(a[..|a| - 1], t) <==> Occurs(a, t) && t != a[|a| - 1].ts
  {
    assert a == a[..|a| - 1] + [a[|a| - 1]];
    OccursPush(a[..|a| - 1], a[|a| - 1], t);
  }

  /** So the snapshots do not depend on the order in which the mapping yields its streams. */
  lemma AsOfIsUnique<K(!new), V>(a: seq<Timed<map<K, V>>>, b: seq<Timed<map<K, V>>>, streams: Streams<K, V>)
    requires IsAsOf(a, streams) && IsAsOf(b, streams)
    ensures a == b
  {
    TicksAreDetermined(a, b);
  }

  // ---------- no lookahead ----------

  function Truncated<K(==), V>(streams: Streams<K, V>, limit: int): Streams<K, V> {
    map k | k in streams :: UpTo(streams[k], limit)
  }

  lemma {:induction false} UpToMembers<V>(es: seq<Timed<V>>, limit: int)
    ensures forall i :: 0 <= i < |UpTo(es, limit)| ==> UpTo(es, limit)[i].ts <= limit && UpTo(es, limit)[i] in es
  {
    if es != [] {
      UpToMembers(es[..|es| - 1], limit);
      assert es == es[..|es| - 1] + [es[|es| - 1]];
    }
  }

  lemma {:induction false} UpToTimes<V>(es: seq<Timed<V>>, limit: int, t: int)
    ensures Occurs(UpTo(es, limit), t) <==> Occurs(es, t) && t <= limit
  {
    if es != [] {
      var rest, e := es[..|es| - 1], es[|es| - 1];
      UpToTimes(rest, limit, t);
      assert es == rest + [e];
      OccursPush(rest, e, t);
      OccursPush(UpTo(rest, limit), e, t);
    }
  }

  lemma {:induction false} UpToSorted<V>(es: seq<Timed<V>>, limit: int)
    requires Sorted(es)
    ensures Sorted(UpTo(es, limit))
  {
    if es != [] {
      UpToSorted(es[..|es| - 1], limit);
      UpToMembers(es[..|es| - 1], limit);
    }
  }

  lemma {:induction false} UpToStrict<V>(es: seq<Timed<V>>, limit: int)
    requires Strict(es)
    ensures Strict(UpTo(es, limit))
  {
    if es != [] {
      UpToStrict(es[..|es| - 1], limit);
      UpToMembers(es[..|es| - 1], limit);
    }
  }

  lemma {:induction false} UpToTwice<V>(es: seq<Timed<V>>, limit: int, t: int)
    requires t <= limit
    ensures UpTo(UpTo(es, limit), t) == UpTo(es, t)
  {
    if es != [] {
      var rest, e := es[..|es| - 1], es[|es| - 1];
      UpToTwice(rest, limit, t);
      if e.ts <= limit {
        assert (UpTo(rest, limit) + [e])[..|UpTo(rest, limit)|] == UpTo(rest, limit);
      }
    }
  }

  lemma AsOfTruncated<K, V>(streams: Streams<K, V>, limit: int, t: int)
    requires t <= limit
    ensures LastBy(Truncated(streams, limit), t) == LastBy(streams, t)
  {
    forall k | k in streams ensures UpTo(Truncated(streams, limit)[k], t) == UpTo(streams[k], t) {
      UpToTwice(streams[k], limit, t);
    }
  }

  /** Cutting every stream at a time leaves every snapshot up to that time as it was. */
  lemma NoLookahead<K(!new), V>(streams: Streams<K, V>, order: seq<K>, limit: int)
    requires Lists(order, streams) && AllSorted(streams)
    ensures Lists(order, Truncated(streams, limit)) && AllSorted(Truncated(streams, limit))
    ensures Ticks(MergeAll(Truncated(streams, limit), order)) == UpTo(Ticks(MergeAll(streams, order)), limit)
  {
    var cut, whole := Truncated(streams, limit), Ticks(MergeAll(streams, order));
    forall k | k in streams ensures Sorted(cut[k]) {
      UpToSorted(streams[k], limit);
    }
    MergeLatestIsAsOf(streams, order);
    MergeLatestIsAsOf(cut, order);
    UpToStrict(whole, limit);
    UpToMembers(whole, limit);
    forall t ensures Occurs(UpTo(whole, limit), t) <==> OccursInAny(cut, t) {
      UpToTimes(whole, limit, t);
      OccursInCut(streams, limit, t);
    }
    forall i | 0 <= i < |UpTo(whole, limit)|
      ensures UpTo(whole, limit)[i].val == LastBy(cut, UpTo(whole, limit)[i].ts)
    {
      AsOfTruncated(streams, limit, UpTo(whole, limit)[i].ts);
    }
    AsOfIsUnique(Ticks(MergeAll(cut, order)), UpTo(whole, limit), cut);
  }

  lemma OccursInCut<K, V>(streams: Streams<K, V>, limit: int, t: int)
    ensures OccursInAny(Truncated(streams, limit), t) <==> OccursInAny(streams, t) && t <= limit
  {
    var cut := Truncated(streams, limit);
    forall k | k in streams ensures Occurs(cut[k], t) <==> Occurs(streams[k], t) && t <= limit {
      UpToTimes(streams[k], limit, t);
    }
    if OccursInAny(cut, t) {
      var k :| k in cut && Occurs(cut[k], t);
      assert k in streams;
    }
    if OccursInAny(streams, t) && t <= limit {
      var k :| k in streams && Occurs(streams[k], t);
      assert k in cut;
    }
  }

  // ---------- the generator ----------

  /** The events from `start` to `end` are one run of equal times. */
  predicate IsRun<V>(es: seq<Timed<V>>, start: nat, end: nat) {
    && start < end <= |es|
    && (forall j :: start <= j < end ==> es[j].ts == es[start].ts)
    && (start > 0 ==> es[start - 1].ts < es[start].ts)
  }

  lemma {:induction false} RunIsOneTick<K, V>(es: seq<Timed<Tagged<K, V>>>, start: nat, end: nat)
    requires IsRun(es, start, end)
    ensures Ticks(es[..end]) == Ticks(es[..start]) + [Timed(es[start].ts, Latest(es[..end]))]
    decreases end
  {
    assert es[..end][..end - 1] == es[..end - 1];
    if end > start + 1 {
      RunIsOneTick(es, start, end - 1);
    }
  }

  lemma LatestPush<K, V>(es: seq<Timed<Tagged<K, V>>>, i: nat)
    requires i < |es|
    ensures Latest(es[..i + 1]) == Latest(es[..i])[es[i].val.key := es[i].val.val]
  {
    assert es[..i + 1][..i] == es[..i];
  }

  /** Applies every event of the tick that starts at `start`. */
  method ApplyTick<K(==), V>(merged: seq<Timed<Tagged<K, V>>>, start: nat, before: map<K, V>) returns (end: nat, latest: map<K, V>)
    requires start < |merged| && Sorted(merged) && before == Latest(merged[..start])
    requires start > 0 ==> merged[start - 1].ts < merged[start].ts
    ensures IsRun(merged, start, end) && latest == Latest(merged[..end])
    ensures end < |merged| ==> merged[end - 1].ts < merged[end].ts
  {
    end, latest := start, before;
    while end < |merged| && merged[end].ts == merged[start].ts
      invariant start <= end <= |merged| && latest == Latest(merged[..end])
      invariant forall j :: start <= j < end ==> merged[j].ts == merged[start].ts
    {
      LatestPush(merged, end);
      latest := latest[merged[end].val.key := merged[end].val.val];
      end := end + 1;
    }
  }

  /** Applies the events tick by tick, yielding a copy of the running latest after each. */
  method MergeLatest<K(==, !new), V>(streams: Streams<K, V>, order: seq<K>) returns (ticks: seq<Timed<map<K, V>>>)
    requires Lists(order, streams) && AllSorted(streams)
    ensures IsAsOf(ticks, streams)
  {
    var merged := MergeAll(streams, order);
    MergeSorts(streams, order);
    var latest: map<K, V> := map[];
    ticks := [];
    var i := 0;
    while i < |merged|
      invariant 0 <= i <= |merged|
      invariant latest == Latest(merged[..i]) && ticks == Ticks(merged[..i])
      invariant 0 < i < |merged| ==> merged[i - 1].ts < merged[i].ts
    {
      var start := i;
      i, latest := ApplyTick(merged, start, latest);
      RunIsOneTick(merged, start, i);
      ticks := ticks + [Timed(merged[start].ts, latest)];
    }
    assert merged[..|merged|] == merged;
    MergeLatestIsAsOf(streams, order);
  }
}
