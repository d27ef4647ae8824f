/** Time-ordered streams: the bounded re-sort of a nearly sorted stream, the merge of
    sorted streams, and the as-of snapshots folded from them. */
module AsOf {
  import opened Levels

  datatype Timed<+V> = Timed(ts: int, val: V)

  predicate Sorted<V>(es: seq<Timed<V>>) {
    forall i, j :: 0 <= i < j < |es| ==> es[i].ts <= es[j].ts
  }

  predicate Strict<V>(es: seq<Timed<V>>) {
    forall i, j :: 0 <= i < j < |es| ==> es[i].ts < es[j].ts
  }

  predicate DistinctTimes<V>(es: seq<Timed<V>>) {
    forall i, j :: 0 <= i < j < |es| ==> es[i].ts != es[j].ts
  }

  // ---------- the stable sort ----------

  /** Inserts behind every event at or before its time. */
  function Insert<V>(es: seq<Timed<V>>, e: Timed<V>): seq<Timed<V>> {
    if es == [] || es[|es| - 1].ts <= e.ts then es + [e]
    else Insert(es[..|es| - 1], e) + [es[|es| - 1]]
  }

  function StableSort<V>(es: seq<Timed<V>>): seq<Timed<V>> {
    if es == [] then [] else Insert(StableSort(es[..|es| - 1]), es[|es| - 1])
  }

  /** The events at one time, in order. */
  function At<V>(es: seq<Timed<V>>, t: int): seq<Timed<V>> {
    if es == [] then []
    else At(es[..|es| - 1], t) + if es[|es| - 1].ts == t then [es[|es| - 1]] else []
  }

  lemma {:induction false} AtConcat<V>(a: seq<Timed<V>>, b: seq<Timed<V>>, t: int)
    ensures At(a + b, t) == At(a, t) + At(b, t)
  {
    if b == [] {
      assert a + b == a;
    } else {
      assert (a + b)[..|a + b| - 1] == a + b[..|b| - 1];
      AtConcat(a, b[..|b| - 1], t);
    }
  }

  lemma {:induction false} AtNone<V>(es: seq<Timed<V>>, t: int)
    requires forall i :: 0 <= i < |es| ==> es[i].ts != t
    ensures At(es, t) == []
  {
    if es != [] {
      AtNone(es[..|es| - 1], t);
    }
  }

  lemma AtPush<V>(es: seq<Timed<V>>, e: Timed<V>, t: int)
    ensures At(es + [e], t) == At(es, t) + if e.ts == t then [e] else []
  {
    assert (es + [e])[..|es|] == es;
  }

  lemma {:induction false} InsertShape<V>(es: seq<Timed<V>>, e: Timed<V>) returns (k: nat)
    requires Sorted(es)
    ensures k <= |es| && Insert(es, e) == es[..k] + [e] + es[k..]
    ensures forall i :: 0 <= i < k ==> es[i].ts <= e.ts
    ensures forall i :: k <= i < |es| ==> es[i].ts > e.ts
  {
    if es == [] || es[|es| - 1].ts <= e.ts {
      k := |es|;
    } else {
      k := InsertShape(es[..|es| - 1], e);
      assert es[..|es| - 1][k..] + [es[|es| - 1]] == es[k..];
    }
  }

  lemma InsertSorts<V>(es: seq<Timed<V>>, e: Timed<V>)
    requires Sorted(es)
    ensures Sorted(Insert(es, e))
  {
    var k := InsertShape(es, e);
  }

  lemma AtMoved<V>(a: seq<Timed<V>>, e: Timed<V>, b: seq<Timed<V>>, t: int)
    requires forall i :: 0 <= i < |b| ==> b[i].ts != e.ts
    ensures At(a + [e] + b, t) == At(a, t) + (if e.ts == t then [e] else []) + At(b, t)
    ensures At(a + [e] + b, t) == At(a + b, t) + if e.ts == t then [e] else []
  {
    AtConcat(a + [e], b, t);
    AtPush(a, e, t);
    AtConcat(a, b, t);
    if e.ts == t {
      AtNone(b, t);
    }
  }

  lemma InsertAt<V>(es: seq<Timed<V>>, e: Timed<V>, t: int)
    requires Sorted(es)
    ensures At(Insert(es, e), t) == At(es, t) + if e.ts == t then [e] else []
    ensures |Insert(es, e)| == |es| + 1
  {
    var k := InsertShape(es, e);
    AtMoved(es[..k], e, es[k..], t);
    assert es == es[..k] + es[k..];
  }

  /** The sort is sorted, and at every time it has the input's events in input order. */
  lemma {:induction false} StableSortIsStable<V>(es: seq<Timed<V>>, t: int)
    ensures Sorted(StableSort(es)) && At(StableSort(es), t) == At(es, t)
    ensures |StableSort(es)| == |es|
  {
    if es != [] {
      var rest, e := es[..|es| - 1], es[|es| - 1];
      StableSortIsStable(rest, t);
      InsertSorts(StableSort(rest), e);
      InsertAt(StableSort(rest), e, t);
    }
  }

  lemma StableSortSorts<V>(es: seq<Timed<V>>)
    ensures Sorted(StableSort(es))
  {
    StableSortIsStable(es, 0);
  }

  /** Those two facts pin it down: sorted sequences with the same events at every time, in
      the same order, are equal. */
  lemma {:induction false} SortedIsDetermined<V>(a: seq<Timed<V>>, b: seq<Timed<V>>)
    requires Sorted(a) && Sorted(b)
    requires forall t :: At(a, t) == At(b, t)
    ensures a == b
  {
    if a == [] {
      if b != [] {
        LastIsAt(b);
      }
    } else if b == [] {
      LastIsAt(a);
    } else {
      var x, y := a[|a| - 1], b[|b| - 1];
      LatestAgree(a, b);
      LastIsAt(a);
      LastIsAt(b);
      assert At(a, x.ts) == At(b, x.ts);
      var a', b' := a[..|a| - 1], b[..|b| - 1];
      forall t ensures At(a', t) == At(b', t) {
        assert At(a, t) == At(b, t);
        SameBeforeLast(At(a', t), At(b', t), if x.ts == t then [x] else []);
      }
      SortedIsDetermined(a', b');
      assert a == a' + [x] && b == b' + [y];
    }
  }

  lemma SameBeforeLast<T>(s: seq<T>, t: seq<T>, end: seq<T>)
    requires s + end == t + end
    ensures s == t
  {
    assert s == (s + end)[..|s + end| - |end|] && t == (t + end)[..|t + end| - |end|];
  }

  lemma LastIsAt<V>(a: seq<Timed<V>>)
    requires a != []
    ensures var x := a[|a| - 1]; At(a, x.ts) != [] && At(a, x.ts)[|At(a, x.ts)| - 1] == x
  {
  }

  lemma NoneAfterLast<V>(a: seq<Timed<V>>, t: int)
    requires a != [] && Sorted(a) && t > a[|a| - 1].ts
    ensures At(a, t) == []
  {
    AtNone(a, t);
  }

  lemma LatestAgree<V>(a: seq<Timed<V>>, b: seq<Timed<V>>)
    requires a != [] && b != [] && Sorted(a) && Sorted(b)
    requires forall t :: At(a, t) == At(b, t)
    ensures a[|a| - 1].ts == b[|b| - 1].ts
  {
    var s, t := a[|a| - 1].ts, b[|b| - 1].ts;
    LastIsAt(a);
    LastIsAt(b);
    assert At(a, s) == At(b, s);
    assert At(a, t) == At(b, t);
    if s < t {
      NoneAfterLast(a, t);
    } else if t < s {
      NoneAfterLast(b, s);
    }
  }

  // ---------- the re-sort within a window ----------

  /** `heap` lists the buffered events in the order the heap yields them: by time, then by
      arrival. */
  datatype Reordering<V> = Reordering(out: seq<Timed<V>>, heap: seq<Timed<V>>, watermark: int, last: Option<int>, late: bool)

  /** How many buffered events lie at or below the cutoff. */
  function Due<V>(heap: seq<Timed<V>>, cutoff: int): (k: nat)
    ensures k <= |heap|
    ensures forall i :: 0 <= i < k ==> heap[i].ts <= cutoff
    ensures k < |heap| ==> heap[k].ts > cutoff
  {
    if heap == [] || heap[0].ts > cutoff then 0 else 1 + Due(heap[1..], cutoff)
  }

  function LastTime<V>(out: seq<Timed<V>>): Option<int> {
    if out == [] then None else Some(out[|out| - 1].ts)
  }

  function Released<V>(r: Reordering<V>, heap: seq<Timed<V>>, watermark: int, window: int): Reordering<V> {
    var k := Due(heap, watermark - window);
    Reordering(r.out + heap[..k], heap[k..], watermark, if k > 0 then Some(heap[k - 1].ts) else r.last, false)
  }

  function Accept<V>(r: Reordering<V>, e: Timed<V>, window: int): Reordering<V> {
    if r.late then r
    else if r.last.Some? && e.ts < r.last.value then r.(late := true)
    else Released(r, Insert(r.heap, e), Max(r.watermark, e.ts), window)
  }

  function AcceptAll<V>(es: seq<Timed<V>>, window: int): Reordering<V> {
    if es == [] then Reordering([], [], 0, None, false)
    else Accept(AcceptAll(es[..|es| - 1], window), es[|es| - 1], window)
  }

  /** What the generator yields: what was released, and at the end of a stream without a
      late event the rest of the heap. */
  function Output<V>(r: Reordering<V>): seq<Timed<V>> {
    if r.late then r.out else r.out + r.heap
  }

  /** The largest time seen, starting from 0. */
  function Watermark<V>(es: seq<Timed<V>>): int {
    if es == [] then 0 else Max(Watermark(es[..|es| - 1]), es[|es| - 1].ts)
  }

  ghost predicate Balanced<V>(r: Reordering<V>, es: seq<Timed<V>>, window: int) {
    && !r.late
    && r.watermark == Watermark(es)
    && r.out + r.heap == StableSort(es)
    && r.last == LastTime(r.out)
    && (forall i :: 0 <= i < |r.out| ==> r.out[i].ts <= r.watermark - window)
    && (forall i :: 0 <= i < |r.heap| ==> r.heap[i].ts > r.watermark - window)
  }

  lemma {:induction false} InsertBehind<V>(a: seq<Timed<V>>, b: seq<Timed<V>>, e: Timed<V>)
    requires a == [] || a[|a| - 1].ts <= e.ts
    ensures Insert(a + b, e) == a + Insert(b, e)
  {
    if b == [] {
      assert a + b == a;
    } else if b[|b| - 1].ts <= e.ts {
      assert (a + b) + [e] == a + (b + [e]);
    } else {
      assert (a + b)[..|a + b| - 1] == a + b[..|b| - 1];
      InsertBehind(a, b[..|b| - 1], e);
    }
  }

  /** Releasing what is due from a sorted heap splits everything at the cutoff. */
  lemma ReleaseSplits<V>(out: seq<Timed<V>>, heap: seq<Timed<V>>, cutoff: int, k: nat)
    requires Sorted(heap) && k == Due(heap, cutoff)
    requires forall i :: 0 <= i < |out| ==> out[i].ts <= cutoff
    ensures forall i :: 0 <= i < |out + heap[..k]| ==> (out + heap[..k])[i].ts <= cutoff
    ensures forall i :: 0 <= i < |heap[k..]| ==> heap[k..][i].ts > cutoff
    ensures LastTime(out + heap[..k]) == if k > 0 then Some(heap[k - 1].ts) else LastTime(out)
    ensures (out + heap[..k]) + heap[k..] == out + heap
  {
    forall i | 0 <= i < |heap[k..]| ensures heap[k..][i].ts > cutoff {
      assert heap[k..][i] == heap[k + i] && (i > 0 ==> heap[k].ts <= heap[k + i].ts);
    }
    if k == 0 {
      assert out + heap[..k] == out;
    }
  }

  lemma AcceptBalances<V>(r: Reordering<V>, es: seq<Timed<V>>, e: Timed<V>, window: int)
    requires Balanced(r, es, window) && !(r.last.Some? && e.ts < r.last.value)
    ensures Balanced(Accept(r, e, window), es + [e], window)
  {
    InsertedIsSort(r, es, e, window);
    ReleaseBalances(r, es + [e], Insert(r.heap, e), Max(r.watermark, e.ts), window);
  }

  lemma ReleaseBalances<V>(r: Reordering<V>, es: seq<Timed<V>>, heap: seq<Timed<V>>, watermark: int, window: int)
    requires Sorted(heap) && r.out + heap == StableSort(es) && watermark == Watermark(es)
    requires r.watermark <= watermark && r.last == LastTime(r.out)
    requires forall i :: 0 <= i < |r.out| ==> r.out[i].ts <= r.watermark - window
    ensures Balanced(Released(r, heap, watermark, window), es, window)
  {
    ReleaseSplits(r.out, heap, watermark - window, Due(heap, watermark - window));
  }

  lemma InsertedIsSort<V>(r: Reordering<V>, es: seq<Timed<V>>, e: Timed<V>, window: int)
    requires Balanced(r, es, window) && !(r.last.Some? && e.ts < r.last.value)
    ensures r.out + Insert(r.heap, e) == StableSort(es + [e]) && Sorted(Insert(r.heap, e))
    ensures Max(r.watermark, e.ts) == Watermark(es + [e])
  {
    assert (es + [e])[..|es|] == es;
    InsertBehind(r.out, r.heap, e);
    StableSortSorts(es + [e]);
    HeapIsSorted(r.out, Insert(r.heap, e), StableSort(es + [e]));
  }

  lemma HeapIsSorted<V>(out: seq<Timed<V>>, heap: seq<Timed<V>>, all: seq<Timed<V>>)
    requires out + heap == all && Sorted(all)
    ensures Sorted(heap) && Sorted(out)
  {
    forall i, j | 0 <= i < j < |heap| ensures heap[i].ts <= heap[j].ts {
      assert heap[i] == all[|out| + i] && heap[j] == all[|out| + j];
    }
    forall i, j | 0 <= i < j < |out| ensures out[i].ts <= out[j].ts {
      assert out[i] == all[i] && out[j] == all[j];
    }
  }

  /** Some earlier event at a later time already lies outside the window. */
  predicate TooLate<V>(es: seq<Timed<V>>, i: nat, window: int)
    requires i < |es|
  {
    exists j :: 0 <= j < i && es[i].ts < es[j].ts <= Watermark(es[..i]) - window
  }

  predicate AnyTooLate<V>(es: seq<Timed<V>>, window: int) {
    exists i :: 0 <= i < |es| && TooLate(es, i, window)
  }

  lemma TooLatePrefix<V>(es: seq<Timed<V>>, e: Timed<V>, window: int)
    ensures AnyTooLate(es + [e], window) <==> AnyTooLate(es, window) || TooLate(es + [e], |es|, window)
  {
    var all := es + [e];
    forall i | 0 <= i < |es| ensures TooLate(all, i, window) <==> TooLate(es, i, window) {
      assert all[..i] == es[..i];
      assert forall j :: 0 <= j < i ==> all[j] == es[j];
    }
  }

  lemma {:induction false} SortKeepsMembers<V>(es: seq<Timed<V>>)
    ensures forall e :: e in StableSort(es) <==> e in es
  {
    if es != [] {
      var rest, x := es[..|es| - 1], es[|es| - 1];
      SortKeepsMembers(rest);
      StableSortIsStable(rest, 0);
      InsertMembers(StableSort(rest), x);
      assert es == rest + [x];
    }
  }

  lemma InsertMembers<V>(es: seq<Timed<V>>, x: Timed<V>)
    requires Sorted(es)
    ensures forall e :: e in Insert(es, x) <==> e in es || e == x
  {
    var k := InsertShape(es, x);
    assert es == es[..k] + es[k..];
  }

  /** The guard fires on an event exactly when it is too late. */
  lemma GuardIsTooLate<V>(r: Reordering<V>, es: seq<Timed<V>>, e: Timed<V>, window: int)
    requires Balanced(r, es, window)
    ensures (r.last.Some? && e.ts < r.last.value) <==> TooLate(es + [e], |es|, window)
  {
    var all := es + [e];
    assert all[..|es|] == es;
    SortKeepsMembers(es);
    StableSortSorts(es);
    HeapIsSorted(r.out, r.heap, StableSort(es));
    if r.last.Some? && e.ts < r.last.value {
      var x := r.out[|r.out| - 1];
      assert StableSort(es)[|r.out| - 1] == x;
      assert x in es;
      var j :| 0 <= j < |es| && es[j] == x;
      assert all[j] == x && all[|es|] == e;
    }
    if TooLate(all, |es|, window) {
      var j :| 0 <= j < |es| && e.ts < all[j].ts <= Watermark(es) - window;
      assert all[j] == es[j];
      assert es[j] in StableSort(es);
      assert es[j] in r.out + r.heap;
      assert es[j] !in r.heap;
      var k :| 0 <= k < |r.out| && r.out[k] == es[j];
      assert r.out[k].ts <= r.out[|r.out| - 1].ts;
    }
  }

  /** The re-sort raises exactly when some event is too late, and until then holds only
      events newer than the watermark less the window. */
  lemma {:induction false} ReorderRaisesIff<V>(es: seq<Timed<V>>, window: int)
    ensures AcceptAll(es, window).late <==> AnyTooLate(es, window)
    ensures !AcceptAll(es, window).late ==> Balanced(AcceptAll(es, window), es, window)
  {
    if es != [] {
      var rest, e := es[..|es| - 1], es[|es| - 1];
      ReorderRaisesIff(rest, window);
      assert es == rest + [e];
      TooLatePrefix(rest, e, window);
      var r := AcceptAll(rest, window);
      if !r.late {
        GuardIsTooLate(r, rest, e, window);
        if !(r.last.Some? && e.ts < r.last.value) {
          AcceptBalances(r, rest, e, window);
        }
      }
    }
  }

  /** Without a late event the output is the stable sort of the input. */
  lemma ReorderIsStableSort<V>(es: seq<Timed<V>>, window: int)
    requires !AcceptAll(es, window).late
    ensures Output(AcceptAll(es, window)) == StableSort(es)
  {
    ReorderRaisesIff(es, window);
  }

  /** If every event is within the window of the latest time before it, nothing is raised. */
  lemma WithinWindowNeverRaises<V>(es: seq<Timed<V>>, window: int)
    requires forall i :: 0 <= i < |es| ==> es[i].ts >= Watermark(es[..i]) - window
    ensures !AcceptAll(es, window).late
  {
    ReorderRaisesIff(es, window);
  }

  /** Whatever happens, the output released so far is in time order. */
  lemma {:induction false} OutputIsSorted<V>(es: seq<Timed<V>>, window: int)
    ensures Sorted(Output(AcceptAll(es, window)))
  {
    if es != [] {
      OutputIsSorted(es[..|es| - 1], window);
      ReorderRaisesIff(es, window);
      StableSortIsStable(es, 0);
      var r := AcceptAll(es[..|es| - 1], window);
      if AcceptAll(es, window).late && !r.late {
        ReorderRaisesIff(es[..|es| - 1], window);
        StableSortIsStable(es[..|es| - 1], 0);
        HeapIsSorted(r.out, r.heap, StableSort(es[..|es| - 1]));
      }
    }
  }

  // ---------- strictly ascending ----------

  lemma {:induction false} AtHas<V>(es: seq<Timed<V>>, k: nat)
    requires k < |es|
    ensures At(es, es[k].ts) != []
  {
    if k < |es| - 1 {
      AtHas(es[..|es| - 1], k);
    }
  }

  lemma AtTwo<V>(es: seq<Timed<V>>, i: nat, j: nat)
    requires i < j < |es|
    ensures es[i].ts == es[j].ts ==> |At(es, es[i].ts)| > 1
  {
    assert es == es[..j] + es[j..];
    AtConcat(es[..j], es[j..], es[i].ts);
    AtHas(es[..j], i);
    AtHas(es[j..], 0);
  }

  lemma {:induction false} AtOne<V>(es: seq<Timed<V>>, t: int)
    requires DistinctTimes(es)
    ensures |At(es, t)| <= 1
  {
    if es != [] {
      if es[|es| - 1].ts == t {
        AtNone(es[..|es| - 1], t);
      } else {
        AtOne(es[..|es| - 1], t);
      }
    }
  }

  lemma DistinctCarries<V>(a: seq<Timed<V>>, b: seq<Timed<V>>)
    requires DistinctTimes(a) && forall t :: At(a, t) == At(b, t)
    ensures DistinctTimes(b)
  {
    forall i, j | 0 <= i < j < |b| ensures b[i].ts != b[j].ts {
      AtOne(a, b[i].ts);
      AtTwo(b, i, j);
      assert At(a, b[i].ts) == At(b, b[i].ts);
    }
  }

  /** Without a late event the output is strictly ascending exactly when no two events share
      a time. */
  lemma StrictlyAscendingIff<V>(es: seq<Timed<V>>, window: int)
    requires !AcceptAll(es, window).late
    ensures Strict(Output(AcceptAll(es, window))) <==> DistinctTimes(es)
  {
    ReorderIsStableSort(es, window);
    StableSortSorts(es);
    forall t ensures At(StableSort(es), t) == At(es, t) {
      StableSortIsStable(es, t);
    }
    var out := StableSort(es);
    if DistinctTimes(es) {
      DistinctCarries(es, out);
    }
    if Strict(out) {
      DistinctCarries(out, es);
    }
  }

  /** Two quotes at one time come out as they came in: in order, not strictly. */
  lemma EqualTimesStayEqual<V>(ts: int, a: V, b: V, window: nat)
    requires ts >= 0
    ensures var es := [Timed(ts, a), Timed(ts, b)];
            && !AcceptAll(es, window).late
            && Output(AcceptAll(es, window)) == es && !Strict(Output(AcceptAll(es, window)))
  {
    var es := [Timed(ts, a), Timed(ts, b)];
    assert es[..0] == [] && es[..1] == [es[0]] && es[..1][..0] == [];
    WithinWindowNeverRaises(es, window);
    ReorderIsStableSort(es, window);
    SortedStays(es);
    StrictlyAscendingIff(es, window);
    assert es[0].ts == es[1].ts;
  }

  lemma SortedStays<V>(es: seq<Timed<V>>)
    requires Sorted(es)
    ensures StableSort(es) == es
  {
    forall t ensures At(StableSort(es), t) == At(es, t) {
      StableSortIsStable(es, t);
    }
    StableSortSorts(es);
    SortedIsDetermined(StableSort(es), es);
  }

  // ---------- the loop ----------

  /** One turn of the generator: push, advance the watermark, release what is due. */
  method Push<V>(r: Reordering<V>, e: Timed<V>, window: int) returns (next: Reordering<V>)
    ensures next == Accept(r, e, window)
  {
    if r.late {
      return r;
    }
    if r.last.Some? && e.ts < r.last.value {
      return r.(late := true);
    }
    var heap, watermark := Insert(r.heap, e), Max(r.watermark, e.ts);
    var released;
    released, heap := Release(heap, watermark - window);
    next := Reordering(r.out + released, heap, watermark, if released != [] then Some(released[|released| - 1].ts) else r.last, false);
  }

  /** Pops the heap while its least entry is due. */
  method Release<V>(full: seq<Timed<V>>, cutoff: int) returns (released: seq<Timed<V>>, heap: seq<Timed<V>>)
    ensures released == full[..Due(full, cutoff)] && heap == full[Due(full, cutoff)..]
  {
    released, heap := [], full;
    while |heap| > 0 && heap[0].ts <= cutoff
      invariant |released| <= |full| && released == full[..|released|] && heap == full[|released|..]
      invariant |released| <= Due(full, cutoff)
      decreases |heap|
    {
      released, heap := released + [heap[0]], heap[1..];
    }
  }

  /** The generator: feeds every event, stopping at the first late one, then drains. */
  method Reorder<V>(events: seq<Timed<V>>, window: int) returns (out: seq<Timed<V>>, late: bool)
    ensures late == AcceptAll(events, window).late
    ensures out == Output(AcceptAll(events, window))
    ensures !late ==> out == StableSort(events)
  {
    var r: Reordering<V> := Reordering([], [], 0, None, false);
    var idx := 0;
    while idx < |events| && !r.late
      invariant idx <= |events| && r == AcceptAll(events[..idx], window)
    {
      AcceptPush(events, idx, window);
      r := Push(r, events[idx], window);
      idx := idx + 1;
    }
    Stopped(events, idx, window);
    out, late := if r.late then r.out else r.out + r.heap, r.late;
  }

  lemma AcceptPush<V>(es: seq<Timed<V>>, i: nat, window: int)
    requires i < |es|
    ensures AcceptAll(es[..i + 1], window) == Accept(AcceptAll(es[..i], window), es[i], window)
  {
    assert es[..i + 1][..i] == es[..i];
  }

  lemma Stopped<V>(es: seq<Timed<V>>, i: nat, window: int)
    requires i <= |es| && (i < |es| ==> AcceptAll(es[..i], window).late)
    ensures AcceptAll(es[..i], window) == AcceptAll(es, window)
    ensures !AcceptAll(es, window).late ==> Output(AcceptAll(es, window)) == StableSort(es)
  {
    if i < |es| {
      LateStays(es, i, window);
    } else {
      assert es[..i] == es;
    }
    if !AcceptAll(es, window).late {
      ReorderIsStableSort(es, window);
    }
  }

  lemma {:induction false} LateStays<V>(es: seq<Timed<V>>, i: nat, window: int)
    requires i <= |es| && AcceptAll(es[..i], window).late
    ensures AcceptAll(es, window) == AcceptAll(es[..i], window)
    decreases |es|
  {
    if i < |es| {
      assert es[..|es| - 1][..i] == es[..i];
      LateStays(es[..|es| - 1], i, window);
    } else {
      assert es[..i] == es;
    }
  }
}
