/** Alphabetical order on venue names. */
module Names {
  import opened Decimal

  lemma {:induction false} LexTotal(a: string, b: string)
    ensures LexLess(a, b) || a == b || LexLess(b, a)
    ensures !(LexLess(a, b) && LexLess(b, a))
    ensures a == b ==> !LexLess(a, b)
  {
    if a != [] && b != [] && a[0] == b[0] {
      LexTotal(a[1..], b[1..]);
      assert a == [a[0]] + a[1..] && b == [b[0]] + b[1..];
    }
  }

  lemma {:induction false} LexTransitive(a: string, b: string, c: string)
    requires LexLess(a, b) && LexLess(b, c)
    ensures LexLess(a, c)
  {
    if a != [] && a[0] == b[0] && b[0] == c[0] {
      LexTransitive(a[1..], b[1..], c[1..]);
    }
  }

  predicate Ascending(names: seq<string>) {
    forall i, j :: 0 <= i < j < |names| ==> LexLess(names[i], names[j])
  }

  function NameSet(names: seq<string>): set<string> {
    set v | v in names
  }

  predicate IsListing(names: seq<string>, s: set<string>) {
    Ascending(names) && NameSet(names) == s
  }

  lemma EmptyListing(names: seq<string>)
    ensures names == [] <==> NameSet(names) == {}
    ensures names != [] ==> names[|names| - 1] in NameSet(names)
  {
    if names != [] {
      assert names[|names| - 1] in NameSet(names);
    }
  }

  /** A set has only one sorted listing. */
  lemma {:induction false} ListingIsUnique(a: seq<string>, b: seq<string>, s: set<string>)
    requires IsListing(a, s) && IsListing(b, s)
    ensures a == b
    decreases |a|
  {
    EmptyListing(a);
    EmptyListing(b);
    if a != [] {
      var x, y := a[|a| - 1], b[|b| - 1];
      assert x in NameSet(b) && y in NameSet(a);
      GreatestIsLast(a, y);
      GreatestIsLast(b, x);
      LexTotal(x, y);
      WithoutLast(a, s);
      WithoutLast(b, s);
      ListingIsUnique(a[..|a| - 1], b[..|b| - 1], s - {x});
      assert a == a[..|a| - 1] + [x] && b == b[..|b| - 1] + [y];
    }
  }

  lemma GreatestIsLast(names: seq<string>, v: string)
    requires Ascending(names) && v in names
    ensures v == names[|names| - 1] || LexLess(v, names[|names| - 1])
  {
  }

  lemma WithoutLast(names: seq<string>, s: set<string>)
    requires IsListing(names, s) && names != []
    ensures IsListing(names[..|names| - 1], s - {names[|names| - 1]})
  {
    var rest, x := names[..|names| - 1], names[|names| - 1];
    assert names == rest + [x];
    if x in rest {
      var i :| 0 <= i < |rest| && rest[i] == x;
      assert LexLess(names[i], names[|names| - 1]);
      LexTotal(x, x);
    }
  }

  lemma {:induction false} Spot(names: seq<string>, v: string) returns (i: nat)
    requires Ascending(names)
    ensures i <= |names| && (i > 0 ==> !LexLess(v, names[i - 1]))
    ensures forall j :: i <= j < |names| ==> LexLess(v, names[j])
  {
    if names == [] || !LexLess(v, names[|names| - 1]) {
      i := |names|;
    } else {
      i := Spot(names[..|names| - 1], v);
    }
  }

  lemma {:induction false} ListingExists(s: set<string>) returns (names: seq<string>)
    ensures IsListing(names, s)
  {
    if s == {} {
      names := [];
    } else {
      var v :| v in s;
      var rest := ListingExists(s - {v});
      var i := Spot(rest, v);
      InsertedLists(rest, i, v, s - {v});
      names := rest[..i] + [v] + rest[i..];
      assert (s - {v}) + {v} == s;
    }
  }

  lemma HasListing(s: set<string>)
    ensures exists names :: IsListing(names, s)
  {
    var names := ListingExists(s);
  }

  /** The sorted listing of a set. */
  ghost function Listing(s: set<string>): (names: seq<string>)
    ensures IsListing(names, s)
  {
    HasListing(s);
    var names :| IsListing(names, s);
    names
  }

  /** Sorts a set of names. */
  method SortNames(s: set<string>) returns (names: seq<string>)
    ensures IsListing(names, s)
  {
    names := [];
    var left := s;
    while left != {}
      invariant left <= s && IsListing(names, s - left)
      decreases |left|
    {
      var v :| v in left;
      names := Inserted(names, v, s - left);
      assert s - (left - {v}) == (s - left) + {v};
      left := left - {v};
    }
    assert s - {} == s;
  }

  method Inserted(names: seq<string>, v: string, ghost s: set<string>) returns (more: seq<string>)
    requires IsListing(names, s) && v !in s
    ensures IsListing(more, s + {v})
  {
    var i := |names|;
    while i > 0 && LexLess(v, names[i - 1])
      invariant 0 <= i <= |names|
      invariant forall j :: i <= j < |names| ==> LexLess(v, names[j])
    {
      i := i - 1;
    }
    more := names[..i] + [v] + names[i..];
    InsertedLists(names, i, v, s);
  }

  lemma InsertedLists(names: seq<string>, i: nat, v: string, s: set<string>)
    requires IsListing(names, s) && v !in s && i <= |names|
    requires i > 0 ==> !LexLess(v, names[i - 1])
    requires forall j :: i <= j < |names| ==> LexLess(v, names[j])
    ensures IsListing(names[..i] + [v] + names[i..], s + {v})
  {
    forall j | 0 <= j < i ensures LexLess(names[j], v) {
      assert names[j] in NameSet(names) && names[i - 1] in NameSet(names);
      LexTotal(v, names[i - 1]);
      if j < i - 1 {
        LexTransitive(names[j], names[i - 1], v);
      }
    }
    InsertedAscends(names, i, v);
    InsertedNames(names, i, v);
  }

  lemma InsertedAscends(names: seq<string>, i: nat, v: string)
    requires Ascending(names) && i <= |names|
    requires forall j :: 0 <= j < i ==> LexLess(names[j], v)
    requires forall j :: i <= j < |names| ==> LexLess(v, names[j])
    ensures Ascending(names[..i] + [v] + names[i..])
  {
  }

  lemma InsertedNames(names: seq<string>, i: nat, v: string)
    requires i <= |names|
    ensures NameSet(names[..i] + [v] + names[i..]) == NameSet(names) + {v}
  {
    assert names == names[..i] + names[i..];
  }
}
