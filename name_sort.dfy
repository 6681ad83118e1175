/** Ordering interfaces by name, as the command line does before printing
    them: a stable sort on the names' lexicographic order. */
module NameSort {
  import opened Common
  import opened IfaceData
  import opened Seqs

  /** `String::cmp`: lexicographic order. The strings are compared code
      point by code point, which is the byte order of their UTF-8 forms. */
  predicate NameLe(a: string, b: string)
    decreases |a|
  {
    a == [] || (b != [] && (a[0] < b[0] || (a[0] == b[0] && NameLe(a[1..], b[1..]))))
  }

  lemma {:induction false} NameLeRefl(a: string)
    ensures NameLe(a, a)
    decreases |a|
  {
    if a != [] {
      NameLeRefl(a[1..]);
    }
  }

  lemma {:induction false} NameLeTotal(a: string, b: string)
    ensures NameLe(a, b) || NameLe(b, a)
    decreases |a|
  {
    if a != [] && b != [] && a[0] == b[0] {
      NameLeTotal(a[1..], b[1..]);
    }
  }

  lemma {:induction false} NameLeTrans(a: string, b: string, c: string)
    requires NameLe(a, b) && NameLe(b, c)
    ensures NameLe(a, c)
    decreases |a|
  {
    if a != [] && a[0] == b[0] && b[0] == c[0] {
      NameLeTrans(a[1..], b[1..], c[1..]);
    }
  }

  lemma {:induction false} NameLeAntisym(a: string, b: string)
    requires NameLe(a, b) && NameLe(b, a)
    ensures a == b
    decreases |a|
  {
    if a != [] {
      NameLeAntisym(a[1..], b[1..]);
      assert a == [a[0]] + a[1..] && b == [b[0]] + b[1..];
    }
  }

  /** Interfaces in ascending order of name. */
  ghost predicate SortedByName(s: seq<Interface>)
  {
    forall i, j :: 0 <= i < j < |s| ==> NameLe(Name(s[i]), Name(s[j]))
  }

  /** Whether an interface has the name `n`. */
  function NamedOf(n: string): Interface -> Option<Interface>
  {
    (i: Interface) => if Name(i) == n then Some(i) else None
  }

  /** The interfaces named `n`, in order. */
  function WithName(s: seq<Interface>, n: string): seq<Interface>
  {
    FilterMap(s, NamedOf(n))
  }

  /** The position at which `x` goes into `r`: after every interface whose
      name is not greater than `x`'s. */
  function InsertPos(r: seq<Interface>, x: Interface): (p: nat)
    ensures p <= |r|
    ensures forall k :: 0 <= k < p ==> NameLe(Name(r[k]), Name(x))
    ensures p < |r| ==> !NameLe(Name(r[p]), Name(x))
  {
    if r == [] then 0
    else if NameLe(Name(r[0]), Name(x)) then 1 + InsertPos(r[1..], x)
    else 0
  }

  /** `x` inserted into `r` after its equals. */
  function InsertByName(r: seq<Interface>, x: Interface): seq<Interface>
  {
    var p := InsertPos(r, x);
    r[..p] + [x] + r[p..]
  }

  /** The order the stable sort by name produces: each interface in turn
      is inserted after those already placed whose name is not greater. */
  function SortByNameSpec(s: seq<Interface>): seq<Interface>
  {
    if s == [] then []
    else InsertByName(SortByNameSpec(s[..|s| - 1]), s[|s| - 1])
  }

  /** In a sorted sequence, every interface from the insertion position on
      has a name greater than `x`'s. */
  lemma InsertPosSplit(r: seq<Interface>, x: Interface)
    requires SortedByName(r)
    ensures forall k :: InsertPos(r, x) <= k < |r| ==>
      !NameLe(Name(r[k]), Name(x)) && NameLe(Name(x), Name(r[k])) && Name(r[k]) != Name(x)
  {
    var p := InsertPos(r, x);
    forall k | p <= k < |r|
      ensures !NameLe(Name(r[k]), Name(x)) && NameLe(Name(x), Name(r[k])) && Name(r[k]) != Name(x)
    {
      if NameLe(Name(r[k]), Name(x)) {
        NameLeTrans(Name(r[p]), Name(r[k]), Name(x));
      }
      NameLeTotal(Name(r[k]), Name(x));
      if Name(r[k]) == Name(x) {
        NameLeRefl(Name(x));
      }
    }
  }

  lemma InsertKeepsSorted(r: seq<Interface>, x: Interface)
    requires SortedByName(r)
    ensures SortedByName(InsertByName(r, x))
  {
    var p := InsertPos(r, x);
    var t := InsertByName(r, x);
    InsertPosSplit(r, x);
    forall i, j | 0 <= i < j < |t|
      ensures NameLe(Name(t[i]), Name(t[j]))
    {
      var ri := if i < p then i else i - 1;
      var rj := if j <= p then j else j - 1;
      if i != p && j != p {
        assert t[i] == r[ri] && t[j] == r[rj];
      }
    }
  }

  /** In a sorted sequence, no interface from the insertion position on
      has `x`'s name. */
  lemma NoneNamedAfter(r: seq<Interface>, x: Interface)
    requires SortedByName(r)
    ensures WithName(r[InsertPos(r, x)..], Name(x)) == []
  {
    var p := InsertPos(r, x);
    var t := r[p..];
    InsertPosSplit(r, x);
    forall k | 0 <= k < |t|
      ensures NamedOf(Name(x))(t[k]).None?
    {
      assert t[k] == r[p + k];
    }
    FilterMapNone(t, NamedOf(Name(x)));
  }

  lemma InsertKeepsNamed(r: seq<Interface>, x: Interface, n: string)
    requires SortedByName(r)
    ensures WithName(InsertByName(r, x), n) == WithName(r, n) + WithName([x], n)
  {
    var p := InsertPos(r, x);
    if n == Name(x) {
      NoneNamedAfter(r, x);
    } else {
      assert NamedOf(n)(x).None?;
    }
    FilterMapInsert(r[..p], x, r[p..], NamedOf(n));
    assert r[..p] + r[p..] == r;
  }

  /** The sort's result is in ascending order of name. */
  lemma {:induction false} SortByNameSorted(s: seq<Interface>)
    ensures SortedByName(SortByNameSpec(s))
    decreases |s|
  {
    if s != [] {
      SortByNameSorted(s[..|s| - 1]);
      InsertKeepsSorted(SortByNameSpec(s[..|s| - 1]), s[|s| - 1]);
    }
  }

  /** Inserting adds exactly the inserted interface. */
  lemma InsertPermutes(r: seq<Interface>, x: Interface)
    ensures multiset(InsertByName(r, x)) == multiset(r) + multiset{x}
  {
    var p := InsertPos(r, x);
    assert r == r[..p] + r[p..];
    assert InsertByName(r, x) == r[..p] + [x] + r[p..];
  }

  /** The sort's result is a permutation of its input. */
  lemma {:induction false} SortByNamePermutes(s: seq<Interface>)
    ensures multiset(SortByNameSpec(s)) == multiset(s)
    decreases |s|
  {
    if s != [] {
      var init := s[..|s| - 1];
      var x := s[|s| - 1];
      SortByNamePermutes(init);
      InsertPermutes(SortByNameSpec(init), x);
      assert s == init + [x];
      assert multiset(s) == multiset(init) + multiset{x};
    }
  }

  /** The sort is stable: the interfaces of any one name keep their
      relative order. */
  lemma {:induction false} SortByNameStable(s: seq<Interface>, n: string)
    ensures WithName(SortByNameSpec(s), n) == WithName(s, n)
    decreases |s|
  {
    if s != [] {
      var init := s[..|s| - 1];
      var x := s[|s| - 1];
      SortByNameStable(init, n);
      SortByNameSorted(init);
      InsertKeepsNamed(SortByNameSpec(init), x, n);
      assert s == init + [x];
      FilterMapAppend(init, [x], NamedOf(n));
    }
  }

  /** `ifaces.sort_by(|a, b| a.name().cmp(b.name()))`, a stable sort, as
      an insertion sort on a sequence. */
  method SortByName(ifaces: seq<Interface>) returns (sorted: seq<Interface>)
    ensures sorted == SortByNameSpec(ifaces)
    ensures SortedByName(sorted) && multiset(sorted) == multiset(ifaces)
  {
    sorted := [];
    for i := 0 to |ifaces|
      invariant sorted == SortByNameSpec(ifaces[..i])
    {
      var x := ifaces[i];
      var p := 0;
      while p < |sorted| && NameLe(Name(sorted[p]), Name(x))
        invariant p <= InsertPos(sorted, x)
      {
        p := p + 1;
      }
      assert ifaces[..i + 1][..i] == ifaces[..i];
      sorted := sorted[..p] + [x] + sorted[p..];
    }
    assert ifaces[..|ifaces|] == ifaces;
    SortByNameSorted(ifaces);
    SortByNamePermutes(ifaces);
  }
}
