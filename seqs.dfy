/** Filtering and mapping a sequence in one pass, the shape of the backend
    loops that skip some items and convert the rest. */
module Seqs {
  import opened Common

  /** The value paired with `key` in a list of key/value pairs (its first
      occurrence): a lookup in a mapping that keeps its keys in order. */
  function LookupKey<K(==), V>(pairs: seq<(K, V)>, key: K): (r: Option<V>)
    ensures r.Some? ==> (key, r.value) in pairs
  {
    if pairs == [] then None
    else if pairs[0].0 == key then Some(pairs[0].1)
    else LookupKey(pairs[1..], key)
  }

  /** A lookup finds a value exactly when the key occurs. */
  lemma {:induction false} LookupKeyFinds<K, V>(pairs: seq<(K, V)>, key: K)
    ensures LookupKey(pairs, key).None? <==> forall i :: 0 <= i < |pairs| ==> pairs[i].0 != key
  {
    if pairs != [] && pairs[0].0 != key {
      LookupKeyFinds(pairs[1..], key);
      assert forall i :: 1 <= i < |pairs| ==> pairs[i] == pairs[1..][i - 1];
    }
  }

  /** The values `f` gives for the items it accepts, in order. */
  function FilterMap<T, U>(s: seq<T>, f: T -> Option<U>): seq<U>
  {
    if s == [] then []
    else
      FilterMap(s[..|s| - 1], f)
        + if f(s[|s| - 1]).Some? then [f(s[|s| - 1]).value] else []
  }

  /** The positions of the items `f` accepts, in increasing order. */
  function AcceptedIndices<T, U>(s: seq<T>, f: T -> Option<U>): seq<nat>
  {
    if s == [] then []
    else
      AcceptedIndices(s[..|s| - 1], f)
        + if f(s[|s| - 1]).Some? then [|s| - 1] else []
  }

  /** The filter-map keeps exactly the accepted items, one result per
      accepted item, in their original order. */
  lemma {:induction false} FilterMapInOrder<T, U>(s: seq<T>, f: T -> Option<U>)
    ensures var idx := AcceptedIndices(s, f);
      && |idx| == |FilterMap(s, f)|
      && (forall j :: 0 <= j < |idx| ==>
            idx[j] < |s| && f(s[idx[j]]) == Some(FilterMap(s, f)[j]))
      && (forall j, j' :: 0 <= j < j' < |idx| ==> idx[j] < idx[j'])
      && (forall k :: 0 <= k < |s| ==> (k in idx <==> f(s[k]).Some?))
    decreases |s|
  {
    if s != [] {
      var init := s[..|s| - 1];
      FilterMapInOrder(init, f);
      assert forall k :: 0 <= k < |init| ==> init[k] == s[k];
    }
  }

  /** One more item: the filter-map grows by its value when it is accepted. */
  lemma FilterMapSnoc<T, U>(s: seq<T>, x: T, f: T -> Option<U>)
    ensures FilterMap(s + [x], f) == FilterMap(s, f) + if f(x).Some? then [f(x).value] else []
  {
    assert (s + [x])[..|s + [x]| - 1] == s;
  }

  /** Every result of the filter-map is the value of an accepted item. */
  lemma {:induction false} FilterMapResults<T, U>(s: seq<T>, f: T -> Option<U>, P: U -> bool)
    requires forall x :: x in s && f(x).Some? ==> P(f(x).value)
    ensures forall u :: u in FilterMap(s, f) ==> P(u)
    decreases |s|
  {
    if s != [] {
      var init := s[..|s| - 1];
      assert forall x :: x in init ==> x in s;
      FilterMapResults(init, f, P);
      assert s[|s| - 1] in s;
    }
  }

  /** The filter-map of a concatenation is the concatenation of the
      filter-maps. */
  lemma {:induction false} FilterMapAppend<T, U>(a: seq<T>, b: seq<T>, f: T -> Option<U>)
    ensures FilterMap(a + b, f) == FilterMap(a, f) + FilterMap(b, f)
    decreases |b|
  {
    if b == [] {
      assert a + b == a;
    } else {
      var init := b[..|b| - 1];
      var x := b[|b| - 1];
      assert b == init + [x];
      assert a + b == (a + init) + [x];
      FilterMapAppend(a, init, f);
      FilterMapSnoc(a + init, x, f);
      FilterMapSnoc(init, x, f);
    }
  }

  /** The filter-map of a single item. */
  lemma FilterMapSingle<T, U>(x: T, f: T -> Option<U>)
    ensures FilterMap([x], f) == if f(x).Some? then [f(x).value] else []
  {
    FilterMapSnoc([], x, f);
    assert [] + [x] == [x];
  }

  /** An item inserted between two parts adds its value at the end of the
      filter-map, when the part after it contributes nothing or the item
      itself is rejected. */
  lemma FilterMapInsert<T, U>(before: seq<T>, x: T, after: seq<T>, f: T -> Option<U>)
    requires FilterMap(after, f) == [] || f(x).None?
    ensures FilterMap(before + [x] + after, f) == FilterMap(before + after, f) + FilterMap([x], f)
  {
    FilterMapAppend(before + [x], after, f);
    FilterMapAppend(before, [x], f);
    FilterMapAppend(before, after, f);
    FilterMapSingle(x, f);
  }

  /** The items an optional value contributes: none or one. */
  function Opt<U>(o: Option<U>): (r: seq<U>)
    ensures |r| <= 1
  {
    if o.Some? then [o.value] else []
  }

  /** The filter-map of a sequence with one more item in front. */
  lemma FilterMapCons<T, U>(x: T, s: seq<T>, f: T -> Option<U>)
    ensures FilterMap([x] + s, f) == Opt(f(x)) + FilterMap(s, f)
  {
    FilterMapAppend([x], s, f);
    FilterMapSingle(x, f);
  }

  /** A filter-map that accepts no item is empty. */
  lemma {:induction false} FilterMapNone<T, U>(s: seq<T>, f: T -> Option<U>)
    requires forall k :: 0 <= k < |s| ==> f(s[k]).None?
    ensures FilterMap(s, f) == []
    decreases |s|
  {
    if s != [] {
      FilterMapNone(s[..|s| - 1], f);
    }
  }

  /** The values of a sequence of results, or the error of the first one
      that failed: the shape of a loop that stops at the first `?`. */
  function Collect<T, E>(rs: seq<Result<T, E>>): Result<seq<T>, E>
  {
    if rs == [] then Ok([])
    else
      match Collect(rs[..|rs| - 1])
      case Err(e) => Err(e)
      case Ok(vs) => if rs[|rs| - 1].Ok? then Ok(vs + [rs[|rs| - 1].value]) else Err(rs[|rs| - 1].error)
  }

  /** The position of the first failed result, or the length when none
      failed. */
  function FirstErr<T, E>(rs: seq<Result<T, E>>): (k: nat)
    ensures k <= |rs|
    ensures forall j :: 0 <= j < k ==> rs[j].Ok?
    ensures k < |rs| ==> rs[k].Err?
  {
    if rs == [] then 0
    else if rs[0].Err? then 0
    else 1 + FirstErr(rs[1..])
  }

  /** The first failed position of a prefix. */
  lemma {:induction false} FirstErrPrefix<T, E>(rs: seq<Result<T, E>>, n: nat)
    requires n <= |rs|
    ensures FirstErr(rs[..n]) == if FirstErr(rs) < n then FirstErr(rs) else n
    decreases n
  {
    if n > 0 && rs[0].Ok? {
      assert rs[..n][1..] == rs[1..][..n - 1];
      FirstErrPrefix(rs[1..], n - 1);
    }
  }

  /** Collecting succeeds exactly when no result failed, and then gives
      every value in order; otherwise it gives the first error. */
  lemma {:induction false} CollectMeaning<T, E>(rs: seq<Result<T, E>>)
    ensures var r := Collect(rs);
      var k := FirstErr(rs);
      && (r.Ok? <==> k == |rs|)
      && (r.Ok? ==> |r.value| == |rs| && forall i :: 0 <= i < |rs| ==> rs[i] == Ok(r.value[i]))
      && (r.Err? ==> k < |rs| && r.error == rs[k].error)
    decreases |rs|
  {
    if rs != [] {
      var n := |rs| - 1;
      CollectMeaning(rs[..n]);
      FirstErrPrefix(rs, n);
      assert forall i :: 0 <= i < n ==> rs[..n][i] == rs[i];
    }
  }

  /** Once a prefix fails, every longer prefix fails with the same error. */
  lemma {:induction false} CollectErrPersists<T, E>(rs: seq<Result<T, E>>, n: nat)
    requires n <= |rs|
    requires Collect(rs[..n]).Err?
    ensures Collect(rs) == Collect(rs[..n])
    decreases |rs| - n
  {
    if n < |rs| {
      assert rs[..n + 1][..n] == rs[..n];
      CollectErrPersists(rs, n + 1);
    } else {
      assert rs[..n] == rs;
    }
  }
}
