/** Sequence combinators for the list idioms both setup scripts use: list
    comprehensions with a filter or a map, and a loop that appends at most
    one value per element. */
module Lists {
  datatype Option<T> = None | Some(value: T)

  /** The values an optional value holds, as a list of length 0 or 1. */
  function AsSeq<T>(o: Option<T>): (s: seq<T>)
    ensures o.None? ==> s == []
    ensures o.Some? ==> s == [o.value]
  {
    match o
    case None => []
    case Some(v) => [v]
  }

  /** A list comprehension `[x for x in s if p(x)]`. */
  function Filter<T(!new)>(s: seq<T>, p: T -> bool): (r: seq<T>)
    ensures |r| <= |s|
    ensures forall x :: x in r <==> x in s && p(x)
    ensures forall k :: 0 <= k < |r| ==> p(r[k])
  {
    if s == [] then []
    else (if p(s[0]) then [s[0]] else []) + Filter(s[1..], p)
  }

  /** The head of a filtered list is the first element, in list order, that
      passes the filter. */
  lemma {:induction false} FilterHeadIsFirst<T(!new)>(s: seq<T>, p: T -> bool, k: nat)
    requires k < |s| && p(s[k])
    requires forall j :: 0 <= j < k ==> !p(s[j])
    ensures Filter(s, p) != [] && Filter(s, p)[0] == s[k]
  {
    if k > 0 {
      FilterHeadIsFirst(s[1..], p, k - 1);
    }
  }

  /** Filtering distributes over concatenation, so it keeps the elements
      that pass in their original order. */
  lemma {:induction false} FilterAppend<T(!new)>(s: seq<T>, t: seq<T>, p: T -> bool)
    ensures Filter(s + t, p) == Filter(s, p) + Filter(t, p)
  {
    if s == [] {
      assert s + t == t;
    } else {
      assert (s + t)[0] == s[0];
      assert (s + t)[1..] == s[1..] + t;
      FilterAppend(s[1..], t, p);
    }
  }

  /** A list comprehension `[f(x) for x in s]`. */
  function MapSeq<A, B>(s: seq<A>, f: A -> B): (r: seq<B>)
    ensures |r| == |s|
    ensures forall k :: 0 <= k < |s| ==> r[k] == f(s[k])
  {
    seq(|s|, k requires 0 <= k < |s| => f(s[k]))
  }

  lemma MapSeqAppend<A, B>(s: seq<A>, x: A, f: A -> B)
    ensures MapSeq(s + [x], f) == MapSeq(s, f) + [f(x)]
  {
    var t := s + [x];
    assert forall k :: 0 <= k < |s| ==> t[k] == s[k];
  }

  /** A loop that appends `f(x)` for each `x` of `s` that yields a value,
      in order: `[f(x).value for x in s if f(x) is not None]`. */
  function Collect<A, B>(s: seq<A>, f: A -> Option<B>): (r: seq<B>)
    ensures |r| <= |s|
    decreases |s|
  {
    if s == [] then [] else Collect(s[..|s| - 1], f) + AsSeq(f(s[|s| - 1]))
  }

  /** The positions of `s` whose element yields a value under `f`. */
  function Hits<A, B>(s: seq<A>, f: A -> Option<B>): (ix: seq<nat>)
    decreases |s|
  {
    if s == [] then [] else Hits(s[..|s| - 1], f) + (if f(s[|s| - 1]).Some? then [|s| - 1] else [])
  }

  /** The hit positions lie in `s`, increase strictly, and are exactly the
      positions whose element yields a value. */
  lemma {:induction false} HitsShape<A, B>(s: seq<A>, f: A -> Option<B>)
    ensures forall k :: 0 <= k < |Hits(s, f)| ==> Hits(s, f)[k] < |s|
    ensures forall k, l :: 0 <= k < l < |Hits(s, f)| ==> Hits(s, f)[k] < Hits(s, f)[l]
    ensures forall i :: 0 <= i < |s| ==> (i in Hits(s, f) <==> f(s[i]).Some?)
    decreases |s|
  {
    if s != [] {
      var n := |s| - 1;
      var init := s[..n];
      HitsShape(init, f);
      var ix0, ix := Hits(init, f), Hits(s, f);
      assert ix == ix0 + (if f(s[n]).Some? then [n] else []);
      forall i | 0 <= i < |s|
        ensures i in ix <==> f(s[i]).Some?
      {
        if i < n {
          assert init[i] == s[i];
          assert i in ix <==> i in ix0;
        }
      }
    }
  }

  /** The k-th collected value is the value of the element at the k-th hit
      position. */
  lemma {:induction false} CollectValues<A, B>(s: seq<A>, f: A -> Option<B>)
    ensures |Hits(s, f)| == |Collect(s, f)|
    ensures forall k :: 0 <= k < |Hits(s, f)| ==>
      Hits(s, f)[k] < |s| && f(s[Hits(s, f)[k]]) == Some(Collect(s, f)[k])
    decreases |s|
  {
    if s != [] {
      var n := |s| - 1;
      var init := s[..n];
      CollectValues(init, f);
      var ix0, t0 := Hits(init, f), Collect(init, f);
      var ix, t := Hits(s, f), Collect(s, f);
      assert ix == ix0 + (if f(s[n]).Some? then [n] else []);
      assert t == t0 + AsSeq(f(s[n]));
      forall k | 0 <= k < |ix|
        ensures ix[k] < |s| && f(s[ix[k]]) == Some(t[k])
      {
        if k < |ix0| {
          assert ix[k] == ix0[k] && t[k] == t0[k] && init[ix0[k]] == s[ix0[k]];
        }
      }
    }
  }

  /** Collect keeps one value per element that yields one, in the order of
      `s`, and nothing from the other elements: its k-th value comes from
      position Hits(s, f)[k], and these positions increase strictly. */
  lemma CollectOrigins<A, B>(s: seq<A>, f: A -> Option<B>)
    ensures |Hits(s, f)| == |Collect(s, f)|
    ensures forall k :: 0 <= k < |Hits(s, f)| ==>
      Hits(s, f)[k] < |s| && f(s[Hits(s, f)[k]]) == Some(Collect(s, f)[k])
    ensures forall k, l :: 0 <= k < l < |Hits(s, f)| ==> Hits(s, f)[k] < Hits(s, f)[l]
    ensures forall i :: 0 <= i < |s| ==> (i in Hits(s, f) <==> f(s[i]).Some?)
  {
    HitsShape(s, f);
    CollectValues(s, f);
  }

  /** Every value an element yields is collected. */
  lemma CollectHit<A, B>(s: seq<A>, f: A -> Option<B>, i: nat)
    requires i < |s| && f(s[i]).Some?
    ensures exists k :: 0 <= k < |Collect(s, f)| && Collect(s, f)[k] == f(s[i]).value
  {
    CollectOrigins(s, f);
    var ix := Hits(s, f);
    assert i in ix;
    var k :| 0 <= k < |ix| && ix[k] == i;
    assert Collect(s, f)[k] == f(s[i]).value;
  }
}
