/** Sequence helpers shared by several source files: flattening, sums and the
  * first-occurrence de-duplication that every model list of the system uses. */
module Lists {
  import opened Wrappers

  function Flatten<T>(xss: seq<seq<T>>): seq<T>
  {
    if |xss| == 0 then [] else xss[0] + Flatten(xss[1..])
  }

  lemma {:induction false} FlattenAppend<T>(a: seq<seq<T>>, b: seq<seq<T>>)
    ensures Flatten(a + b) == Flatten(a) + Flatten(b)
  {
    if |a| > 0 {
      assert (a + b)[1..] == a[1..] + b;
      FlattenAppend(a[1..], b);
    } else {
      assert a + b == b;
    }
  }

  lemma FlattenSnoc<T>(a: seq<seq<T>>, xs: seq<T>)
    ensures Flatten(a + [xs]) == Flatten(a) + xs
  {
    FlattenAppend(a, [xs]);
    assert Flatten([xs]) == xs + Flatten([xs][1..]);
  }

  /** Total number of elements in a sequence of sequences. */
  function TotalLength<T>(xss: seq<seq<T>>): nat
  {
    if |xss| == 0 then 0 else |xss[0]| + TotalLength(xss[1..])
  }

  lemma {:induction false} FlattenLength<T>(xss: seq<seq<T>>)
    ensures |Flatten(xss)| == TotalLength(xss)
  {
    if |xss| > 0 {
      FlattenLength(xss[1..]);
    }
  }

  /** Sum of a sequence of reals, accumulated from the front as a loop does. */
  function Sum(xs: seq<real>): real
  {
    if |xs| == 0 then 0.0 else Sum(xs[..|xs| - 1]) + xs[|xs| - 1]
  }

  /** The list built by `acc.includes(m) ? acc : [...acc, m]` (or `if m not in acc: acc.append(m)`)
    * over `xs` from an empty accumulator. */
  function Dedup<T(==)>(xs: seq<T>): seq<T>
  {
    if |xs| == 0 then []
    else
      var d := Dedup(xs[..|xs| - 1]);
      if xs[|xs| - 1] in d then d else d + [xs[|xs| - 1]]
  }

  function FirstIndex<T(==)>(xs: seq<T>, x: T): (k: nat)
    requires x in xs
    ensures k < |xs| && xs[k] == x && x !in xs[..k]
  {
    if xs[0] == x then 0 else 1 + FirstIndex(xs[1..], x)
  }

  predicate NoDuplicates<T(==)>(xs: seq<T>)
  {
    forall i, j :: 0 <= i < j < |xs| ==> xs[i] != xs[j]
  }

  /** The de-duplicated list holds every element of the input, nothing else, each once. */
  lemma {:induction false} DedupElements<T>(xs: seq<T>)
    ensures forall x :: x in Dedup(xs) <==> x in xs
    ensures NoDuplicates(Dedup(xs))
  {
    if |xs| > 0 {
      var init := xs[..|xs| - 1];
      DedupElements(init);
      assert xs == init + [xs[|xs| - 1]];
    }
  }

  lemma {:induction false} FirstIndexInPrefix<T>(xs: seq<T>, n: nat, x: T)
    requires n <= |xs| && x in xs[..n]
    ensures FirstIndex(xs, x) == FirstIndex(xs[..n], x)
  {
    var k := FirstIndex(xs[..n], x);
    assert xs[..n][..k] == xs[..k];
  }

  /** Elements appear in the order of their first occurrence in the input. */
  lemma {:induction false} DedupFirstOccurrenceOrder<T>(xs: seq<T>)
    ensures forall x :: x in Dedup(xs) ==> x in xs
    ensures forall i, j :: 0 <= i < j < |Dedup(xs)| ==>
      FirstIndex(xs, Dedup(xs)[i]) < FirstIndex(xs, Dedup(xs)[j])
  {
    DedupElements(xs);
    if |xs| > 0 {
      var n := |xs| - 1;
      var init := xs[..n];
      var d := Dedup(init);
      DedupFirstOccurrenceOrder(init);
      DedupElements(init);
      forall y | y in d
        ensures y in init && FirstIndex(xs, y) == FirstIndex(init, y) < n
      {
        assert y in init;
        FirstIndexInPrefix(xs, n, y);
      }
      if xs[n] in d {
        assert Dedup(xs) == d;
        forall i, j | 0 <= i < j < |d|
          ensures FirstIndex(xs, d[i]) < FirstIndex(xs, d[j])
        {
          assert FirstIndex(init, d[i]) < FirstIndex(init, d[j]);
        }
      } else {
        var d' := d + [xs[n]];
        assert Dedup(xs) == d';
        assert xs[n] !in init;
        assert FirstIndex(xs, xs[n]) == n;
        forall i, j | 0 <= i < j < |d'|
          ensures FirstIndex(xs, d'[i]) < FirstIndex(xs, d'[j])
        {
          assert d'[i] == d[i];
          if j < |d| {
            assert d'[j] == d[j];
            assert FirstIndex(init, d[i]) < FirstIndex(init, d[j]);
          }
        }
      }
    }
  }

  /** `xs.filter((x, idx) => keep(x, idx))`: the kept elements, in their original order. */
  function FilterIndexed<T>(xs: seq<T>, keep: (T, nat) -> bool): (r: seq<T>)
    ensures |r| <= |xs|
    ensures forall x :: x in r ==> x in xs
  {
    if |xs| == 0 then []
    else
      var n := |xs| - 1;
      FilterIndexed(xs[..n], keep) + (if keep(xs[n], n) then [xs[n]] else [])
  }

  /** `xs.map(f)` where any call may throw (None): the results in order, or None. */
  function MapAll<A, B>(f: A -> Option<B>, xs: seq<A>): (r: Option<seq<B>>)
    ensures r.Some? <==> forall i :: 0 <= i < |xs| ==> f(xs[i]).Some?
    ensures r.Some? ==> |r.value| == |xs|
    ensures r.Some? ==> forall i :: 0 <= i < |xs| ==> r.value[i] == f(xs[i]).value
  {
    if |xs| == 0 then Some([])
    else
      var n := |xs| - 1;
      var init := MapAll(f, xs[..n]);
      var last := f(xs[n]);
      if init.Some? && last.Some? then Some(init.value + [last.value]) else None
  }
}
