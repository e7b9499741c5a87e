/** The loop shape the XSD translation uses everywhere: apply a translation that may
    panic to each item in order, pushing the results; the first panic stops the loop. */
module Collect {
  import opened Wrappers

  /** The loop from position `i` on, with `acc` pushed so far. */
  function CollectFrom<A, B>(xs: seq<A>, f: A -> Fallible<B>, i: nat, acc: seq<B>): Fallible<seq<B>>
    requires i <= |xs|
    decreases |xs| - i
  {
    if i == |xs| then Built(acc)
    else
      match f(xs[i])
      case Panic(m) => Panic(m)
      case Built(y) => CollectFrom(xs, f, i + 1, acc + [y])
  }

  function CollectAll<A, B>(xs: seq<A>, f: A -> Fallible<B>): Fallible<seq<B>> {
    CollectFrom(xs, f, 0, [])
  }

  /** The loop succeeds exactly when every item translates, and then pushes every
      translation in order after `acc`; a panic is the first item's that panics. */
  lemma {:induction false} CollectFromSpec<A, B>(xs: seq<A>, f: A -> Fallible<B>, i: nat, acc: seq<B>)
    requires i <= |xs|
    ensures CollectFrom(xs, f, i, acc).Built? <==> forall k :: i <= k < |xs| ==> f(xs[k]).Built?
    ensures CollectFrom(xs, f, i, acc).Built? ==>
      var r := CollectFrom(xs, f, i, acc).value;
      |r| == |acc| + |xs| - i && r[..|acc|] == acc &&
      forall k :: i <= k < |xs| ==> r[|acc| + k - i] == f(xs[k]).value
    ensures CollectFrom(xs, f, i, acc).Panic? ==>
      exists k :: i <= k < |xs| && f(xs[k]) == Panic(CollectFrom(xs, f, i, acc).message) &&
        forall j :: i <= j < k ==> f(xs[j]).Built?
    decreases |xs| - i
  {
    if i < |xs| {
      match f(xs[i])
      case Panic(m) =>
      case Built(y) =>
        CollectFromSpec(xs, f, i + 1, acc + [y]);
        var next := acc + [y];
        if CollectFrom(xs, f, i, acc).Built? {
          var r := CollectFrom(xs, f, i, acc).value;
          assert r[..|next|] == next;
          assert r[..|acc|] == next[..|acc|];
        }
    }
  }

  /** `CollectAll` succeeds exactly when every item translates, and then holds the
      translations in order; its panic is the first item's. */
  lemma CollectAllSpec<A, B>(xs: seq<A>, f: A -> Fallible<B>)
    ensures CollectAll(xs, f).Built? <==> forall k :: 0 <= k < |xs| ==> f(xs[k]).Built?
    ensures CollectAll(xs, f).Built? ==>
      |CollectAll(xs, f).value| == |xs| && forall k :: 0 <= k < |xs| ==> CollectAll(xs, f).value[k] == f(xs[k]).value
    ensures CollectAll(xs, f).Panic? ==>
      exists k :: 0 <= k < |xs| && f(xs[k]) == Panic(CollectAll(xs, f).message) &&
        forall j :: 0 <= j < k ==> f(xs[j]).Built?
  {
    CollectFromSpec(xs, f, 0, []);
  }

  /** A translation that yields a value, as one that yields a present value. */
  function MapSome<T>(r: Fallible<T>): Fallible<Option<T>> {
    match r
    case Panic(m) => Panic(m)
    case Built(v) => Built(Some(v))
  }

  /** The items of `xs` that `keep` holds for, in order. */
  function Filter<A>(xs: seq<A>, keep: A -> bool): seq<A> {
    if xs == [] then [] else (if keep(xs[0]) then [xs[0]] else []) + Filter(xs[1..], keep)
  }

  /** The present values of `ys`, in order. */
  function Somes<T>(ys: seq<Option<T>>): seq<T> {
    if ys == [] then [] else (if ys[0].Some? then [ys[0].value] else []) + Somes(ys[1..])
  }

  /** The loop of `fetch_types` and `fetch_elements` over one schema: translate each item,
      pushing the present results. */
  function CollectSomeFrom<A, B>(xs: seq<A>, f: A -> Fallible<Option<B>>, i: nat, acc: seq<B>): Fallible<seq<B>>
    requires i <= |xs|
    decreases |xs| - i
  {
    if i == |xs| then Built(acc)
    else
      match f(xs[i])
      case Panic(m) => Panic(m)
      case Built(y) => CollectSomeFrom(xs, f, i + 1, if y.Some? then acc + [y.value] else acc)
  }

  /** Pushing only present results is collecting all results and keeping the present ones. */
  lemma {:induction false} CollectSomeFromSpec<A, B>(xs: seq<A>, f: A -> Fallible<Option<B>>, i: nat, acc: seq<B>)
    requires i <= |xs|
    ensures CollectSomeFrom(xs, f, i, acc) ==
      match CollectAll(xs[i..], f)
      case Panic(m) => Panic(m)
      case Built(ys) => Built(acc + Somes(ys))
    decreases |xs| - i
  {
    var rest := xs[i..];
    if i == |xs| {
      assert rest == [];
      assert acc + [] == acc;
    } else {
      assert rest[0] == xs[i];
      assert rest[1..] == xs[i + 1..];
      CollectSomeFromSpec(xs, f, i + 1, if f(xs[i]).Built? && f(xs[i]).value.Some? then acc + [f(xs[i]).value.value] else acc);
      match f(xs[i])
      case Panic(m) =>
      case Built(y) =>
        CollectFromShift(rest, f, [y]);
        match CollectAll(xs[i + 1..], f)
        case Panic(m) =>
        case Built(ys) =>
          assert Somes([y] + ys) == (if y.Some? then [y.value] else []) + Somes(ys) by {
            assert ([y] + ys)[0] == y;
            assert ([y] + ys)[1..] == ys;
          }
          if y.Some? {
            assert acc + [y.value] + Somes(ys) == acc + ([y.value] + Somes(ys));
          } else {
            assert [] + Somes(ys) == Somes(ys);
          }
    }
  }

  /** Collecting after a first item that translated to `y` is collecting the rest with `y`
      pushed first. */
  lemma CollectFromShift<A, B>(xs: seq<A>, f: A -> Fallible<B>, first: seq<B>)
    requires xs != [] && f(xs[0]).Built? && first == [f(xs[0]).value]
    ensures CollectAll(xs, f) ==
      match CollectAll(xs[1..], f)
      case Panic(m) => Panic(m)
      case Built(ys) => Built(first + ys)
  {
    assert [] + first == first + [];
    CollectFromOffset(xs, f, 1, first, []);
  }

  /** Collecting `xs` from `i` with `pre + acc` pushed is collecting `xs[i..]` with `acc`
      pushed, then putting `pre` in front. */
  lemma {:induction false} CollectFromOffset<A, B>(xs: seq<A>, f: A -> Fallible<B>, i: nat, pre: seq<B>, acc: seq<B>)
    requires i <= |xs|
    ensures CollectFrom(xs, f, i, pre + acc) ==
      match CollectFrom(xs[i..], f, 0, acc)
      case Panic(m) => Panic(m)
      case Built(ys) => Built(pre + ys)
    decreases |xs| - i
  {
    var rest := xs[i..];
    if i < |xs| {
      assert rest[0] == xs[i];
      match f(xs[i])
      case Panic(m) =>
      case Built(y) =>
        assert pre + acc + [y] == pre + (acc + [y]);
        CollectFromOffset(xs, f, i + 1, pre, acc + [y]);
        CollectFromDrop(rest, f, 1, acc + [y]);
        assert rest[1..] == xs[i + 1..];
    }
  }

  /** Starting the loop at `i` is the loop over `xs[i..]` from the start. */
  lemma {:induction false} CollectFromDrop<A, B>(xs: seq<A>, f: A -> Fallible<B>, i: nat, acc: seq<B>)
    requires i <= |xs|
    ensures CollectFrom(xs, f, i, acc) == CollectFrom(xs[i..], f, 0, acc)
    decreases |xs| - i
  {
    CollectFromDropAt(xs, f, i, 0, acc);
  }

  lemma {:induction false} CollectFromDropAt<A, B>(xs: seq<A>, f: A -> Fallible<B>, i: nat, j: nat, acc: seq<B>)
    requires i + j <= |xs|
    ensures CollectFrom(xs, f, i + j, acc) == CollectFrom(xs[i..], f, j, acc)
    decreases |xs| - i - j
  {
    if i + j < |xs| {
      assert xs[i..][j] == xs[i + j];
      match f(xs[i + j])
      case Panic(m) =>
      case Built(y) => CollectFromDropAt(xs, f, i, j + 1, acc + [y]);
    }
  }

  /** Collecting over `a + b` is collecting over `a`, then over `b`. */
  lemma {:induction false} CollectAllAppend<A, B>(a: seq<A>, b: seq<A>, f: A -> Fallible<B>)
    ensures CollectAll(a + b, f) ==
      match CollectAll(a, f)
      case Panic(m) => Panic(m)
      case Built(ya) =>
        match CollectAll(b, f)
        case Panic(m) => Panic(m)
        case Built(yb) => Built(ya + yb)
    decreases |a|
  {
    if a == [] {
      assert a + b == b;
      assert CollectAll(a, f) == Built([]);
      if CollectAll(b, f).Built? {
        assert [] + CollectAll(b, f).value == CollectAll(b, f).value;
      }
    } else {
      assert (a + b)[0] == a[0];
      assert (a + b)[1..] == a[1..] + b;
      match f(a[0])
      case Panic(m) =>
      case Built(y) =>
        CollectFromShift(a + b, f, [y]);
        CollectFromShift(a, f, [y]);
        CollectAllAppend(a[1..], b, f);
        if CollectAll(a[1..], f).Built? && CollectAll(b, f).Built? {
          var ya := CollectAll(a[1..], f).value;
          var yb := CollectAll(b, f).value;
          assert [y] + (ya + yb) == [y] + ya + yb;
        }
    }
  }

  lemma {:induction false} SomesAppend<T>(a: seq<Option<T>>, b: seq<Option<T>>)
    ensures Somes(a + b) == Somes(a) + Somes(b)
    decreases |a|
  {
    if a == [] {
      assert a + b == b;
    } else {
      assert (a + b)[0] == a[0];
      assert (a + b)[1..] == a[1..] + b;
      SomesAppend(a[1..], b);
    }
  }

  /** When a translation yields a present value exactly for the items `keep` holds for,
      and that value is `g`'s, the present values collected are `g`'s translations of the
      kept items, in order. */
  lemma {:induction false} SomesOfFilter<A, B>(xs: seq<A>, f: A -> Fallible<Option<B>>, keep: A -> bool, g: A -> Fallible<B>)
    requires forall x :: keep(x) ==> f(x) == MapSome(g(x))
    requires forall x :: !keep(x) && f(x).Built? ==> f(x).value.None?
    requires CollectAll(xs, f).Built?
    ensures |Somes(CollectAll(xs, f).value)| == |Filter(xs, keep)|
    ensures forall k :: 0 <= k < |Filter(xs, keep)| ==> g(Filter(xs, keep)[k]) == Built(Somes(CollectAll(xs, f).value)[k])
    decreases |xs|
  {
    if xs != [] {
      var x := xs[0];
      CollectAllSpec(xs, f);
      assert f(x).Built?;
      var y := f(x).value;
      CollectFromShift(xs, f, [y]);
      SomesOfFilter(xs[1..], f, keep, g);
      var ys := CollectAll(xs[1..], f).value;
      assert CollectAll(xs, f).value == [y] + ys;
      assert Somes([y] + ys) == (if y.Some? then [y.value] else []) + Somes(ys) by {
        assert ([y] + ys)[0] == y;
        assert ([y] + ys)[1..] == ys;
      }
      if keep(x) {
        assert g(x) == Built(y.value);
      }
    }
  }
}
