/**
 * The two loop shapes the parser and the calendar builder share, stated once
 * for any element type: a `map` over a sequence, and a loop that pushes at most
 * one item per element.
 */
module Seqs {

  import opened Wrappers

  /** `s.map(f)`. */
  function MapSeq<T, U>(f: T -> U, s: seq<T>): (r: seq<U>)
    ensures |r| == |s|
    ensures forall k :: 0 <= k < |s| ==> r[k] == f(s[k])
  {
    seq(|s|, k requires 0 <= k < |s| => f(s[k]))
  }

  lemma MapSeqAppend<T, U>(f: T -> U, s: seq<T>, t: seq<T>)
    ensures MapSeq(f, s + t) == MapSeq(f, s) + MapSeq(f, t)
  {
    var r := MapSeq(f, s + t);
    forall k | 0 <= k < |r| ensures r[k] == (MapSeq(f, s) + MapSeq(f, t))[k] {
      if k < |s| {
        assert (s + t)[k] == s[k];
      } else {
        assert (s + t)[k] == t[k - |s|];
      }
    }
  }

  /** What a loop over `xs` pushes when each element yields at most one item `f(x)`. */
  function Collect<A, T>(xs: seq<A>, f: A -> Option<T>): seq<T>
  {
    if xs == [] then []
    else
      var init := Collect(xs[..|xs| - 1], f);
      match f(xs[|xs| - 1])
      case Some(e) => init + [e]
      case None => init
  }

  /** One more pass of the loop appends the element's item, if it yields one. */
  lemma CollectStep<A, T>(xs: seq<A>, k: nat, f: A -> Option<T>, pushed: Option<T>)
    requires k < |xs| && pushed == f(xs[k])
    ensures Collect(xs[..k + 1], f) == Collect(xs[..k], f) + (if pushed.Some? then [pushed.value] else [])
  {
    assert xs[..k + 1][..k] == xs[..k];
  }

  /** The loop over `xs + ys` pushes what the loop over `xs` pushes, then what the loop over `ys` pushes. */
  lemma {:induction false} CollectAppend<A, T>(xs: seq<A>, ys: seq<A>, f: A -> Option<T>)
    ensures Collect(xs + ys, f) == Collect(xs, f) + Collect(ys, f)
    decreases |ys|
  {
    if ys == [] {
      assert xs + ys == xs;
    } else {
      var init := ys[..|ys| - 1];
      CollectAppend(xs, init, f);
      assert (xs + ys)[..|xs + ys| - 1] == xs + init;
      assert (xs + ys)[|xs + ys| - 1] == ys[|ys| - 1];
    }
  }

  /** At most one item per element, and exactly one each when every element yields one. */
  lemma {:induction false} CollectLength<A, T>(xs: seq<A>, f: A -> Option<T>)
    ensures |Collect(xs, f)| <= |xs|
    ensures (forall i :: 0 <= i < |xs| ==> f(xs[i]).Some?) ==> |Collect(xs, f)| == |xs|
  {
    if xs != [] {
      var init := xs[..|xs| - 1];
      CollectLength(init, f);
      if forall i :: 0 <= i < |xs| ==> f(xs[i]).Some? {
        assert forall i :: 0 <= i < |init| ==> f(init[i]).Some? by {
          forall i | 0 <= i < |init| ensures f(init[i]).Some? {
            assert init[i] == xs[i];
          }
        }
      }
    }
  }

  /** Every pushed item is the item of some element. */
  lemma {:induction false} CollectFrom<A, T>(xs: seq<A>, f: A -> Option<T>)
    ensures forall y :: y in Collect(xs, f) ==> exists x :: x in xs && f(x) == Some(y)
  {
    if xs != [] {
      var init, last := xs[..|xs| - 1], xs[|xs| - 1];
      CollectFrom(init, f);
      forall y | y in Collect(xs, f) ensures exists x :: x in xs && f(x) == Some(y) {
        if y in Collect(init, f) {
          var x :| x in init && f(x) == Some(y);
          assert x in xs;
        } else {
          assert f(last) == Some(y);
        }
      }
    }
  }

  /** Four elements of which the first three yield an item give those three items. */
  lemma CollectFour<A, T>(xs: seq<A>, f: A -> Option<T>, e0: T, e1: T, e2: T)
    requires |xs| == 4
    requires f(xs[0]) == Some(e0) && f(xs[1]) == Some(e1) && f(xs[2]) == Some(e2) && f(xs[3]) == None
    ensures Collect(xs, f) == [e0, e1, e2]
  {
    assert xs[..0] == [];
    CollectStep(xs, 0, f, Some(e0));
    CollectStep(xs, 1, f, Some(e1));
    CollectStep(xs, 2, f, Some(e2));
    CollectStep(xs, 3, f, None);
    assert xs[..4] == xs;
  }
}
