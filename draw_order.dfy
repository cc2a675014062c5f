/** The order in which arcs are painted, and d3's `selection.raise()`
    applied to part of it (main.js:267-269 and main.js:521-525): each
    picked arc is moved, in its current order, behind all the others, so
    that it is painted on top. Arcs are named by their positions. */
module DrawOrder {

  /** The painting order of a fresh draw: arc i is the i-th path. */
  function Fresh(n: nat): (r: seq<nat>)
    ensures |r| == n && forall i :: 0 <= i < n ==> r[i] == i
  {
    seq(n, i requires 0 <= i < n => i)
  }

  /** The elements of `order` whose membership in `pick` is `b`, in order. */
  function Select(order: seq<nat>, pick: set<nat>, b: bool): (r: seq<nat>)
    ensures |r| <= |order|
    ensures forall x :: x in r <==> x in order && (x in pick) == b
  {
    if order == [] then []
    else (if (order[0] in pick) == b then [order[0]] else []) + Select(order[1..], pick, b)
  }

  /** raise() on the picked arcs: the others keep their order, and the
      picked ones follow them, in the order they had. */
  function Raise(order: seq<nat>, pick: set<nat>): seq<nat>
  {
    Select(order, pick, false) + Select(order, pick, true)
  }

  lemma {:induction false} SelectAppend(a: seq<nat>, b: seq<nat>, pick: set<nat>, c: bool)
    ensures Select(a + b, pick, c) == Select(a, pick, c) + Select(b, pick, c)
  {
    if a == [] {
      assert a + b == b;
    } else {
      assert (a + b)[0] == a[0];
      assert (a + b)[1..] == a[1..] + b;
      SelectAppend(a[1..], b, pick, c);
    }
  }

  /** Selecting what a selection kept keeps it all; selecting the other
      side keeps nothing. */
  lemma {:induction false} SelectSelect(order: seq<nat>, pick: set<nat>, b: bool)
    ensures Select(Select(order, pick, b), pick, b) == Select(order, pick, b)
    ensures Select(Select(order, pick, b), pick, !b) == []
  {
    if order != [] {
      SelectSelect(order[1..], pick, b);
      var head: seq<nat> := if (order[0] in pick) == b then [order[0]] else [];
      SelectAppend(head, Select(order[1..], pick, b), pick, b);
      SelectAppend(head, Select(order[1..], pick, b), pick, !b);
    }
  }

  /** The two selections together hold every element as often as before. */
  lemma {:induction false} SelectSplits(order: seq<nat>, pick: set<nat>)
    ensures multiset(Select(order, pick, false)) + multiset(Select(order, pick, true)) == multiset(order)
  {
    if order != [] {
      var x, rest := order[0], order[1..];
      SelectSplits(rest, pick);
      assert order == [x] + rest;
      assert Select(order, pick, x in pick) == [x] + Select(rest, pick, x in pick);
      assert Select(order, pick, x !in pick) == Select(rest, pick, x !in pick);
    }
  }

  /** raise() only reorders: the arcs painted are the same, each once as
      before. */
  lemma RaisePermutes(order: seq<nat>, pick: set<nat>)
    ensures multiset(Raise(order, pick)) == multiset(order)
  {
    SelectSplits(order, pick);
  }

  /** Each of the n arcs is painted exactly once: `order` has n entries
      and names every arc, so it names nothing else and none twice. */
  ghost predicate PaintsEach(order: seq<nat>, n: nat)
  {
    |order| == n && forall i :: 0 <= i < n ==> i in order
  }

  /** A fresh draw paints each arc once. */
  lemma FreshPaintsEach(n: nat)
    ensures PaintsEach(Fresh(n), n)
  {
    var r := Fresh(n);
    forall i | 0 <= i < n ensures i in r {
      assert r[i] == i;
    }
  }

  /** raise() keeps each arc painted once. */
  lemma RaisePaintsEach(order: seq<nat>, pick: set<nat>, n: nat)
    ensures PaintsEach(order, n) ==> PaintsEach(Raise(order, pick), n)
  {
    RaisePermutes(order, pick);
    assert |multiset(Raise(order, pick))| == |multiset(order)|;
  }

  /** Every picked arc is painted after every other one. */
  ghost predicate PickedLast(order: seq<nat>, pick: set<nat>)
  {
    forall i, j :: 0 <= i < j < |order| && order[i] in pick ==> order[j] in pick
  }

  /** After raise(), every picked arc is painted after every other one. */
  lemma {:induction false} RaisePutsPickedLast(order: seq<nat>, pick: set<nat>)
    ensures PickedLast(Raise(order, pick), pick)
  {
    var a, b := Select(order, pick, false), Select(order, pick, true);
    var r := Raise(order, pick);
    assert forall k :: 0 <= k < |a| ==> r[k] == a[k] && a[k] !in pick;
    forall i, j | 0 <= i < j < |r| && r[i] in pick ensures r[j] in pick {
      assert r[j] == b[j - |a|];
      assert r[j] in b;
    }
  }

  /** raise() keeps the relative order of the picked arcs, and of the
      others. */
  lemma RaiseKeepsRelativeOrder(order: seq<nat>, pick: set<nat>, b: bool)
    ensures Select(Raise(order, pick), pick, b) == Select(order, pick, b)
  {
    var lo, hi := Select(order, pick, false), Select(order, pick, true);
    SelectAppend(lo, hi, pick, b);
    SelectSelect(order, pick, false);
    SelectSelect(order, pick, true);
  }

  /** Raising the same arcs twice is raising them once. */
  lemma RaiseIdempotent(order: seq<nat>, pick: set<nat>)
    ensures Raise(Raise(order, pick), pick) == Raise(order, pick)
  {
    RaiseKeepsRelativeOrder(order, pick, false);
    RaiseKeepsRelativeOrder(order, pick, true);
  }
}
