/** Nearest-centroid association (CentroidAssociationFn): each point is paired
    with the first candidate centroid at the least distance, the pairing is
    handed to a notification, and the distances are summed over a point set. */
module CentroidAssociation {
  import opened Items

  /** A distance as returned by the distance function: a finite double or
      positive infinity (the initial distance of a pairing). */
  datatype Dist = Fin(r: real) | Inf

  /** Java's `<` on such doubles. */
  predicate Less(a: Dist, b: Dist) {
    match a
    case Inf => false
    case Fin(x) => b.Inf? || x < b.r
  }

  /** Java's `+` on such doubles: infinity absorbs every finite value. */
  function Add(a: Dist, b: Dist): Dist {
    if a.Fin? && b.Fin? then Fin(a.r + b.r) else Inf
  }

  /** A CentroidPairing: the chosen centroid (none while nothing was chosen),
      the point and the distance between them. */
  datatype Pairing<T> = Pairing(centroid: Option<ItemWrapper<T>>, point: ItemWrapper<T>, distance: Dist)

  /** The distances from `point` to each target, in iteration order. */
  function Distances<T>(measure: (T, T) -> Dist, point: ItemWrapper<T>, targets: seq<ItemWrapper<T>>): (ds: seq<Dist>)
    ensures |ds| == |targets|
    ensures forall j :: 0 <= j < |targets| ==> ds[j] == measure(point.item, targets[j].item)
  {
    seq(|targets|, j requires 0 <= j < |targets| => measure(point.item, targets[j].item))
  }

  /** The least of `ds`, defined from the right; positive infinity when empty. */
  function MinDist(ds: seq<Dist>): Dist
  {
    if ds == [] then Inf
    else if Less(ds[0], MinDist(ds[1..])) then ds[0]
    else MinDist(ds[1..])
  }

  /** The index of the first occurrence of `d` in `ds`, or `|ds|` if none. */
  function FirstIndexOf(ds: seq<Dist>, d: Dist): (k: nat)
    ensures k <= |ds|
    ensures k < |ds| <==> d in ds
    ensures k < |ds| ==> ds[k] == d
    ensures forall j :: 0 <= j < k ==> ds[j] != d
  {
    if ds == [] then 0
    else if ds[0] == d then 0
    else 1 + FirstIndexOf(ds[1..], d)
  }

  /** MinDist is a lower bound of every element and, unless `ds` is empty,
      one of its elements. */
  lemma {:induction false} MinDistIsLeast(ds: seq<Dist>)
    ensures ds == [] ==> MinDist(ds) == Inf
    ensures ds != [] ==> MinDist(ds) in ds
    ensures forall j :: 0 <= j < |ds| ==> !Less(ds[j], MinDist(ds))
  {
    if ds != [] {
      MinDistIsLeast(ds[1..]);
      forall j | 1 <= j < |ds|
        ensures !Less(ds[j], MinDist(ds))
      {
        assert ds[j] == ds[1..][j - 1];
      }
    }
  }

  /** Appending one distance to the scanned prefix replaces the minimum only
      when the new distance is strictly smaller. */
  lemma {:induction false} MinDistSnoc(ds: seq<Dist>, x: Dist)
    ensures MinDist(ds + [x]) == if Less(x, MinDist(ds)) then x else MinDist(ds)
  {
    if ds != [] {
      assert (ds + [x])[1..] == ds[1..] + [x];
      MinDistSnoc(ds[1..], x);
    }
  }

  /** The first index of a value in a concatenation. */
  lemma {:induction false} FirstIndexOfAppend(ds: seq<Dist>, ys: seq<Dist>, d: Dist)
    ensures d in ds ==> FirstIndexOf(ds + ys, d) == FirstIndexOf(ds, d)
    ensures d !in ds ==> FirstIndexOf(ds + ys, d) == |ds| + FirstIndexOf(ys, d)
  {
    if ds == [] {
      assert ds + ys == ys;
    } else {
      assert (ds + ys)[1..] == ds[1..] + ys;
      FirstIndexOfAppend(ds[1..], ys, d);
    }
  }

  /** The pairing the association must report for `point`: the least distance
      to any target and the first target, in iteration order, at that
      distance; no centroid and infinity when no target is at a finite
      distance. */
  function Nearest<T>(measure: (T, T) -> Dist, point: ItemWrapper<T>, targets: seq<ItemWrapper<T>>): (p: Pairing<T>)
    ensures p.point == point
    ensures targets == [] ==> p.centroid == None && p.distance == Inf
  {
    var ds := Distances(measure, point, targets);
    var d := MinDist(ds);
    if d.Inf? then Pairing(None, point, Inf)
    else
      MinDistIsLeast(ds);
      Pairing(Some(targets[FirstIndexOf(ds, d)]), point, d)
  }

  /** With at least one target, the reported distance is the minimum of the
      measured distances: no target is strictly closer, and some target is
      exactly that far. */
  lemma NearestIsMinimum<T>(measure: (T, T) -> Dist, point: ItemWrapper<T>, targets: seq<ItemWrapper<T>>)
    requires targets != []
    ensures forall j :: 0 <= j < |targets| ==> !Less(measure(point.item, targets[j].item), Nearest(measure, point, targets).distance)
    ensures exists k :: 0 <= k < |targets| && measure(point.item, targets[k].item) == Nearest(measure, point, targets).distance
  {
    var ds := Distances(measure, point, targets);
    MinDistIsLeast(ds);
    var k :| 0 <= k < |ds| && ds[k] == MinDist(ds);
    assert measure(point.item, targets[k].item) == Nearest(measure, point, targets).distance;
  }

  /** Tie-break: the chosen centroid is the first target at the minimum
      distance; every earlier target is strictly farther. */
  lemma NearestIsFirstMinimum<T>(measure: (T, T) -> Dist, point: ItemWrapper<T>, targets: seq<ItemWrapper<T>>)
    requires Nearest(measure, point, targets).centroid.Some?
    ensures exists k :: (0 <= k < |targets|
      && targets[k] == Nearest(measure, point, targets).centroid.value
      && measure(point.item, targets[k].item) == Nearest(measure, point, targets).distance
      && forall j :: 0 <= j < k ==> Less(Nearest(measure, point, targets).distance, measure(point.item, targets[j].item)))
  {
    var ds := Distances(measure, point, targets);
    var d := MinDist(ds);
    MinDistIsLeast(ds);
    var k := FirstIndexOf(ds, d);
    assert targets[k] == Nearest(measure, point, targets).centroid.value;
    forall j | 0 <= j < k
      ensures Less(d, ds[j])
    {
      assert ds[j] != d && !Less(ds[j], d);
    }
  }

  /** No target at infinity is ever chosen: the pairing has no centroid
      exactly when every target measures infinity (vacuously when there are
      none), and a chosen centroid is at a finite distance. */
  lemma NearestNoneIffAllInfinite<T>(measure: (T, T) -> Dist, point: ItemWrapper<T>, targets: seq<ItemWrapper<T>>)
    ensures Nearest(measure, point, targets).centroid.None?
        <==> forall j :: 0 <= j < |targets| ==> measure(point.item, targets[j].item) == Inf
    ensures Nearest(measure, point, targets).centroid.Some? ==>
        Nearest(measure, point, targets).distance.Fin?
        && measure(point.item, Nearest(measure, point, targets).centroid.value.item).Fin?
  {
    var ds := Distances(measure, point, targets);
    MinDistIsLeast(ds);
    if MinDist(ds).Fin? {
      var k := FirstIndexOf(ds, MinDist(ds));
      assert ds[k].Fin?;
    }
  }

  /** One step of the scan: the pairing for a prefix extended by one target
      is replaced only when that target is strictly closer. */
  lemma NearestSnoc<T>(measure: (T, T) -> Dist, point: ItemWrapper<T>, targets: seq<ItemWrapper<T>>, y: ItemWrapper<T>)
    ensures Nearest(measure, point, targets + [y]) ==
      var q := Nearest(measure, point, targets);
      var d := measure(point.item, y.item);
      if Less(d, q.distance) then q.(distance := d, centroid := Some(y)) else q
  {
    var ds := Distances(measure, point, targets);
    var d := measure(point.item, y.item);
    assert Distances(measure, point, targets + [y]) == ds + [d];
    MinDistSnoc(ds, d);
    MinDistIsLeast(ds);
    FirstIndexOfAppend(ds, [d], MinDist(ds));
    FirstIndexOfAppend(ds, [d], d);
    if Less(d, MinDist(ds)) {
      assert d !in ds by {
        forall j | 0 <= j < |ds| ensures ds[j] != d {
          assert !Less(ds[j], MinDist(ds));
        }
      }
    }
  }

  /** The total cost of a point set: the sum, in point order, of the
      distances each point is reported at. */
  function TotalCost<T>(measure: (T, T) -> Dist, points: seq<ItemWrapper<T>>, targets: seq<ItemWrapper<T>>): Dist
  {
    if points == [] then Fin(0.0)
    else Add(Nearest(measure, points[0], targets).distance, TotalCost(measure, points[1..], targets))
  }

  /** The pairings notified for a point set, one per point, in point order. */
  function Associations<T>(measure: (T, T) -> Dist, points: seq<ItemWrapper<T>>, targets: seq<ItemWrapper<T>>): (ps: seq<Pairing<T>>)
    ensures |ps| == |points|
    ensures forall i :: 0 <= i < |points| ==> ps[i] == Nearest(measure, points[i], targets)
  {
    seq(|points|, i requires 0 <= i < |points| => Nearest(measure, points[i], targets))
  }

  /** The cost of a concatenation of point sets is the sum of their costs. */
  lemma {:induction false} TotalCostAppend<T>(measure: (T, T) -> Dist, ps: seq<ItemWrapper<T>>, qs: seq<ItemWrapper<T>>, targets: seq<ItemWrapper<T>>)
    ensures TotalCost(measure, ps + qs, targets) == Add(TotalCost(measure, ps, targets), TotalCost(measure, qs, targets))
  {
    if ps == [] {
      assert ps + qs == qs;
    } else {
      assert (ps + qs)[1..] == ps[1..] + qs;
      TotalCostAppend(measure, ps[1..], qs, targets);
    }
  }

  /** Taking one point out of a point set takes exactly its own distance out
      of the total. */
  lemma TotalCostRemoveAt<T>(measure: (T, T) -> Dist, qs: seq<ItemWrapper<T>>, k: nat, targets: seq<ItemWrapper<T>>)
    requires k < |qs|
    ensures TotalCost(measure, qs, targets)
      == Add(Nearest(measure, qs[k], targets).distance, TotalCost(measure, qs[..k] + qs[k + 1..], targets))
  {
    var x := qs[k];
    assert qs == (qs[..k] + [x]) + qs[k + 1..];
    TotalCostAppend(measure, qs[..k] + [x], qs[k + 1..], targets);
    TotalCostAppend(measure, qs[..k], [x], targets);
    TotalCostAppend(measure, qs[..k], qs[k + 1..], targets);
    assert TotalCost(measure, [x], targets) == Add(Nearest(measure, x, targets).distance, Fin(0.0));
  }

  /** The cost does not depend on the order of the points: any permutation
      of a point set has the same total. */
  lemma {:induction false} TotalCostPermutation<T>(measure: (T, T) -> Dist, ps: seq<ItemWrapper<T>>, qs: seq<ItemWrapper<T>>, targets: seq<ItemWrapper<T>>)
    requires multiset(ps) == multiset(qs)
    ensures TotalCost(measure, ps, targets) == TotalCost(measure, qs, targets)
    decreases |ps|
  {
    if ps != [] {
      var x := ps[0];
      assert x in multiset(qs);
      var k :| 0 <= k < |qs| && qs[k] == x;
      var rest := qs[..k] + qs[k + 1..];
      assert ps == [x] + ps[1..];
      assert multiset(ps[1..]) == multiset(ps) - multiset{x};
      assert qs == qs[..k] + [x] + qs[k + 1..];
      assert multiset(rest) == multiset(qs) - multiset{x};
      TotalCostPermutation(measure, ps[1..], rest, targets);
      TotalCostRemoveAt(measure, qs, k, targets);
    }
  }

  /** CentroidAssociationFn: associates points with their nearest centroid
      under the distance function it holds. */
  class CentroidAssociationFn<T> {
    var distanceFunction: (T, T) -> Dist

    constructor (distanceFunction: (T, T) -> Dist)
      ensures this.distanceFunction == distanceFunction
    {
      this.distanceFunction := distanceFunction;
    }

    method SetDistanceFunction(distanceFunction: (T, T) -> Dist)
      modifies this
      ensures this.distanceFunction == distanceFunction
    {
      this.distanceFunction := distanceFunction;
    }

    /** Scans the targets once, keeping the first strictly closer candidate,
        notifies the final pairing once and returns its distance. */
    method Compute(point: ItemWrapper<T>, targetSet: seq<ItemWrapper<T>>) returns (distance: Dist, notified: seq<Pairing<T>>)
      ensures notified == [Nearest(distanceFunction, point, targetSet)]
      ensures distance == notified[0].distance
    {
      var pairing: Pairing<T> := Pairing(None, point, Inf);
      for i := 0 to |targetSet|
        invariant pairing == Nearest(distanceFunction, point, targetSet[..i])
      {
        var y := targetSet[i];
        var d := distanceFunction(point.item, y.item);
        NearestSnoc(distanceFunction, point, targetSet[..i], y);
        assert targetSet[..i + 1] == targetSet[..i] + [y];
        if Less(d, pairing.distance) {
          pairing := pairing.(distance := d);
          pairing := pairing.(centroid := Some(y));
        }
      }
      assert targetSet[..|targetSet|] == targetSet;
      notified := [pairing];
      distance := pairing.distance;
    }

    /** Associates every point of `pointSet`, in order, with the same targets
        and returns the sum of the distances. */
    method ComputeSet(pointSet: seq<ItemWrapper<T>>, targetSet: seq<ItemWrapper<T>>) returns (sum: Dist, notified: seq<Pairing<T>>)
      ensures notified == Associations(distanceFunction, pointSet, targetSet)
      ensures sum == TotalCost(distanceFunction, pointSet, targetSet)
      ensures pointSet == [] ==> sum == Fin(0.0) && notified == []
    {
      sum := Fin(0.0);
      notified := [];
      for i := 0 to |pointSet|
        invariant notified == Associations(distanceFunction, pointSet[..i], targetSet)
        invariant sum == TotalCost(distanceFunction, pointSet[..i], targetSet)
      {
        var d, n := Compute(pointSet[i], targetSet);
        assert pointSet[..i + 1] == pointSet[..i] + [pointSet[i]];
        TotalCostAppend(distanceFunction, pointSet[..i], [pointSet[i]], targetSet);
        sum := Add(sum, d);
        notified := notified + n;
      }
      assert pointSet[..|pointSet|] == pointSet;
    }
  }
}
