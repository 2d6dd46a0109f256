/** Generic list operations of the editor: `findIndex` by id, `find`,
    `filter`, conditional `map`, and the sibling move `moveItemInArray`
    that exchanges two positions of a backing array chosen through a
    filtered view of it. */
module Collections {
  import opened Text

  datatype Direction = Up | Down

  /** `xs.findIndex(x => x.id === id)`: the first position holding the id, or -1. */
  function IndexOf<T>(xs: seq<T>, id: string, idOf: T -> string): (r: int)
    ensures -1 <= r < |xs|
    ensures r == -1 <==> forall i :: 0 <= i < |xs| ==> idOf(xs[i]) != id
    ensures r >= 0 ==> idOf(xs[r]) == id && forall j :: 0 <= j < r ==> idOf(xs[j]) != id
  {
    if xs == [] then -1
    else if idOf(xs[0]) == id then 0
    else
      var k := IndexOf(xs[1..], id, idOf);
      if k == -1 then -1 else k + 1
  }

  /** Lists that carry the same ids position by position find an id at the same place. */
  lemma IndexOfSameIds<T>(xs: seq<T>, ys: seq<T>, id: string, idOf: T -> string)
    requires |xs| == |ys| && forall i :: 0 <= i < |xs| ==> idOf(xs[i]) == idOf(ys[i])
    ensures IndexOf(xs, id, idOf) == IndexOf(ys, id, idOf)
  {
    var a, b := IndexOf(xs, id, idOf), IndexOf(ys, id, idOf);
    if a != -1 && b != -1 {
      assert !(a < b) && !(b < a);
    }
  }

  /** `xs.findIndex(p)`: the first position satisfying p, or -1. */
  function FirstIndex<T>(xs: seq<T>, p: T -> bool): (r: int)
    ensures -1 <= r < |xs|
    ensures r == -1 <==> forall i :: 0 <= i < |xs| ==> !p(xs[i])
    ensures r >= 0 ==> p(xs[r]) && forall j :: 0 <= j < r ==> !p(xs[j])
  {
    if xs == [] then -1
    else if p(xs[0]) then 0
    else
      var k := FirstIndex(xs[1..], p);
      if k == -1 then -1 else k + 1
  }

  /** `xs.find(p)`: the first element satisfying p, if any. */
  function Find<T>(xs: seq<T>, p: T -> bool): (r: Option<T>)
    ensures r.None? <==> forall i :: 0 <= i < |xs| ==> !p(xs[i])
    ensures r.Some? ==> exists k :: 0 <= k < |xs| && xs[k] == r.value && p(xs[k]) && FirstIndex(xs, p) == k
  {
    var k := FirstIndex(xs, p);
    if k == -1 then None else Some(xs[k])
  }

  /** Two tests that agree on every element pick the same first index. */
  lemma FirstIndexSameTest<T>(xs: seq<T>, p: T -> bool, q: T -> bool)
    requires forall i :: 0 <= i < |xs| ==> p(xs[i]) == q(xs[i])
    ensures FirstIndex(xs, p) == FirstIndex(xs, q)
  {
  }

  /** The number of elements satisfying p. */
  function CountWhere<T>(xs: seq<T>, p: T -> bool): (n: nat)
    ensures n <= |xs|
  {
    if xs == [] then 0 else (if p(xs[0]) then 1 else 0) + CountWhere(xs[1..], p)
  }

  /** No element satisfies p exactly when the count is zero. */
  lemma {:induction false} CountWhereNone<T>(xs: seq<T>, p: T -> bool)
    ensures CountWhere(xs, p) == 0 <==> forall i :: 0 <= i < |xs| ==> !p(xs[i])
  {
    if xs != [] {
      CountWhereNone(xs[1..], p);
      assert forall i :: 1 <= i < |xs| ==> xs[i] == xs[1..][i - 1];
    }
  }

  /** `xs.filter(p)`: the elements satisfying p, in their original order. */
  function Filter<T>(xs: seq<T>, p: T -> bool): (r: seq<T>)
    ensures |r| == CountWhere(xs, p)
    ensures forall i :: 0 <= i < |r| ==> r[i] in xs && p(r[i])
    ensures forall i :: 0 <= i < |xs| && p(xs[i]) ==> xs[i] in r
  {
    if xs == [] then []
    else
      var rest := Filter(xs[1..], p);
      assert xs == [xs[0]] + xs[1..];
      if p(xs[0]) then [xs[0]] + rest else rest
  }

  /** filter takes each element at most as often as it occurs. */
  lemma {:induction false} FilterSubMultiset<T>(xs: seq<T>, p: T -> bool)
    ensures multiset(Filter(xs, p)) <= multiset(xs)
  {
    if xs != [] {
      FilterSubMultiset(xs[1..], p);
      assert xs == [xs[0]] + xs[1..];
      assert multiset(xs) == multiset{xs[0]} + multiset(xs[1..]);
      if p(xs[0]) {
        assert Filter(xs, p) == [xs[0]] + Filter(xs[1..], p);
      } else {
        assert Filter(xs, p) == Filter(xs[1..], p);
      }
    }
  }

  /** filter commutes with concatenation, so it keeps relative order. */
  lemma {:induction false} FilterAppend<T>(xs: seq<T>, ys: seq<T>, p: T -> bool)
    ensures Filter(xs + ys, p) == Filter(xs, p) + Filter(ys, p)
  {
    if xs == [] {
      assert xs + ys == ys;
    } else {
      assert (xs + ys)[1..] == xs[1..] + ys;
      FilterAppend(xs[1..], ys, p);
    }
  }

  /** Every element passes exactly when the count of passing elements is the length. */
  lemma {:induction false} CountWhereAll<T>(xs: seq<T>, p: T -> bool)
    ensures CountWhere(xs, p) == |xs| <==> forall i :: 0 <= i < |xs| ==> p(xs[i])
  {
    if xs != [] {
      CountWhereAll(xs[1..], p);
      assert forall i :: 1 <= i < |xs| ==> xs[i] == xs[1..][i - 1];
    }
  }

  /** filter keeps everything exactly when every element passes. */
  lemma {:induction false} FilterAll<T>(xs: seq<T>, p: T -> bool)
    ensures Filter(xs, p) == xs <==> forall i :: 0 <= i < |xs| ==> p(xs[i])
  {
    CountWhereAll(xs, p);
    if xs != [] && forall i :: 0 <= i < |xs| ==> p(xs[i]) {
      assert forall i :: 0 <= i < |xs[1..]| ==> p(xs[1..][i]);
      FilterAll(xs[1..], p);
      assert xs == [xs[0]] + xs[1..];
    }
  }

  /** `xs.map(x => p(x) ? f(x) : x)`: rewrites exactly the elements satisfying p. */
  function UpdateWhere<T>(xs: seq<T>, p: T -> bool, f: T -> T): (r: seq<T>)
    ensures |r| == |xs|
    ensures forall i :: 0 <= i < |xs| && p(xs[i]) ==> r[i] == f(xs[i])
    ensures forall i :: 0 <= i < |xs| && !p(xs[i]) ==> r[i] == xs[i]
  {
    seq(|xs|, i requires 0 <= i < |xs| => if p(xs[i]) then f(xs[i]) else xs[i])
  }

  /** `xs.some(p)`. */
  predicate AnyWhere<T>(xs: seq<T>, p: T -> bool)
  {
    exists i :: 0 <= i < |xs| && p(xs[i])
  }

  /** A conditional map that matches nothing returns the list unchanged. */
  lemma UpdateWhereNone<T>(xs: seq<T>, p: T -> bool, f: T -> T)
    requires !AnyWhere(xs, p)
    ensures UpdateWhere(xs, p, f) == xs
  {
    var r := UpdateWhere(xs, p, f);
    assert forall i :: 0 <= i < |xs| ==> r[i] == xs[i];
  }

  /** Running a conditional map twice is running it once, when the rewrite is
      idempotent on the matched elements and keeps unmatched ones unmatched. */
  lemma UpdateWhereIdempotent<T>(xs: seq<T>, p: T -> bool, f: T -> T)
    requires forall i :: 0 <= i < |xs| && p(xs[i]) ==> f(f(xs[i])) == f(xs[i])
    ensures UpdateWhere(UpdateWhere(xs, p, f), p, f) == UpdateWhere(xs, p, f)
  {
    var r := UpdateWhere(xs, p, f);
    var r2 := UpdateWhere(r, p, f);
    forall i | 0 <= i < |xs| ensures r2[i] == r[i] {
      if p(xs[i]) {
        assert r[i] == f(xs[i]);
      } else {
        assert r[i] == xs[i];
      }
    }
  }

  /** `xs.map(f)`. */
  function Map<T>(xs: seq<T>, f: T -> T): (r: seq<T>)
    ensures |r| == |xs|
    ensures forall i :: 0 <= i < |xs| ==> r[i] == f(xs[i])
  {
    seq(|xs|, i requires 0 <= i < |xs| => f(xs[i]))
  }

  lemma MapAppend<T>(xs: seq<T>, ys: seq<T>, f: T -> T)
    ensures Map(xs + ys, f) == Map(xs, f) + Map(ys, f)
  {
  }

  /** filter commutes with a map that does not change what the filter tests. */
  lemma {:induction false} FilterMap<T>(xs: seq<T>, f: T -> T, p: T -> bool)
    requires forall i :: 0 <= i < |xs| ==> p(f(xs[i])) == p(xs[i])
    ensures Filter(Map(xs, f), p) == Map(Filter(xs, p), f)
  {
    if xs != [] {
      var m := Map(xs, f);
      assert m == [f(xs[0])] + Map(xs[1..], f);
      FilterMap(xs[1..], f, p);
      if p(xs[0]) {
        MapAppend([xs[0]], Filter(xs[1..], p), f);
      }
    }
  }

  /** Removing one occurrence from a permutation leaves a permutation. */
  lemma RemoveOne<T>(xs: seq<T>, pre: seq<T>, post: seq<T>)
    requires xs != [] && multiset(xs) == multiset(pre + [xs[0]] + post)
    ensures multiset(xs[1..]) == multiset(pre + post)
  {
    assert xs == [xs[0]] + xs[1..];
    assert multiset(xs) == multiset{xs[0]} + multiset(xs[1..]);
    assert multiset(pre + [xs[0]] + post) == multiset{xs[0]} + multiset(pre + post);
    assert forall z :: multiset(xs[1..])[z] == multiset(pre + post)[z] by {
      forall z ensures multiset(xs[1..])[z] == multiset(pre + post)[z] {
        assert (multiset{xs[0]} + multiset(xs[1..]))[z] == (multiset{xs[0]} + multiset(pre + post))[z];
      }
    }
  }

  /** Mapping two permutations of each other gives permutations of each other. */
  lemma {:induction false} MapPermutation<T>(xs: seq<T>, ys: seq<T>, f: T -> T)
    requires multiset(xs) == multiset(ys)
    ensures multiset(Map(xs, f)) == multiset(Map(ys, f))
    decreases |xs|
  {
    if xs == [] {
      assert |ys| == |multiset(ys)| == 0;
    } else {
      assert xs[0] in multiset(ys);
      var j :| 0 <= j < |ys| && ys[j] == xs[0];
      var pre, post := ys[..j], ys[j + 1..];
      assert ys == pre + [xs[0]] + post;
      RemoveOne(xs, pre, post);
      MapPermutation(xs[1..], pre + post, f);
      MapAppend([xs[0]], xs[1..], f);
      assert xs == [xs[0]] + xs[1..];
      MapAppend(pre + [xs[0]], post, f);
      MapAppend(pre, [xs[0]], f);
      MapAppend(pre, post, f);
    }
  }

  /** A value at two positions occurs at least twice in the multiset. */
  lemma OccursTwice<T>(xs: seq<T>, i: nat, j: nat)
    requires i < j < |xs| && xs[i] == xs[j]
    ensures multiset(xs)[xs[i]] >= 2
  {
    assert xs == xs[..j] + xs[j..];
    assert xs[i] in xs[..j];
    assert xs[j] in xs[j..];
  }

  /** A value with multiplicity two or more sits at two distinct positions. */
  lemma {:induction false} TwoPositions<T>(xs: seq<T>, x: T)
    requires multiset(xs)[x] >= 2
    ensures exists i, j :: 0 <= i < j < |xs| && xs[i] == x && xs[j] == x
    decreases |xs|
  {
    assert xs != [];
    assert xs == [xs[0]] + xs[1..];
    if xs[0] == x {
      assert multiset(xs[1..])[x] >= 1;
      var j :| 0 <= j < |xs[1..]| && xs[1..][j] == x;
      assert xs[j + 1] == x;
    } else {
      TwoPositions(xs[1..], x);
      var i, j :| 0 <= i < j < |xs[1..]| && xs[1..][i] == x && xs[1..][j] == x;
      assert xs[i + 1] == x && xs[j + 1] == x;
    }
  }

  /** Exchanges the elements at positions a and b. */
  function Swap<T>(xs: seq<T>, a: nat, b: nat): (r: seq<T>)
    requires a < |xs| && b < |xs|
    ensures |r| == |xs| && multiset(r) == multiset(xs)
    ensures r[a] == xs[b] && r[b] == xs[a]
    ensures forall k :: 0 <= k < |xs| && k != a && k != b ==> r[k] == xs[k]
  {
    xs[a := xs[b]][b := xs[a]]
  }

  /** The id of the element next to `id` in direction `dir` within the view
      `subset`; None when `id` is not in the view or sits at the end it would
      move towards. */
  function NeighbourId<T>(subset: seq<T>, id: string, dir: Direction, idOf: T -> string): Option<string>
  {
    var k := IndexOf(subset, id, idOf);
    if k == -1 || (dir == Up && k == 0) || (dir == Down && k == |subset| - 1) then None
    else
      assert dir != Up ==> dir == Down;
      Some(idOf(subset[if dir == Up then k - 1 else k + 1]))
  }

  /** A move does something: the element has a neighbour in the view, and both
      ids are present in the backing array. */
  predicate Movable<T>(full: seq<T>, subset: seq<T>, id: string, dir: Direction, idOf: T -> string)
  {
    NeighbourId(subset, id, dir, idOf).Some? &&
    IndexOf(full, id, idOf) >= 0 && IndexOf(full, NeighbourId(subset, id, dir, idOf).value, idOf) >= 0
  }

  /** The two positions of `full` that a move exchanges: the item `id` and its
      neighbour in direction `dir` within the visible `subset`, each located
      by its first occurrence in `full`. None when the move is a no-op. */
  function MovePositions<T>(full: seq<T>, subset: seq<T>, id: string, dir: Direction, idOf: T -> string): (r: Option<(nat, nat)>)
    ensures (forall i :: 0 <= i < |subset| ==> idOf(subset[i]) != id) ==> r.None?
    ensures |subset| > 0 && dir == Up && idOf(subset[0]) == id ==> r.None?
    ensures r.Some? ==> r.value.0 < |full| && r.value.1 < |full|
    ensures r.Some? ==> idOf(full[r.value.0]) == id
    ensures r.Some? ==> var k := IndexOf(subset, id, idOf);
                        0 <= k && (if dir == Up then 0 < k else k + 1 < |subset|) &&
                        idOf(full[r.value.1]) == idOf(subset[if dir == Up then k - 1 else k + 1])
    ensures r.Some? <==> Movable(full, subset, id, dir, idOf)
    ensures Movable(full, subset, id, dir, idOf) ==>
              r == Some((IndexOf(full, id, idOf) as nat, IndexOf(full, NeighbourId(subset, id, dir, idOf).value, idOf) as nat))
  {
    var k := IndexOf(subset, id, idOf);
    if k == -1 then None
    else if dir == Up && k == 0 then None
    else if dir == Down && k == |subset| - 1 then None
    else
      var t := if dir == Up then k - 1 else k + 1;
      assert dir != Up ==> dir == Down;
      var a := IndexOf(full, idOf(subset[k]), idOf);
      var b := IndexOf(full, idOf(subset[t]), idOf);
      if a == -1 || b == -1 then None else Some((a, b))
  }

  /** `moveItemInArray`: either the array unchanged, or the same array with
      exactly two positions exchanged; never an element gained or lost. */
  function MoveItemInArray<T>(full: seq<T>, subset: seq<T>, id: string, dir: Direction, idOf: T -> string): (r: seq<T>)
    ensures |r| == |full| && multiset(r) == multiset(full)
    ensures MovePositions(full, subset, id, dir, idOf).None? ==> r == full
    ensures MovePositions(full, subset, id, dir, idOf).Some? ==>
              var (a, b) := MovePositions(full, subset, id, dir, idOf).value;
              r[a] == full[b] && r[b] == full[a] &&
              forall k :: 0 <= k < |full| && k != a && k != b ==> r[k] == full[k]
    ensures !Movable(full, subset, id, dir, idOf) ==> r == full
    ensures Movable(full, subset, id, dir, idOf) ==>
              r == Swap(full, IndexOf(full, id, idOf) as nat, IndexOf(full, NeighbourId(subset, id, dir, idOf).value, idOf) as nat)
  {
    match MovePositions(full, subset, id, dir, idOf)
    case None => full
    case Some((a, b)) => Swap(full, a, b)
  }

  /** No two elements share an id. */
  predicate DistinctIds<T>(xs: seq<T>, idOf: T -> string)
  {
    forall i, j :: 0 <= i < |xs| && 0 <= j < |xs| && i != j ==> idOf(xs[i]) != idOf(xs[j])
  }

  lemma IndexOfDistinct<T>(xs: seq<T>, k: nat, idOf: T -> string)
    requires DistinctIds(xs, idOf) && k < |xs|
    ensures IndexOf(xs, idOf(xs[k]), idOf) == k
  {
  }

  lemma SwapKeepsDistinct<T>(xs: seq<T>, a: nat, b: nat, idOf: T -> string)
    requires a < |xs| && b < |xs| && DistinctIds(xs, idOf)
    ensures DistinctIds(Swap(xs, a, b), idOf)
  {
    var ys := Swap(xs, a, b);
    forall i, j | 0 <= i < |ys| && 0 <= j < |ys| && i != j
      ensures idOf(ys[i]) != idOf(ys[j])
    {
      var i' := if i == a then b else if i == b then a else i;
      var j' := if j == a then b else if j == b then a else j;
      assert ys[i] == xs[i'] && ys[j] == xs[j'];
    }
  }

  lemma SwapTwice<T>(xs: seq<T>, a: nat, b: nat)
    requires a < |xs| && b < |xs|
    ensures Swap(Swap(xs, a, b), b, a) == xs
  {
  }

  /** In a list moved as its own view (classes, characters, categories), with
      distinct ids, a move that is possible exchanges the element with its
      direct neighbour. */
  lemma FlatMoveIsNeighbourSwap<T>(xs: seq<T>, id: string, dir: Direction, idOf: T -> string)
    requires DistinctIds(xs, idOf)
    requires var k := IndexOf(xs, id, idOf); 0 <= k && (if dir == Up then 0 < k else k + 1 < |xs|)
    ensures var k := IndexOf(xs, id, idOf);
            MoveItemInArray(xs, xs, id, dir, idOf) == Swap(xs, k, if dir == Up then k - 1 else k + 1)
  {
    var k := IndexOf(xs, id, idOf);
    var t := if dir == Up then k - 1 else k + 1;
    IndexOfDistinct(xs, k, idOf);
    IndexOfDistinct(xs, t, idOf);
    assert MovePositions(xs, xs, id, dir, idOf) == Some((k, t));
  }

  /** With distinct ids, a move inside a subset whose elements all fail `keep`
      leaves every element satisfying `keep` in its position. */
  lemma MoveKeepsOutside<T>(full: seq<T>, subset: seq<T>, id: string, dir: Direction, idOf: T -> string, keep: T -> bool)
    requires DistinctIds(full, idOf)
    requires forall i :: 0 <= i < |subset| ==> subset[i] in full && !keep(subset[i])
    ensures forall k :: 0 <= k < |full| && keep(full[k]) ==> MoveItemInArray(full, subset, id, dir, idOf)[k] == full[k]
  {
    var plan := MovePositions(full, subset, id, dir, idOf);
    if plan.Some? {
      var (a, b) := plan.value;
      var s := IndexOf(subset, id, idOf);
      var t := if dir == Up then s - 1 else s + 1;
      SubsetHolder(full, subset, s, a, idOf);
      SubsetHolder(full, subset, t, b, idOf);
    }
  }

  /** With distinct ids, the position of `full` holding a subset element's id holds that element. */
  lemma SubsetHolder<T>(full: seq<T>, subset: seq<T>, s: int, a: int, idOf: T -> string)
    requires DistinctIds(full, idOf)
    requires 0 <= s < |subset| && subset[s] in full
    requires 0 <= a < |full| && idOf(full[a]) == idOf(subset[s])
    ensures full[a] == subset[s]
  {
    var k :| 0 <= k < |full| && full[k] == subset[s];
  }

  /** With distinct ids, after swapping positions a and b the id found at a
      is found at b. */
  lemma SwapMovesIndex<T>(xs: seq<T>, a: nat, b: nat, idOf: T -> string)
    requires DistinctIds(xs, idOf) && a < |xs| && b < |xs|
    ensures DistinctIds(Swap(xs, a, b), idOf)
    ensures IndexOf(Swap(xs, a, b), idOf(xs[a]), idOf) == b
  {
    SwapKeepsDistinct(xs, a, b, idOf);
    IndexOfDistinct(Swap(xs, a, b), b, idOf);
  }

  /** A move up followed by a move down of the same element restores the list. */
  lemma MoveUpThenDownRestores<T>(xs: seq<T>, id: string, idOf: T -> string)
    requires DistinctIds(xs, idOf)
    requires IndexOf(xs, id, idOf) > 0
    ensures var ys := MoveItemInArray(xs, xs, id, Up, idOf);
            MoveItemInArray(ys, ys, id, Down, idOf) == xs
  {
    var k := IndexOf(xs, id, idOf);
    FlatMoveIsNeighbourSwap(xs, id, Up, idOf);
    var ys := Swap(xs, k, k - 1);
    assert MoveItemInArray(xs, xs, id, Up, idOf) == ys && idOf(xs[k]) == id;
    SwapMovesIndex(xs, k, k - 1, idOf);
    FlatMoveIsNeighbourSwap(ys, id, Down, idOf);
    SwapTwice(xs, k, k - 1);
  }

  /** A move down followed by a move up of the same element restores the list. */
  lemma MoveDownThenUpRestores<T>(xs: seq<T>, id: string, idOf: T -> string)
    requires DistinctIds(xs, idOf)
    requires 0 <= IndexOf(xs, id, idOf) < |xs| - 1
    ensures var ys := MoveItemInArray(xs, xs, id, Down, idOf);
            MoveItemInArray(ys, ys, id, Up, idOf) == xs
  {
    var k := IndexOf(xs, id, idOf);
    FlatMoveIsNeighbourSwap(xs, id, Down, idOf);
    var ys := Swap(xs, k, k + 1);
    assert MoveItemInArray(xs, xs, id, Down, idOf) == ys && idOf(xs[k]) == id;
    SwapMovesIndex(xs, k, k + 1, idOf);
    FlatMoveIsNeighbourSwap(ys, id, Up, idOf);
    SwapTwice(xs, k, k + 1);
  }
}
