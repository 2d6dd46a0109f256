/** The timeline handlers of the bible editor. The timeline is a forest kept
    in a flat list: `parentId` links a node to its parent, and `order` ranks
    a node among its siblings (the nodes with the same `parentId`). */
module Timeline {
  import opened Text
  import opened Ids
  import opened Types
  import opened Collections

  // ---------------------------------------------------------------------------
  // Sibling scopes and the sort by order

  /** `t => t.parentId === parentId`: membership of a sibling scope. */
  function SameParent(parentId: Option<string>): TimelineEvent -> bool
  {
    (t: TimelineEvent) => t.parentId == parentId
  }

  predicate SortedByOrder(s: seq<TimelineEvent>)
  {
    forall i, j :: 0 <= i < j < |s| ==> s[i].order <= s[j].order
  }

  predicate StrictlyByOrder(s: seq<TimelineEvent>)
  {
    forall i, j :: 0 <= i < j < |s| ==> s[i].order < s[j].order
  }

  /** Inserts x in front of the first element whose order is not below its own. */
  function InsertByOrder(x: TimelineEvent, s: seq<TimelineEvent>): (r: seq<TimelineEvent>)
    requires SortedByOrder(s)
    ensures SortedByOrder(r)
    ensures |r| == |s| + 1 && (r[0] == x || (s != [] && r[0] == s[0]))
    ensures multiset(r) == multiset{x} + multiset(s)
  {
    if s == [] || x.order <= s[0].order then [x] + s
    else
      var rest := InsertByOrder(x, s[1..]);
      assert s == [s[0]] + s[1..];
      assert s[0].order <= rest[0].order;
      [s[0]] + rest
  }

  /** `sort((a, b) => a.order - b.order)`: an insertion sort; each element is
      placed before the equal-ranked elements that came after it, so the sort
      is stable, as the JavaScript sort is (SortStable). */
  function SortByOrder(xs: seq<TimelineEvent>): (r: seq<TimelineEvent>)
    ensures SortedByOrder(r)
    ensures multiset(r) == multiset(xs)
  {
    if xs == [] then []
    else
      assert xs == [xs[0]] + xs[1..];
      InsertByOrder(xs[0], SortByOrder(xs[1..]))
  }

  /** `t => t.order === o`: the elements of one rank. */
  function HasOrder(o: int): TimelineEvent -> bool
  {
    (t: TimelineEvent) => t.order == o
  }

  /** Insertion puts x in front of the elements of its own rank. */
  lemma {:induction false} InsertKeepsRanks(x: TimelineEvent, s: seq<TimelineEvent>, o: int)
    requires SortedByOrder(s)
    ensures Filter(InsertByOrder(x, s), HasOrder(o)) == (if x.order == o then [x] else []) + Filter(s, HasOrder(o))
  {
    if s == [] || x.order <= s[0].order {
      assert ([x] + s)[1..] == s;
    } else {
      var rest := InsertByOrder(x, s[1..]);
      assert SortedByOrder(s[1..]);
      InsertKeepsRanks(x, s[1..], o);
      assert ([s[0]] + rest)[1..] == rest;
    }
  }

  /** The sort is stable: the elements of each rank keep their relative order. */
  lemma {:induction false} SortStable(xs: seq<TimelineEvent>, o: int)
    ensures Filter(SortByOrder(xs), HasOrder(o)) == Filter(xs, HasOrder(o))
  {
    if xs != [] {
      SortStable(xs[1..], o);
      InsertKeepsRanks(xs[0], SortByOrder(xs[1..]), o);
    }
  }

  /** Sorting a list that is already sorted leaves it exactly as it was. */
  lemma {:induction false} SortOfSorted(xs: seq<TimelineEvent>)
    requires SortedByOrder(xs)
    ensures SortByOrder(xs) == xs
  {
    if xs != [] {
      assert SortedByOrder(xs[1..]);
      SortOfSorted(xs[1..]);
    }
  }

  /** A list with distinct orders is the only sorted arrangement of its elements. */
  lemma {:induction false} SortedUnique(a: seq<TimelineEvent>, b: seq<TimelineEvent>)
    requires StrictlyByOrder(a) && SortedByOrder(b) && multiset(a) == multiset(b)
    ensures a == b
    decreases |a|
  {
    assert |a| == |multiset(a)| == |multiset(b)| == |b|;
    if a != [] {
      SortedHeadsAgree(a, b);
      TailsPermutation(a, b);
      assert StrictlyByOrder(a[1..]) && SortedByOrder(b[1..]);
      SortedUnique(a[1..], b[1..]);
      assert a == [a[0]] + a[1..] && b == [b[0]] + b[1..];
    }
  }

  /** Two non-empty sorted arrangements of the same elements, the first strict,
      start with the same element. */
  lemma SortedHeadsAgree(a: seq<TimelineEvent>, b: seq<TimelineEvent>)
    requires a != [] && b != []
    requires StrictlyByOrder(a) && SortedByOrder(b) && multiset(a) == multiset(b)
    ensures a[0] == b[0]
  {
    assert b[0] in multiset(a);
    var j :| 0 <= j < |a| && a[j] == b[0];
    assert a[0] in multiset(b);
    var j' :| 0 <= j' < |b| && b[j'] == a[0];
    assert b[0].order <= b[j'].order;
    assert j == 0;
  }

  /** Equal heads leave permutations of each other behind. */
  lemma TailsPermutation<T>(a: seq<T>, b: seq<T>)
    requires a != [] && b != [] && a[0] == b[0] && multiset(a) == multiset(b)
    ensures multiset(a[1..]) == multiset(b[1..])
  {
    assert a == [a[0]] + a[1..] && b == [b[0]] + b[1..];
    assert multiset(a) == multiset{a[0]} + multiset(a[1..]);
    assert multiset(b) == multiset{a[0]} + multiset(b[1..]);
    forall z ensures multiset(a[1..])[z] == multiset(b[1..])[z] {
      assert (multiset{a[0]} + multiset(a[1..]))[z] == (multiset{a[0]} + multiset(b[1..]))[z];
    }
  }

  /** The siblings of a scope, sorted by order, as the move handler views them. */
  function Siblings(tl: seq<TimelineEvent>, parentId: Option<string>): (r: seq<TimelineEvent>)
    ensures SortedByOrder(r)
    ensures multiset(r) == multiset(Filter(tl, SameParent(parentId)))
  {
    SortByOrder(Filter(tl, SameParent(parentId)))
  }

  /** No two distinct positions of one scope share an order. */
  predicate DistinctSiblingOrders(tl: seq<TimelineEvent>, parentId: Option<string>)
  {
    forall i, j :: 0 <= i < |tl| && 0 <= j < |tl| && i != j && tl[i].parentId == parentId && tl[j].parentId == parentId
      ==> tl[i].order != tl[j].order
  }

  /** Every sibling is an element of the timeline in that scope. */
  lemma SiblingsFromTimeline(tl: seq<TimelineEvent>, parentId: Option<string>)
    ensures forall i :: 0 <= i < |Siblings(tl, parentId)| ==>
              Siblings(tl, parentId)[i] in tl && Siblings(tl, parentId)[i].parentId == parentId
  {
    var s := Siblings(tl, parentId);
    var zs := Filter(tl, SameParent(parentId));
    forall i | 0 <= i < |s| ensures s[i] in tl && s[i].parentId == parentId {
      assert s[i] in multiset(zs);
      var q :| 0 <= q < |zs| && zs[q] == s[i];
    }
  }

  /** With distinct orders in the scope, the sibling view is strictly sorted. */
  lemma SiblingsStrict(tl: seq<TimelineEvent>, parentId: Option<string>)
    requires DistinctSiblingOrders(tl, parentId)
    ensures StrictlyByOrder(Siblings(tl, parentId))
  {
    var s := Siblings(tl, parentId);
    SiblingsFromTimeline(tl, parentId);
    forall i, j | 0 <= i < j < |s| ensures s[i].order < s[j].order {
      if s[i] == s[j] {
        OccursTwice(s, i, j);
        FilterSubMultiset(tl, SameParent(parentId));
        assert multiset(s) <= multiset(tl);
        TwoPositions(tl, s[i]);
      }
    }
  }

  /** With unique ids in the timeline and a strict sibling view, the view's ids are unique. */
  lemma SiblingIdsDistinct(tl: seq<TimelineEvent>, parentId: Option<string>)
    requires DistinctIds(tl, EventId)
    requires StrictlyByOrder(Siblings(tl, parentId))
    ensures DistinctIds(Siblings(tl, parentId), EventId)
  {
    var s := Siblings(tl, parentId);
    SiblingsFromTimeline(tl, parentId);
    forall i, j | 0 <= i < |s| && 0 <= j < |s| && i != j ensures s[i].id != s[j].id {
      var m :| 0 <= m < |tl| && tl[m] == s[i];
      var n :| 0 <= n < |tl| && tl[n] == s[j];
      assert s[i].order != s[j].order;
      assert m != n;
    }
  }

  // ---------------------------------------------------------------------------
  // Adding

  function LevelTitle(level: TimelineLevel): string
  {
    match level
    case Saga => "New Saga"
    case Arc => "New Arc"
    case Episode => "New Episode"
  }

  /** `addTimelineEvent`: appends an untitled node whose order is the number of
      nodes already in its scope. */
  function AddTimelineEvent(prev: StoryBible, level: TimelineLevel, parentId: Option<string>, seed: nat): (r: StoryBible)
    ensures r == prev.(timeline := r.timeline)
    ensures |r.timeline| == |prev.timeline| + 1 && r.timeline[..|prev.timeline|] == prev.timeline
    ensures var e := r.timeline[|prev.timeline|];
            e.id == MakeId(seed) && e.level == level && e.title == LevelTitle(level) &&
            e.description == "" && e.parentId == parentId &&
            e.order == |Filter(prev.timeline, SameParent(parentId))|
  {
    var e := TimelineEvent(MakeId(seed), level, LevelTitle(level), "", parentId,
                           |Filter(prev.timeline, SameParent(parentId))|);
    prev.(timeline := prev.timeline + [e])
  }

  /** The orders of a scope are exactly 0 .. n-1 for its n members. */
  predicate DenseOrders(tl: seq<TimelineEvent>, parentId: Option<string>)
  {
    DistinctSiblingOrders(tl, parentId) &&
    forall i :: 0 <= i < |tl| && tl[i].parentId == parentId ==> 0 <= tl[i].order < |Filter(tl, SameParent(parentId))|
  }

  /** Adding to a scope whose orders are dense keeps them dense. */
  lemma AddKeepsOrdersDense(prev: StoryBible, level: TimelineLevel, parentId: Option<string>, seed: nat)
    requires DenseOrders(prev.timeline, parentId)
    ensures DenseOrders(AddTimelineEvent(prev, level, parentId, seed).timeline, parentId)
  {
    var tl := prev.timeline;
    var r := AddTimelineEvent(prev, level, parentId, seed).timeline;
    var e := r[|tl|];
    var n := |Filter(tl, SameParent(parentId))|;
    assert r == tl + [e];
    assert |Filter(r, SameParent(parentId))| == n + 1 by {
      FilterAppend(tl, [e], SameParent(parentId));
      assert Filter([e], SameParent(parentId)) == [e];
    }
    forall i | 0 <= i < |r| && r[i].parentId == parentId
      ensures 0 <= r[i].order < n + 1
    {
      if i < |tl| {
        assert r[i] == tl[i];
      }
    }
    forall i, j | 0 <= i < |r| && 0 <= j < |r| && i != j && r[i].parentId == parentId && r[j].parentId == parentId
      ensures r[i].order != r[j].order
    {
      if i < |tl| && j < |tl| {
        assert r[i] == tl[i] && r[j] == tl[j];
      } else if i < |tl| {
        assert r[i] == tl[i];
      } else {
        assert r[j] == tl[j];
      }
    }
  }

  /** Adding to one scope leaves every other scope exactly as it was. */
  lemma AddLeavesOtherScopes(prev: StoryBible, level: TimelineLevel, parentId: Option<string>, seed: nat, other: Option<string>)
    requires other != parentId
    ensures Filter(AddTimelineEvent(prev, level, parentId, seed).timeline, SameParent(other)) ==
            Filter(prev.timeline, SameParent(other))
  {
    var tl := prev.timeline;
    var r := AddTimelineEvent(prev, level, parentId, seed).timeline;
    var e := r[|tl|];
    assert r == tl + [e];
    FilterAppend(tl, [e], SameParent(other));
    assert Filter([e], SameParent(other)) == [];
  }

  // ---------------------------------------------------------------------------
  // Moving

  /** The sibling positions a move exchanges: the node and its neighbour in the
      sorted view, or None at either end or when the node is not in the scope. */
  function SiblingMove(sib: seq<TimelineEvent>, id: string, dir: Direction): (r: Option<(nat, nat)>)
    ensures r.None? <==> IndexOf(sib, id, EventId) == -1 ||
                         (dir == Up && IndexOf(sib, id, EventId) == 0) ||
                         (dir == Down && IndexOf(sib, id, EventId) == |sib| - 1)
    ensures r.Some? ==> r.value.0 == IndexOf(sib, id, EventId) && r.value.1 < |sib| &&
                        r.value.1 == (if dir == Up then r.value.0 - 1 else r.value.0 + 1)
  {
    var k := IndexOf(sib, id, EventId);
    if k == -1 || (dir == Up && k == 0) || (dir == Down && k == |sib| - 1) then None
    else
      assert dir != Up ==> dir == Down;
      Some((k, if dir == Up then k - 1 else k + 1))
  }

  /** The per-node rewrite of a move: the two nodes exchange their orders. */
  function Retimed(a: TimelineEvent, b: TimelineEvent): TimelineEvent -> TimelineEvent
  {
    (t: TimelineEvent) => if t.id == a.id then t.(order := b.order)
                          else if t.id == b.id then t.(order := a.order)
                          else t
  }

  /** `moveTimelineEvent`: exchanges the orders of the node and its neighbour
      in the sorted sibling view. Positions in the list and every other field
      stay as they were. */
  function MoveTimelineEvent(prev: StoryBible, id: string, parentId: Option<string>, dir: Direction): (r: StoryBible)
    ensures r == prev.(timeline := r.timeline)
    ensures |r.timeline| == |prev.timeline|
    ensures forall i :: 0 <= i < |r.timeline| ==> r.timeline[i] == prev.timeline[i].(order := r.timeline[i].order)
    ensures SiblingMove(Siblings(prev.timeline, parentId), id, dir).None? ==> r == prev
    ensures SiblingMove(Siblings(prev.timeline, parentId), id, dir).Some? ==>
              var sib := Siblings(prev.timeline, parentId);
              var (k, t) := SiblingMove(sib, id, dir).value;
              forall i :: 0 <= i < |r.timeline| ==>
                r.timeline[i].order == if prev.timeline[i].id == sib[k].id then sib[t].order
                                       else if prev.timeline[i].id == sib[t].id then sib[k].order
                                       else prev.timeline[i].order
  {
    var sib := Siblings(prev.timeline, parentId);
    match SiblingMove(sib, id, dir)
    case None => prev
    case Some((k, t)) => prev.(timeline := ExchangeOrders(prev.timeline, sib[k], sib[t]))
  }

  /** The timeline after nodes `a` and `b` (found by id) exchange orders. */
  function ExchangeOrders(tl: seq<TimelineEvent>, a: TimelineEvent, b: TimelineEvent): (r: seq<TimelineEvent>)
    ensures |r| == |tl|
    ensures forall i :: 0 <= i < |tl| ==>
              r[i] == tl[i].(order := if tl[i].id == a.id then b.order
                                      else if tl[i].id == b.id then a.order
                                      else tl[i].order)
  {
    Map(tl, Retimed(a, b))
  }

  /** Retiming commutes with taking a scope, since it keeps every parent. */
  lemma FilterRetimed(xs: seq<TimelineEvent>, a: TimelineEvent, b: TimelineEvent, parentId: Option<string>)
    ensures Filter(Map(xs, Retimed(a, b)), SameParent(parentId)) == Map(Filter(xs, SameParent(parentId)), Retimed(a, b))
  {
    FilterMap(xs, Retimed(a, b), SameParent(parentId));
  }

  /** The sibling view with the nodes at k and t exchanged, each keeping the
      order of the position it moves to. */
  function SwapView(sib: seq<TimelineEvent>, k: nat, t: nat): (r: seq<TimelineEvent>)
    requires k < |sib| && t < |sib| && k != t
    ensures |r| == |sib|
    ensures r[k] == sib[t].(order := sib[k].order) && r[t] == sib[k].(order := sib[t].order)
    ensures forall i :: 0 <= i < |sib| && i != k && i != t ==> r[i] == sib[i]
    ensures forall i :: 0 <= i < |sib| ==> r[i].order == sib[i].order
  {
    sib[t := sib[k].(order := sib[t].order)][k := sib[t].(order := sib[k].order)]
  }

  /** Retiming a view with unique ids rewrites exactly the two nodes, which is
      the exchanged view with the two positions swapped back. */
  lemma RetimedView(sib: seq<TimelineEvent>, k: nat, t: nat)
    requires k < |sib| && t < |sib| && k != t && DistinctIds(sib, EventId)
    ensures Map(sib, Retimed(sib[k], sib[t])) == Swap(SwapView(sib, k, t), k, t)
  {
    var mapped := Map(sib, Retimed(sib[k], sib[t]));
    var swapped := Swap(SwapView(sib, k, t), k, t);
    forall i | 0 <= i < |sib| ensures mapped[i] == swapped[i] {
      if i != k && i != t {
        assert sib[i].id != sib[k].id && sib[i].id != sib[t].id;
      }
    }
  }

  /** The exchanged view holds exactly the scope's nodes after the exchange. */
  lemma ExchangedViewPermutation(tl: seq<TimelineEvent>, parentId: Option<string>, k: nat, t: nat)
    requires DistinctIds(Siblings(tl, parentId), EventId)
    requires k < |Siblings(tl, parentId)| && t < |Siblings(tl, parentId)| && k != t
    ensures var sib := Siblings(tl, parentId);
            multiset(SwapView(sib, k, t)) == multiset(Filter(ExchangeOrders(tl, sib[k], sib[t]), SameParent(parentId)))
  {
    var sib := Siblings(tl, parentId);
    var f := Retimed(sib[k], sib[t]);
    RetimedView(sib, k, t);
    FilterRetimed(tl, sib[k], sib[t], parentId);
    MapPermutation(sib, Filter(tl, SameParent(parentId)), f);
  }

  /** The sibling view after two siblings exchange orders is the exchanged view. */
  lemma SiblingsAfterExchange(tl: seq<TimelineEvent>, parentId: Option<string>, k: nat, t: nat)
    requires StrictlyByOrder(Siblings(tl, parentId)) && DistinctIds(Siblings(tl, parentId), EventId)
    requires k < |Siblings(tl, parentId)| && t < |Siblings(tl, parentId)| && k != t
    ensures var sib := Siblings(tl, parentId);
            Siblings(ExchangeOrders(tl, sib[k], sib[t]), parentId) == SwapView(sib, k, t)
  {
    var sib := Siblings(tl, parentId);
    var view := SwapView(sib, k, t);
    var after := Siblings(ExchangeOrders(tl, sib[k], sib[t]), parentId);
    SwapViewStrict(sib, k, t);
    ExchangedViewPermutation(tl, parentId, k, t);
    SortedUnique(view, after);
  }

  lemma SwapViewStrict(sib: seq<TimelineEvent>, k: nat, t: nat)
    requires k < |sib| && t < |sib| && k != t && StrictlyByOrder(sib)
    ensures StrictlyByOrder(SwapView(sib, k, t))
  {
  }

  /** In the exchanged view the opposite move pairs the same two positions. */
  lemma OppositeMoveInView(sib: seq<TimelineEvent>, id: string, dir: Direction)
    requires DistinctIds(sib, EventId) && SiblingMove(sib, id, dir).Some?
    ensures var (k, t) := SiblingMove(sib, id, dir).value;
            SiblingMove(SwapView(sib, k, t), id, Opposite(dir)) == Some((t, k))
  {
    var (k, t) := SiblingMove(sib, id, dir).value;
    var view := SwapView(sib, k, t);
    assert view[t].id == id;
    forall j | 0 <= j < t ensures view[j].id != id {
      if j == k {
        assert sib[t].id != sib[k].id;
      }
    }
    assert IndexOf(view, id, EventId) == t;
  }

  /** Exchanging the orders back restores the timeline, when ids are unique
      and both nodes are in it. */
  lemma ExchangeBack(tl: seq<TimelineEvent>, a: TimelineEvent, b: TimelineEvent)
    requires DistinctIds(tl, EventId) && a in tl && b in tl && a.id != b.id
    ensures ExchangeOrders(ExchangeOrders(tl, a, b), a.(order := b.order), b.(order := a.order)) == tl
  {
    var back := ExchangeOrders(ExchangeOrders(tl, a, b), a.(order := b.order), b.(order := a.order));
    forall i | 0 <= i < |tl| ensures back[i] == tl[i] {
      if tl[i].id == a.id {
        var m :| 0 <= m < |tl| && tl[m] == a;
        assert m == i;
      } else if tl[i].id == b.id {
        var m :| 0 <= m < |tl| && tl[m] == b;
        assert m == i;
      }
    }
  }

  /** A move followed by the opposite move of the same node restores the
      timeline, when ids are unique and the scope's orders are distinct. */
  lemma MoveThenBackRestores(prev: StoryBible, id: string, parentId: Option<string>, dir: Direction)
    requires DistinctIds(prev.timeline, EventId) && DistinctSiblingOrders(prev.timeline, parentId)
    requires SiblingMove(Siblings(prev.timeline, parentId), id, dir).Some?
    ensures MoveTimelineEvent(MoveTimelineEvent(prev, id, parentId, dir), id, parentId, Opposite(dir)) == prev
  {
    var tl := prev.timeline;
    var sib := Siblings(tl, parentId);
    var (k, t) := SiblingMove(sib, id, dir).value;
    SiblingsStrict(tl, parentId);
    SiblingIdsDistinct(tl, parentId);
    SiblingsFromTimeline(tl, parentId);
    var mid := prev.(timeline := ExchangeOrders(tl, sib[k], sib[t]));
    assert MoveTimelineEvent(prev, id, parentId, dir) == mid;
    SiblingsAfterExchange(tl, parentId, k, t);
    OppositeMoveInView(sib, id, dir);
    var view := SwapView(sib, k, t);
    assert MoveTimelineEvent(mid, id, parentId, Opposite(dir)) ==
           mid.(timeline := ExchangeOrders(mid.timeline, view[t], view[k]));
    ExchangeBack(tl, sib[k], sib[t]);
  }

  /** A saga with two arcs at orders 0 and 1: moving the second arc up gives
      it order 0 and the first arc order 1, so the sorted view lists the
      second arc first. */
  lemma MoveArcUpExample(prev: StoryBible)
    requires prev.timeline == [TimelineEvent("s1", Saga, "S1", "", None, 0),
                               TimelineEvent("a1", Arc, "A1", "", Some("s1"), 0),
                               TimelineEvent("a2", Arc, "A2", "", Some("s1"), 1)]
    ensures var r := MoveTimelineEvent(prev, "a2", Some("s1"), Up);
            |r.timeline| == 3 && r.timeline[0] == prev.timeline[0] &&
            r.timeline[1] == prev.timeline[1].(order := 1) && r.timeline[2] == prev.timeline[2].(order := 0) &&
            Siblings(r.timeline, Some("s1")) == [r.timeline[2], r.timeline[1]]
  {
    assert prev.timeline[0].id != "a2" && prev.timeline[0].id != "a1" && prev.timeline[1].id != "a2";
    MoveSecondUp(prev, "s1");
  }

  /** Of two siblings under `p`, moving the later one up exchanges their
      orders and puts it first in the sorted view; the third node is kept. */
  lemma MoveSecondUp(prev: StoryBible, p: string)
    requires |prev.timeline| == 3
    requires prev.timeline[0].parentId != Some(p)
    requires prev.timeline[1].parentId == Some(p) && prev.timeline[2].parentId == Some(p)
    requires prev.timeline[0].id != prev.timeline[1].id && prev.timeline[0].id != prev.timeline[2].id
    requires prev.timeline[1].id != prev.timeline[2].id
    requires prev.timeline[1].order < prev.timeline[2].order
    ensures var r := MoveTimelineEvent(prev, prev.timeline[2].id, Some(p), Up);
            |r.timeline| == 3 && r.timeline[0] == prev.timeline[0] &&
            r.timeline[1] == prev.timeline[1].(order := prev.timeline[2].order) &&
            r.timeline[2] == prev.timeline[2].(order := prev.timeline[1].order) &&
            Siblings(r.timeline, Some(p)) == [r.timeline[2], r.timeline[1]]
  {
    var tl := prev.timeline;
    MoveSecondUpOrders(prev, p);
    var e := MoveTimelineEvent(prev, tl[2].id, Some(p), Up).timeline;
    PairSiblings(e, p);
  }

  /** The three nodes after moving the later sibling up. */
  lemma MoveSecondUpOrders(prev: StoryBible, p: string)
    requires |prev.timeline| == 3
    requires prev.timeline[0].parentId != Some(p)
    requires prev.timeline[1].parentId == Some(p) && prev.timeline[2].parentId == Some(p)
    requires prev.timeline[0].id != prev.timeline[1].id && prev.timeline[0].id != prev.timeline[2].id
    requires prev.timeline[1].id != prev.timeline[2].id
    requires prev.timeline[1].order < prev.timeline[2].order
    ensures var r := MoveTimelineEvent(prev, prev.timeline[2].id, Some(p), Up);
            |r.timeline| == 3 && r.timeline[0] == prev.timeline[0] &&
            r.timeline[1] == prev.timeline[1].(order := prev.timeline[2].order) &&
            r.timeline[2] == prev.timeline[2].(order := prev.timeline[1].order)
  {
    var tl := prev.timeline;
    SecondUpPlan(tl, p);
    var e := ExchangeOrders(tl, tl[2], tl[1]);
    assert MoveTimelineEvent(prev, tl[2].id, Some(p), Up).timeline == e;
    assert e[0] == tl[0].(order := tl[0].order) == tl[0];
  }

  /** The sorted scope and the planned exchange when the later sibling moves up. */
  lemma SecondUpPlan(tl: seq<TimelineEvent>, p: string)
    requires |tl| == 3 && tl[0].parentId != Some(p) && tl[1].parentId == Some(p) && tl[2].parentId == Some(p)
    requires tl[1].id != tl[2].id && tl[1].order < tl[2].order
    ensures Siblings(tl, Some(p)) == [tl[1], tl[2]]
    ensures SiblingMove(Siblings(tl, Some(p)), tl[2].id, Up) == Some((1, 0))
  {
    PairSiblings(tl, p);
    var sib := Siblings(tl, Some(p));
    assert IndexOf(sib, tl[2].id, EventId) == 1;
  }

  /** The sorted scope `p` of a three-node list whose last two nodes hang under `p`. */
  lemma PairSiblings(tl: seq<TimelineEvent>, p: string)
    requires |tl| == 3 && tl[0].parentId != Some(p) && tl[1].parentId == Some(p) && tl[2].parentId == Some(p)
    ensures Siblings(tl, Some(p)) == if tl[1].order <= tl[2].order then [tl[1], tl[2]] else [tl[2], tl[1]]
  {
    PairScope(tl, p);
    SortTwo(tl[1], tl[2]);
  }

  lemma PairScope(tl: seq<TimelineEvent>, p: string)
    requires |tl| == 3 && tl[0].parentId != Some(p) && tl[1].parentId == Some(p) && tl[2].parentId == Some(p)
    ensures Filter(tl, SameParent(Some(p))) == [tl[1], tl[2]]
  {
    assert tl[1..][1..] == [tl[2]] && tl[1..][1..][1..] == [];
  }

  lemma SortTwo(x: TimelineEvent, y: TimelineEvent)
    ensures SortByOrder([x, y]) == if x.order <= y.order then [x, y] else [y, x]
  {
    assert [x, y][1..] == [y];
    assert SortByOrder([y]) == [y];
  }

  function Opposite(dir: Direction): (r: Direction)
    ensures r != dir
  {
    match dir
    case Up => Down
    case Down => Up
  }

  /** `updateTimelineEvent`: patches every node with the id. */
  function UpdateTimelineEvent(prev: StoryBible, id: string, u: EventPatch): (r: StoryBible)
    ensures r == prev.(timeline := r.timeline)
    ensures |r.timeline| == |prev.timeline|
    ensures forall i :: 0 <= i < |r.timeline| ==>
              r.timeline[i] == if prev.timeline[i].id == id
                               then ApplyEventPatch(prev.timeline[i], u)
                               else prev.timeline[i]
  {
    prev.(timeline := UpdateWhere(prev.timeline, (t: TimelineEvent) => t.id == id,
                                  (t: TimelineEvent) => ApplyEventPatch(t, u)))
  }

  // ---------------------------------------------------------------------------
  // Deleting a subtree

  /** The node's parent reference is set (a non-empty id) and lies in `ids`. */
  predicate ChildOf(t: TimelineEvent, ids: set<string>)
  {
    t.parentId.Some? && t.parentId.value != "" && t.parentId.value in ids
  }

  /** A set of ids closed under "is a child of". */
  predicate Closed(tl: seq<TimelineEvent>, ids: set<string>)
  {
    forall j :: 0 <= j < |tl| && ChildOf(tl[j], ids) ==> tl[j].id in ids
  }

  function TimelineIds(tl: seq<TimelineEvent>): set<string>
  {
    set j | 0 <= j < |tl| :: tl[j].id
  }

  /** The node and its transitive descendants: the least child-closed set of
      ids containing the root. */
  ghost function Subtree(tl: seq<TimelineEvent>, root: string): set<string>
  {
    set x | x in TimelineIds(tl) + {root} && forall T :: Closed(tl, T) && root in T ==> x in T
  }

  /** The subtree contains its root, is child-closed, and lies inside every
      child-closed set containing the root. */
  lemma SubtreeIsLeastClosed(tl: seq<TimelineEvent>, root: string)
    ensures root in Subtree(tl, root)
    ensures Closed(tl, Subtree(tl, root))
    ensures forall T :: Closed(tl, T) && root in T ==> Subtree(tl, root) <= T
  {
    var s := Subtree(tl, root);
    forall j | 0 <= j < |tl| && ChildOf(tl[j], s) ensures tl[j].id in s {
      assert tl[j].id in TimelineIds(tl);
      forall T | Closed(tl, T) && root in T ensures tl[j].id in T {
        assert ChildOf(tl[j], T);
      }
    }
  }

  /** `o => !idsToDelete.has(o.id)`. */
  function Outside(ids: set<string>): TimelineEvent -> bool
  {
    (t: TimelineEvent) => t.id !in ids
  }

  /** One `forEach` pass of `deleteTimelineEvent`: every node whose parent is
      already marked is marked too, in list order. `changed` reports growth;
      a pass without growth finds the set child-closed. */
  method MarkChildren(tl: seq<TimelineEvent>, doomed: set<string>) returns (grown: set<string>, changed: bool)
    ensures doomed <= grown <= doomed + TimelineIds(tl)
    ensures changed <==> doomed < grown
    ensures !changed ==> Closed(tl, grown)
    ensures forall T :: Closed(tl, T) && doomed <= T ==> grown <= T
  {
    grown, changed := doomed, false;
    for i := 0 to |tl|
      invariant doomed <= grown <= doomed + TimelineIds(tl)
      invariant changed <==> doomed < grown
      invariant forall T :: Closed(tl, T) && doomed <= T ==> grown <= T
      invariant !changed ==> forall j :: 0 <= j < i && ChildOf(tl[j], grown) ==> tl[j].id in grown
    {
      var t := tl[i];
      if t.parentId.Some? && t.parentId.value != "" && t.parentId.value in grown && t.id !in grown {
        assert t.id in TimelineIds(tl);
        grown := grown + {t.id};
        changed := true;
      }
    }
  }

  /** `deleteTimelineEvent`: grows the set of ids to delete to a fixed point,
      pass after pass over the timeline, then drops every node in it. */
  method DeleteTimelineEvent(prev: StoryBible, id: string, confirmed: bool) returns (r: StoryBible)
    ensures !confirmed ==> r == prev
    ensures confirmed ==> r == prev.(timeline := Filter(prev.timeline, Outside(Subtree(prev.timeline, id))))
  {
    if !confirmed {
      return prev;
    }
    var tl := prev.timeline;
    ghost var universe := TimelineIds(tl) + {id};
    var doomed := {id};
    var changed := true;
    while changed
      invariant id in doomed && doomed <= universe
      invariant forall T :: Closed(tl, T) && id in T ==> doomed <= T
      invariant !changed ==> Closed(tl, doomed)
      decreases (if changed then 1 else 0) + |universe - doomed|
    {
      ghost var before := doomed;
      doomed, changed := MarkChildren(tl, doomed);
      assert doomed <= universe;
      if changed {
        FewerLeft(universe, before, doomed);
      } else {
        assert doomed == before;
      }
    }
    FixedPointIsSubtree(tl, id, doomed);
    r := prev.(timeline := Filter(tl, Outside(doomed)));
  }

  /** Growing a set inside a bound leaves fewer elements of the bound outside it. */
  lemma FewerLeft(bound: set<string>, before: set<string>, after: set<string>)
    requires before < after <= bound
    ensures |bound - after| < |bound - before|
  {
    var x :| x in after && x !in before;
    assert bound - before == (bound - after) + (after - before);
    assert (bound - after) * (after - before) == {};
    assert x in after - before;
  }

  /** A child-closed set containing the root that lies inside every
      child-closed set containing the root is the subtree. */
  lemma FixedPointIsSubtree(tl: seq<TimelineEvent>, root: string, s: set<string>)
    requires root in s && s <= TimelineIds(tl) + {root} && Closed(tl, s)
    requires forall T :: Closed(tl, T) && root in T ==> s <= T
    ensures s == Subtree(tl, root)
  {
    SubtreeIsLeastClosed(tl, root);
  }

  /** What the deletion leaves: exactly the nodes outside the subtree, and none
      of them hangs under a deleted node. */
  lemma DeleteLeavesNoOrphans(tl: seq<TimelineEvent>, id: string)
    ensures var kept := Filter(tl, Outside(Subtree(tl, id)));
            (forall k :: 0 <= k < |kept| ==> kept[k] in tl && kept[k].id != id && !ChildOf(kept[k], Subtree(tl, id))) &&
            (forall k :: 0 <= k < |tl| && tl[k].id !in Subtree(tl, id) ==> tl[k] in kept)
  {
    var kept := Filter(tl, Outside(Subtree(tl, id)));
    SubtreeIsLeastClosed(tl, id);
    forall k | 0 <= k < |kept| ensures !ChildOf(kept[k], Subtree(tl, id)) {
      var j :| 0 <= j < |tl| && tl[j] == kept[k];
    }
  }
}
