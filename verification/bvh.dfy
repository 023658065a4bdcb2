/**
 * The bounding volume hierarchy accelerator (src/BVHAccelerator.c): a binary tree
 * built by median splits along a cycling axis, and a nearest-hit query that walks
 * it with a fixed-capacity explicit stack.
 *
 * The primitive set's own ray test (PrmRayIntersect) and the ray/box slab test
 * (BoxRayIntersect) are capabilities of the caller; they enter as function
 * parameters `found` and `boxHit` fixed for one ray.
 */
module Bvh {
  import opened Optional
  import opened Geometry

  /** Capacity of the traversal stack (BVH_STACKSIZE). */
  const BVH_STACKSIZE: int := 64

  /**
   * One entry of the build's working list: a primitive's box and its index in the
   * primitive set. The source also stores the centroid; it is the centre of the box.
   */
  datatype Primitive = Primitive(bounds: Box, index: nat)

  function CentroidOf(p: Primitive, axis: nat): real
    requires axis < 3
  {
    Coord(Centroid(p.bounds), axis)
  }

  /** A node as the source lays it out: two optional children, a box and a leaf index. */
  datatype BvhNode = BvhNode(left: Option<BvhNode>, right: Option<BvhNode>, bounds: Box, primId: int)

  /** new_bvhnode: no children, a zero box and prim_id -1. */
  function NewBvhNode(): (n: BvhNode)
    ensures !IsBvhLeaf(n)
  {
    BvhNode(None, None, ZeroBox, -1)
  }

  /** is_bvh_leaf */
  predicate IsBvhLeaf(n: BvhNode)
  {
    n.left.None? && n.right.None? && n.primId != -1
  }

  /**
   * The shape build_bvh produces and free_bvhnode_recursive asserts: a leaf carries a
   * primitive index; an internal node has both children, prim_id -1, and the union of
   * its children's boxes.
   */
  predicate WellFormed(n: BvhNode)
    decreases n
  {
    if IsBvhLeaf(n) then n.primId >= 0
    else
      && n.left.Some? && n.right.Some? && n.primId == -1
      && WellFormed(n.left.value) && WellFormed(n.right.value)
      && n.bounds == BoxAddBox(n.left.value.bounds, n.right.value.bounds)
  }

  /** The primitives stored in the leaves below `n`, each with the box of its leaf. */
  function LeafPrims(n: BvhNode): multiset<Primitive>
    decreases n
  {
    if IsBvhLeaf(n) then (if n.primId >= 0 then multiset{Primitive(n.bounds, n.primId)} else multiset{})
    else
      (if n.left.Some? then LeafPrims(n.left.value) else multiset{}) +
      (if n.right.Some? then LeafPrims(n.right.value) else multiset{})
  }

  function Height(n: BvhNode): nat
    decreases n
  {
    var hl := if n.left.Some? then Height(n.left.value) else 0;
    var hr := if n.right.Some? then Height(n.right.value) else 0;
    1 + Max2(hl, hr)
  }

  function Max2(a: nat, b: nat): nat { if a < b then b else a }

  function Size(n: BvhNode): nat
    decreases n
  {
    1 + (if n.left.Some? then Size(n.left.value) else 0)
      + (if n.right.Some? then Size(n.right.value) else 0)
  }

  /** The axis the next level splits on: X -> Y -> Z -> X. */
  function NextAxis(axis: nat): (r: nat)
    requires axis < 3
    ensures r < 3 && r == (axis + 1) % 3
  {
    if axis == 0 then 1 else if axis == 1 then 2 else 0
  }

  /**
   * Every internal node below `n` separates its primitives along its level's axis:
   * no centroid on the left lies beyond a centroid on the right. The root level
   * splits on `axis`, the next on NextAxis(axis), and so on.
   */
  ghost predicate SplitOrdered(n: BvhNode, axis: nat)
    requires axis < 3
    decreases n
  {
    !IsBvhLeaf(n) && n.left.Some? && n.right.Some? ==>
      && (forall p, q | p in LeafPrims(n.left.value) && q in LeafPrims(n.right.value) ::
            CentroidOf(p, axis) <= CentroidOf(q, axis))
      && SplitOrdered(n.left.value, NextAxis(axis))
      && SplitOrdered(n.right.value, NextAxis(axis))
  }

  // ---------------------------------------------------------------------------
  // Sorting a sub-range by centroid (the qsort call of build_bvh)
  // ---------------------------------------------------------------------------

  ghost predicate SortedByAxis(s: seq<Primitive>, axis: nat)
    requires axis < 3
  {
    forall i, j | 0 <= i < j < |s| :: CentroidOf(s[i], axis) <= CentroidOf(s[j], axis)
  }

  /** Places `p` before the first entry whose centroid is greater. */
  function Insert(p: Primitive, s: seq<Primitive>, axis: nat): seq<Primitive>
    requires axis < 3
  {
    if s == [] || CentroidOf(p, axis) <= CentroidOf(s[0], axis) then [p] + s
    else [s[0]] + Insert(p, s[1..], axis)
  }

  /** A sorted permutation of `s`; qsort promises no particular order among equal keys. */
  function SortByAxis(s: seq<Primitive>, axis: nat): seq<Primitive>
    requires axis < 3
  {
    if s == [] then [] else Insert(s[0], SortByAxis(s[1..], axis), axis)
  }

  lemma {:induction false} InsertPermutes(p: Primitive, s: seq<Primitive>, axis: nat)
    requires axis < 3
    ensures multiset(Insert(p, s, axis)) == multiset(s) + multiset{p}
    ensures |Insert(p, s, axis)| == |s| + 1
  {
    if s == [] || CentroidOf(p, axis) <= CentroidOf(s[0], axis) {
    } else {
      InsertPermutes(p, s[1..], axis);
      assert s == [s[0]] + s[1..];
    }
  }

  lemma {:induction false} InsertSorted(p: Primitive, s: seq<Primitive>, axis: nat)
    requires axis < 3
    requires SortedByAxis(s, axis)
    ensures SortedByAxis(Insert(p, s, axis), axis)
  {
    if s == [] || CentroidOf(p, axis) <= CentroidOf(s[0], axis) {
    } else {
      var t := s[1..];
      InsertSorted(p, t, axis);
      InsertPermutes(p, t, axis);
      var r := Insert(p, t, axis);
      forall k | 0 <= k < |r| ensures CentroidOf(s[0], axis) <= CentroidOf(r[k], axis) {
        assert r[k] in multiset(r);
        assert r[k] in multiset(t) || r[k] == p;
      }
    }
  }

  lemma {:induction false} SortByAxisCorrect(s: seq<Primitive>, axis: nat)
    requires axis < 3
    ensures SortedByAxis(SortByAxis(s, axis), axis)
    ensures multiset(SortByAxis(s, axis)) == multiset(s)
    ensures |SortByAxis(s, axis)| == |s|
  {
    if s != [] {
      var rest := SortByAxis(s[1..], axis);
      assert SortByAxis(s, axis) == Insert(s[0], rest, axis);
      SortByAxisCorrect(s[1..], axis);
      InsertSorted(s[0], rest, axis);
      InsertPermutes(s[0], rest, axis);
      assert s == [s[0]] + s[1..];
      assert multiset(s) == multiset(s[1..]) + multiset{s[0]};
    }
  }

  /** Two sequences that agree on [lo, hi) have equal slices there. */
  lemma SameSlice(a: seq<Primitive>, b: seq<Primitive>, lo: int, hi: int)
    requires 0 <= lo <= hi <= |a| && hi <= |b|
    requires forall k | lo <= k < hi :: a[k] == b[k]
    ensures a[lo..hi] == b[lo..hi]
  {
  }

  /**
   * qsort(primptrs + begin, NPRIMS, ...): the sub-range becomes a sorted permutation
   * of itself and nothing outside it changes.
   */
  method SortRange(prims: array<Primitive>, begin: int, end: int, axis: nat)
    requires 0 <= begin <= end <= prims.Length && axis < 3
    modifies prims
    ensures prims[begin..end] == SortByAxis(old(prims[begin..end]), axis)
    ensures forall k | 0 <= k < prims.Length && !(begin <= k < end) :: prims[k] == old(prims[k])
  {
    var sorted := SortByAxis(prims[begin..end], axis);
    assert |sorted| == end - begin by {
      SortByAxisCorrect(prims[begin..end], axis);
    }
    var i := begin;
    while i < end
      invariant begin <= i <= end
      invariant forall k | begin <= k < i :: prims[k] == sorted[k - begin]
      invariant forall k | 0 <= k < prims.Length && !(begin <= k < i) :: prims[k] == old(prims[k])
    {
      prims[i] := sorted[i - begin];
      i := i + 1;
    }
    assert prims[begin..end] == sorted;
  }

  // ---------------------------------------------------------------------------
  // find_median and build_bvh
  // ---------------------------------------------------------------------------

  /**
   * find_median: a one-sided binary search for the centroid midway between the first
   * and last centroid of the sorted range. For two or more entries the split point
   * lies strictly inside the range, so both halves are non-empty; the entry just
   * before it lies at or below the midpoint key.
   */
  method FindMedian(prims: array<Primitive>, begin: int, end: int, axis: nat) returns (m: int)
    requires 0 <= begin && end <= prims.Length && end - begin >= 2 && axis < 3
    requires CentroidOf(prims[begin], axis) <= CentroidOf(prims[end - 1], axis)
    ensures begin < m < end
    ensures CentroidOf(prims[m - 1], axis)
            <= (CentroidOf(prims[begin], axis) + CentroidOf(prims[end - 1], axis)) / 2.0
  {
    var low := begin;
    var high := end - 1;
    var mid := -1;
    var key := (CentroidOf(prims[low], axis) + CentroidOf(prims[high], axis)) / 2.0;
    while low != mid
      invariant begin <= low < high <= end - 1
      invariant CentroidOf(prims[low], axis) <= key <= CentroidOf(prims[high], axis)
      invariant mid == -1 || (low <= mid <= high && (mid == low ==> CentroidOf(prims[mid], axis) < key))
      decreases high - low, if low == mid then 0 else 1
    {
      mid := (low + high) / 2;
      if key < CentroidOf(prims[mid], axis) {
        high := mid;
      } else if CentroidOf(prims[mid], axis) < key {
        low := mid;
      } else {
        break;
      }
    }
    m := mid + 1;
  }

  lemma SliceSplit(s: seq<Primitive>, begin: int, m: int, end: int)
    requires 0 <= begin <= m <= end <= |s|
    ensures multiset(s[begin..end]) == multiset(s[begin..m]) + multiset(s[m..end])
  {
    assert s[begin..end] == s[begin..m] + s[m..end];
  }

  /** In a range sorted on `axis`, everything before a split point lies at or below everything after it. */
  lemma SortedSplitSeparates(s: seq<Primitive>, begin: int, m: int, end: int, axis: nat)
    requires 0 <= begin <= m <= end <= |s| && axis < 3
    requires SortedByAxis(s[begin..end], axis)
    ensures forall p, q | p in multiset(s[begin..m]) && q in multiset(s[m..end]) ::
              CentroidOf(p, axis) <= CentroidOf(q, axis)
  {
    forall p, q | p in multiset(s[begin..m]) && q in multiset(s[m..end])
      ensures CentroidOf(p, axis) <= CentroidOf(q, axis)
    {
      assert p in s[begin..m];
      assert q in s[m..end];
      var i :| begin <= i < m && s[i] == p;
      var j :| m <= j < end && s[j] == q;
      assert s[begin..end][i - begin] == p && s[begin..end][j - begin] == q;
    }
  }

  /**
   * The first half of build_bvh for two or more entries: sort the range on `axis`
   * and pick the split point with FindMedian. Both halves are non-empty, together
   * they hold the range's entries, and no centroid on the left exceeds one on the right.
   */
  method SortAndSplit(prims: array<Primitive>, begin: int, end: int, axis: nat) returns (median: int)
    requires 0 <= begin && end <= prims.Length && end - begin >= 2 && axis < 3
    modifies prims
    ensures begin < median < end
    ensures forall k | 0 <= k < prims.Length && !(begin <= k < end) :: prims[k] == old(prims[k])
    ensures multiset(prims[begin..median]) + multiset(prims[median..end]) == multiset(old(prims[begin..end]))
    ensures forall p, q | p in multiset(prims[begin..median]) && q in multiset(prims[median..end]) ::
              CentroidOf(p, axis) <= CentroidOf(q, axis)
  {
    ghost var s0 := prims[..];
    SortRange(prims, begin, end, axis);
    ghost var s1 := prims[..];
    assert s0[begin..end] == old(prims[begin..end]);
    SortByAxisCorrect(s0[begin..end], axis);
    assert prims[begin] == s1[begin..end][0] && prims[end - 1] == s1[begin..end][end - 1 - begin];
    median := FindMedian(prims, begin, end, axis);
    SliceSplit(s1, begin, median, end);
    SortedSplitSeparates(s1, begin, median, end, axis);
  }

  /** The internal node build_bvh assembles from two built halves. */
  lemma AssembleInner(left: BvhNode, right: BvhNode, axis: nat, a: multiset<Primitive>, b: multiset<Primitive>)
    requires axis < 3
    requires WellFormed(left) && WellFormed(right)
    requires LeafPrims(left) == a && LeafPrims(right) == b
    requires SplitOrdered(left, NextAxis(axis)) && SplitOrdered(right, NextAxis(axis))
    requires forall p, q | p in a && q in b :: CentroidOf(p, axis) <= CentroidOf(q, axis)
    ensures var n := NewBvhNode().(left := Some(left), right := Some(right), bounds := BoxAddBox(left.bounds, right.bounds));
      WellFormed(n) && LeafPrims(n) == a + b && SplitOrdered(n, axis)
  {
  }

  /**
   * build_bvh over prims[begin..end): one entry becomes a leaf carrying its index and
   * box; otherwise the range is sorted on `axis`, split at FindMedian, and both halves
   * are built on the next axis. The range is permuted in place; the tree holds every
   * entry of the range in exactly one leaf.
   */
  method BuildBvh(prims: array<Primitive>, begin: int, end: int, axis: nat) returns (node: BvhNode)
    requires 0 <= begin < end <= prims.Length && axis < 3
    modifies prims
    ensures forall k | 0 <= k < prims.Length && !(begin <= k < end) :: prims[k] == old(prims[k])
    ensures multiset(prims[begin..end]) == multiset(old(prims[begin..end]))
    ensures WellFormed(node)
    ensures LeafPrims(node) == multiset(old(prims[begin..end]))
    ensures SplitOrdered(node, axis)
    ensures end - begin == 1 ==> node == NewBvhNode().(primId := old(prims[begin].index), bounds := old(prims[begin].bounds))
    decreases end - begin
  {
    node := NewBvhNode();
    if end - begin == 1 {
      node := node.(primId := prims[begin].index, bounds := prims[begin].bounds);
      assert prims[begin..end] == [prims[begin]];
      return;
    }
    var newAxis := NextAxis(axis);
    ghost var s0 := prims[..];
    var median := SortAndSplit(prims, begin, end, axis);
    ghost var s1 := prims[..];
    var left := BuildBvh(prims, begin, median, newAxis);
    ghost var s2 := prims[..];
    SameSlice(s2, s1, median, end);
    var right := BuildBvh(prims, median, end, newAxis);
    ghost var s3 := prims[..];
    SameSlice(s3, s2, begin, median);
    SliceSplit(s3, begin, median, end);
    AssembleInner(left, right, axis, multiset(s1[begin..median]), multiset(s1[median..end]));
    node := node.(left := Some(left), right := Some(right), bounds := BoxAddBox(left.bounds, right.bounds));
  }

  /** The index list of the primitive set's boxes, as build_bvh_accel fills it. */
  function Primitives(bounds: seq<Box>): (ps: seq<Primitive>)
    ensures |ps| == |bounds|
    ensures forall i | 0 <= i < |ps| :: ps[i] == Primitive(bounds[i], i)
  {
    seq(|bounds|, i requires 0 <= i < |bounds| => Primitive(bounds[i], i))
  }

  /**
   * build_bvh_accel: collects every primitive's box and index into a working array and
   * builds the tree over all of them. An empty set would make build_bvh read before
   * the array (find_median on an empty range), so the set must be non-empty.
   */
  method BuildBvhAccel(bounds: seq<Box>) returns (root: BvhNode)
    requires |bounds| >= 1
    ensures WellFormed(root)
    ensures LeafPrims(root) == multiset(Primitives(bounds))
    ensures |LeafPrims(root)| == |bounds|
    ensures SplitOrdered(root, 0)
  {
    var n := |bounds|;
    var prims := new Primitive[n](i requires 0 <= i < n => Primitive(bounds[i], i));
    assert prims[0..n] == Primitives(bounds);
    root := BuildBvh(prims, 0, n, 0);
  }

  /** Each leaf's box lies inside the box of every node above it. */
  lemma {:induction false} LeafEnclosed(n: BvhNode, p: Primitive)
    requires WellFormed(n) && p in LeafPrims(n)
    ensures Encloses(n.bounds, p.bounds)
    decreases n
  {
    if !IsBvhLeaf(n) {
      var l, r := n.left.value, n.right.value;
      if p in LeafPrims(l) {
        LeafEnclosed(l, p);
        EnclosesTransitive(n.bounds, l.bounds, p.bounds);
      } else {
        LeafEnclosed(r, p);
        EnclosesTransitive(n.bounds, r.bounds, p.bounds);
      }
    }
  }

  /** The leaves of a well-formed tree are exactly its non-internal nodes: no internal node is a leaf. */
  lemma {:induction false} LeafCount(n: BvhNode)
    requires WellFormed(n)
    ensures |LeafPrims(n)| >= 1
    ensures IsBvhLeaf(n) <==> |LeafPrims(n)| == 1 && n.left.None?
    decreases n
  {
    if !IsBvhLeaf(n) {
      LeafCount(n.left.value);
      LeafCount(n.right.value);
    }
  }

  // ---------------------------------------------------------------------------
  // The traversal stack
  // ---------------------------------------------------------------------------

  /** BVHNodeStack: a fixed array of BVH_STACKSIZE node slots and a depth. */
  class BvhNodeStack {
    var depth: int
    const node: array<BvhNode>

    ghost predicate Valid()
      reads this
    {
      node.Length == BVH_STACKSIZE && 0 <= depth < BVH_STACKSIZE
    }

    /** The stacked nodes, bottom first. */
    ghost function Contents(): seq<BvhNode>
      reads this, node
      requires Valid()
    {
      node[..depth]
    }

    constructor ()
      ensures Valid() && fresh(node) && Contents() == []
    {
      depth := 0;
      node := new BvhNode[BVH_STACKSIZE];
    }

    /** is_empty */
    predicate IsEmpty()
      reads this, node
      requires Valid()
    {
      depth == 0
    }

    /** push_node: the slot write is followed by assert(depth < BVH_STACKSIZE). */
    method PushNode(n: BvhNode)
      requires Valid() && depth + 1 < BVH_STACKSIZE
      modifies this, node
      ensures Valid()
      ensures Contents() == old(Contents()) + [n]
    {
      node[depth] := n;
      depth := depth + 1;
    }

    /** pop_node: asserts the stack is not empty. */
    method PopNode() returns (n: BvhNode)
      requires Valid() && depth > 0
      modifies this
      ensures Valid()
      ensures n == old(Contents())[old(depth) - 1]
      ensures Contents() == old(Contents())[..old(depth) - 1]
    {
      depth := depth - 1;
      n := node[depth];
    }
  }

  // ---------------------------------------------------------------------------
  // The query
  // ---------------------------------------------------------------------------

  /**
   * The hit record. The source's record also holds position, normal, shader,
   * texture coordinates and derivatives; `prim` stands for all of them.
   */
  datatype Intersection = Intersection(tHit: real, prim: int)

  /** A primitive-set hit that prim_ray_intersect keeps: its t_hit lies in [tmin, tmax]. */
  predicate Accepted(found: Option<Intersection>, ray: Ray)
  {
    found.Some? && ray.tmin <= found.value.tHit <= ray.tmax
  }

  /**
   * prim_ray_intersect: `found` is what PrmRayIntersect reported and `scratch` the
   * record it wrote into. A miss, or a hit outside [tmin, tmax], reports no hit and
   * leaves t_hit at FLT_MAX.
   */
  function PrimRayIntersect(found: Option<Intersection>, scratch: Intersection, ray: Ray): (r: (bool, Intersection))
    ensures r.0 <==> Accepted(found, ray)
    ensures r.0 ==> r.1 == found.value
    ensures !r.0 ==> r.1.tHit == FLT_MAX
  {
    if found.None? then (false, scratch.(tHit := FLT_MAX))
    else if found.value.tHit < ray.tmin || ray.tmax < found.value.tHit then (false, found.value.(tHit := FLT_MAX))
    else (true, found.value)
  }

  /**
   * The primitive indices whose leaves the loop visits, in visiting order: at an
   * internal node each child whose box the ray hits, the left child first. The
   * root's own box is never intersected with the ray.
   */
  function Candidates(n: BvhNode, boxHit: Box -> bool): seq<int>
    decreases n
  {
    if IsBvhLeaf(n) then [n.primId]
    else
      (if n.left.Some? && boxHit(n.left.value.bounds) then Candidates(n.left.value, boxHit) else []) +
      (if n.right.Some? && boxHit(n.right.value.bounds) then Candidates(n.right.value, boxHit) else [])
  }

  /**
   * One leaf step of the loop: a candidate replaces the current nearest only when it is
   * accepted and strictly nearer, so the first of equal hits stays.
   */
  function Step(id: int, found: int -> Option<Intersection>, ray: Ray, state: (bool, Intersection)): (bool, Intersection)
  {
    if Accepted(found(id), ray) && found(id).value.tHit < state.1.tHit then (true, found(id).value) else state
  }

  /** The nearest-hit scan over candidate indices in order, from a starting (hit, nearest) state. */
  function Scan(ids: seq<int>, found: int -> Option<Intersection>, ray: Ray, state: (bool, Intersection)): (bool, Intersection)
    decreases |ids|
  {
    if ids == [] then state else Scan(ids[1..], found, ray, Step(ids[0], found, ray, state))
  }

  /** The state intersect_bvh_loop starts from: no hit, nearest at FLT_MAX. */
  const NoHit: (bool, Intersection) := (false, Intersection(FLT_MAX, -1))

  lemma {:induction false} ScanAppend(a: seq<int>, b: seq<int>, found: int -> Option<Intersection>, ray: Ray, state: (bool, Intersection))
    ensures Scan(a + b, found, ray, state) == Scan(b, found, ray, Scan(a, found, ray, state))
    decreases |a|
  {
    if a == [] {
      assert a + b == b;
    } else {
      assert (a + b)[0] == a[0];
      assert (a + b)[1..] == a[1..] + b;
      ScanAppend(a[1..], b, found, ray, Step(a[0], found, ray, state));
    }
  }

  /** The work left when the stack holds `st` (top last): each stacked subtree in pop order. */
  function StackWork(st: seq<BvhNode>, boxHit: Box -> bool): seq<int>
    decreases |st|
  {
    if st == [] then [] else Candidates(st[|st| - 1], boxHit) + StackWork(st[..|st| - 1], boxHit)
  }

  function StackSize(st: seq<BvhNode>): nat
    decreases |st|
  {
    if st == [] then 0 else Size(st[|st| - 1]) + StackSize(st[..|st| - 1])
  }

  /**
   * How many entries the loop stacks on top of what it already holds while it walks
   * `n` for this ray: a right child is pushed only when both children's boxes are hit,
   * and it waits while the left child is walked.
   */
  function StackNeed(n: BvhNode, boxHit: Box -> bool): nat
    decreases n
  {
    if IsBvhLeaf(n) || n.left.None? || n.right.None? then 0
    else
      var l, r := n.left.value, n.right.value;
      var hl, hr := boxHit(l.bounds), boxHit(r.bounds);
      if hl && hr then Max2(1 + StackNeed(l, boxHit), StackNeed(r, boxHit))
      else if hl then StackNeed(l, boxHit)
      else if hr then StackNeed(r, boxHit)
      else 0
  }

  /**
   * A tree at most BVH_STACKSIZE levels high never needs more than BVH_STACKSIZE - 1
   * stacked entries, whatever the ray: each push descends one level.
   */
  lemma {:induction false} StackNeedBelowHeight(n: BvhNode, boxHit: Box -> bool)
    ensures StackNeed(n, boxHit) < Height(n)
    decreases n
  {
    if n.left.Some? {
      StackNeedBelowHeight(n.left.value, boxHit);
    }
    if n.right.Some? {
      StackNeedBelowHeight(n.right.value, boxHit);
    }
  }

  /**
   * What the traversal keeps true of its stack `st` (bottom first): every stacked
   * subtree is well formed, and walking it from the slot it sits in never pushes past
   * the stack's capacity.
   */
  ghost predicate StackFits(st: seq<BvhNode>, boxHit: Box -> bool)
  {
    forall i | 0 <= i < |st| :: WellFormed(st[i]) && i + StackNeed(st[i], boxHit) < BVH_STACKSIZE
  }

  /** The candidates still owed when the loop stands at `node` with stack `st`. */
  function Remaining(node: BvhNode, st: seq<BvhNode>, boxHit: Box -> bool): seq<int>
  {
    Candidates(node, boxHit) + StackWork(st, boxHit)
  }

  /**
   * The four cases at an internal node: what is owed before the step is what is owed
   * after it, with the right child pushed when both children's boxes are hit.
   */
  lemma InnerRemaining(node: BvhNode, st: seq<BvhNode>, boxHit: Box -> bool)
    requires !IsBvhLeaf(node) && node.left.Some? && node.right.Some?
    ensures var hl, hr := boxHit(node.left.value.bounds), boxHit(node.right.value.bounds);
            (!hl && !hr ==> Remaining(node, st, boxHit) == StackWork(st, boxHit)) &&
            (hl && !hr ==> Remaining(node, st, boxHit) == Remaining(node.left.value, st, boxHit)) &&
            (!hl && hr ==> Remaining(node, st, boxHit) == Remaining(node.right.value, st, boxHit)) &&
            (hl && hr ==> Remaining(node, st, boxHit) == Remaining(node.left.value, st + [node.right.value], boxHit))
  {
    var l, r := node.left.value, node.right.value;
    var cl, cr, w := Candidates(l, boxHit), Candidates(r, boxHit), StackWork(st, boxHit);
    assert (st + [r])[..|st|] == st;
    assert StackWork(st + [r], boxHit) == cr + w;
    assert [] + w == w;
    assert (cl + []) + w == cl + w;
    assert ([] + cr) + w == cr + w;
    assert (cl + cr) + w == cl + (cr + w);
  }

  /** An internal node counts itself and both of its subtrees. */
  lemma InnerSize(n: BvhNode)
    requires n.left.Some? && n.right.Some?
    ensures Size(n) == 1 + Size(n.left.value) + Size(n.right.value)
  {
  }

  /** Pushing the right child of a node that fits keeps the stack fitting. */
  lemma PushRight(st: seq<BvhNode>, n: BvhNode, boxHit: Box -> bool)
    requires StackFits(st, boxHit) && WellFormed(n) && !IsBvhLeaf(n) && |st| + StackNeed(n, boxHit) < BVH_STACKSIZE
    requires boxHit(n.left.value.bounds) && boxHit(n.right.value.bounds)
    ensures |st| + 1 < BVH_STACKSIZE
    ensures StackFits(st + [n.right.value], boxHit)
    ensures |st + [n.right.value]| + StackNeed(n.left.value, boxHit) < BVH_STACKSIZE
    ensures StackSize(st + [n.right.value]) == Size(n.right.value) + StackSize(st)
  {
    assert (st + [n.right.value])[..|st|] == st;
  }

  /** Popping yields a well-formed subtree that fits, and its work is what the stack still owed. */
  lemma PopTop(st: seq<BvhNode>, boxHit: Box -> bool)
    requires StackFits(st, boxHit) && |st| > 0
    ensures StackFits(st[..|st| - 1], boxHit)
    ensures WellFormed(st[|st| - 1]) && |st| - 1 + StackNeed(st[|st| - 1], boxHit) < BVH_STACKSIZE
    ensures StackWork(st, boxHit) == Remaining(st[|st| - 1], st[..|st| - 1], boxHit)
    ensures StackSize(st) == Size(st[|st| - 1]) + StackSize(st[..|st| - 1])
  {
  }

  /** The work owed at a leaf is its own step followed by the stack's work. */
  lemma LeafOwes(node: BvhNode, st: seq<BvhNode>, boxHit: Box -> bool, found: int -> Option<Intersection>, ray: Ray,
                 state: (bool, Intersection))
    requires IsBvhLeaf(node)
    ensures Scan(Remaining(node, st, boxHit), found, ray, state) ==
            Scan(StackWork(st, boxHit), found, ray, Step(node.primId, found, ray, state))
  {
    assert ([node.primId] + StackWork(st, boxHit))[1..] == StackWork(st, boxHit);
  }

  /**
   * The leaf step of intersect_bvh_loop, with the scratch record and the pointer swap:
   * the (hit, nearest) pair becomes Step's.
   */
  method VisitLeaf(id: int, found: int -> Option<Intersection>, ray: Ray,
                   hit: bool, isectMin: Intersection, isectTmp: Intersection)
    returns (hit': bool, isectMin': Intersection, isectTmp': Intersection)
    ensures (hit', isectMin') == Step(id, found, ray, (hit, isectMin))
  {
    hit', isectMin' := hit, isectMin;
    var r := PrimRayIntersect(found(id), isectTmp, ray);
    var hittmp := r.0;
    isectTmp' := r.1;
    if hittmp && isectTmp'.tHit < isectMin'.tHit {
      isectMin', isectTmp' := isectTmp', isectMin';
      hit' := hittmp;
    }
  }

  /**
   * The internal-node step of intersect_bvh_loop: descends into the child whose box
   * the ray hits, into the left one with the right one pushed when both are hit, or
   * pops the stack when neither is. `done` reports an empty stack with nothing left
   * to visit. The work owed is unchanged and the traversal measure drops.
   */
  method VisitInner(stack: BvhNodeStack, node: BvhNode, boxHit: Box -> bool, ghost st: seq<BvhNode>)
    returns (done: bool, next: BvhNode, ghost st': seq<BvhNode>)
    requires stack.Valid() && stack.Contents() == st
    requires WellFormed(node) && !IsBvhLeaf(node) && StackFits(st, boxHit) && |st| + StackNeed(node, boxHit) < BVH_STACKSIZE
    modifies stack, stack.node
    ensures stack.Valid() && stack.Contents() == st'
    ensures done ==> Remaining(node, st, boxHit) == []
    ensures !done ==> WellFormed(next) && StackFits(st', boxHit) && |st'| + StackNeed(next, boxHit) < BVH_STACKSIZE
    ensures !done ==> Remaining(node, st, boxHit) == Remaining(next, st', boxHit)
    ensures !done ==> Size(next) + StackSize(st') < Size(node) + StackSize(st)
  {
    InnerRemaining(node, st, boxHit);
    InnerSize(node);
    var l, r := node.left.value, node.right.value;
    var hitLeft := boxHit(l.bounds);
    var hitRight := boxHit(r.bounds);
    done, next, st' := false, node, st;
    if !hitLeft && !hitRight {
      if stack.IsEmpty() {
        done := true;
        return;
      }
      PopTop(st, boxHit);
      next := stack.PopNode();
      st' := st[..|st| - 1];
    } else if hitLeft && !hitRight {
      next := l;
    } else if !hitLeft && hitRight {
      next := r;
    } else {
      PushRight(st, node, boxHit);
      stack.PushNode(r);
      next := l;
      st' := st + [r];
    }
  }

  /**
   * intersect_bvh_loop: walks the tree from the root with the explicit stack. The
   * result is the nearest-hit scan over the visited leaves in visiting order; the
   * caller's record changes only on a hit. The requirement is push_node's assertion
   * for this ray: no push takes the stack to BVH_STACKSIZE entries. Every tree at most
   * BVH_STACKSIZE levels high meets it (StackNeedBelowHeight).
   */
  method IntersectBvhLoop(root: BvhNode, boxHit: Box -> bool, found: int -> Option<Intersection>, ray: Ray,
                          isect: Intersection)
    returns (hit: bool, isectOut: Intersection)
    requires WellFormed(root) && StackNeed(root, boxHit) < BVH_STACKSIZE
    ensures hit == Scan(Candidates(root, boxHit), found, ray, NoHit).0
    ensures isectOut == if hit then Scan(Candidates(root, boxHit), found, ray, NoHit).1 else isect
  {
    hit := false;
    var isectMin := Intersection(FLT_MAX, -1);
    var isectTmp := Intersection(FLT_MAX, -1);
    var node := root;
    var stack := new BvhNodeStack();
    ghost var result := Scan(Candidates(root, boxHit), found, ray, NoHit);
    ghost var st: seq<BvhNode> := [];
    assert Remaining(root, [], boxHit) == Candidates(root, boxHit) + [] == Candidates(root, boxHit);

    while true
      invariant stack.Valid() && fresh(stack.node) && stack.Contents() == st
      invariant WellFormed(node) && StackFits(st, boxHit) && |st| + StackNeed(node, boxHit) < BVH_STACKSIZE
      invariant result == Scan(Remaining(node, st, boxHit), found, ray, (hit, isectMin))
      decreases Size(node) + StackSize(st)
    {
      if IsBvhLeaf(node) {
        LeafOwes(node, st, boxHit, found, ray, (hit, isectMin));
        hit, isectMin, isectTmp := VisitLeaf(node.primId, found, ray, hit, isectMin, isectTmp);
        if stack.IsEmpty() {
          break;
        }
        PopTop(st, boxHit);
        node := stack.PopNode();
        st := st[..|st| - 1];
        continue;
      }

      var done;
      done, node, st := VisitInner(stack, node, boxHit, st);
      if done {
        break;
      }
    }
    isectOut := if hit then isectMin else isect;
  }

  // ---------------------------------------------------------------------------
  // What the traversal computes
  // ---------------------------------------------------------------------------

  /**
   * The nearest-hit scan in closed form: the result is the start state, or a hit on
   * the first accepted candidate whose t_hit is the smallest and strictly below the
   * start's; no earlier accepted candidate is as near.
   */
  lemma {:induction false} ScanFirstNearest(ids: seq<int>, found: int -> Option<Intersection>, ray: Ray,
                                            state: (bool, Intersection))
    ensures var r := Scan(ids, found, ray, state);
            r == state ||
            (r.0 && r.1.tHit < state.1.tHit &&
             exists k :: 0 <= k < |ids| && Accepted(found(ids[k]), ray) && r.1 == found(ids[k]).value &&
               forall j :: 0 <= j < k && Accepted(found(ids[j]), ray) ==> r.1.tHit < found(ids[j]).value.tHit)
    decreases |ids|
  {
    if ids != [] {
      var s' := Step(ids[0], found, ray, state);
      var rest := ids[1..];
      var r := Scan(rest, found, ray, s');
      ScanFirstNearest(rest, found, ray, s');
      if r == s' {
        if s' != state {
          assert Accepted(found(ids[0]), ray) && r.1 == found(ids[0]).value;
        }
      } else {
        var k' :| 0 <= k' < |rest| && Accepted(found(rest[k']), ray) && r.1 == found(rest[k']).value &&
               forall j :: 0 <= j < k' && Accepted(found(rest[j]), ray) ==> r.1.tHit < found(rest[j]).value.tHit;
        assert ids[k' + 1] == rest[k'];
        forall j | 0 <= j < k' + 1 && Accepted(found(ids[j]), ray)
          ensures r.1.tHit < found(ids[j]).value.tHit
        {
          if j > 0 {
            assert ids[j] == rest[j - 1];
          }
        }
      }
    }
  }

  /** No accepted candidate is nearer than the scan's result, nor is the start. */
  lemma {:induction false} ScanNearest(ids: seq<int>, found: int -> Option<Intersection>, ray: Ray,
                                       state: (bool, Intersection))
    ensures Scan(ids, found, ray, state).1.tHit <= state.1.tHit
    ensures forall k :: 0 <= k < |ids| && Accepted(found(ids[k]), ray) ==>
              Scan(ids, found, ray, state).1.tHit <= found(ids[k]).value.tHit
    decreases |ids|
  {
    if ids != [] {
      var s' := Step(ids[0], found, ray, state);
      ScanNearest(ids[1..], found, ray, s');
      forall k | 0 < k < |ids|
        ensures ids[k] == ids[1..][k - 1]
      {
      }
    }
  }

  /** The scan reports a hit iff the start was one or some accepted candidate lies strictly nearer than the start. */
  lemma {:induction false} ScanHit(ids: seq<int>, found: int -> Option<Intersection>, ray: Ray,
                                   state: (bool, Intersection))
    ensures Scan(ids, found, ray, state).0 <==>
            state.0 || exists k :: 0 <= k < |ids| && Accepted(found(ids[k]), ray) && found(ids[k]).value.tHit < state.1.tHit
    decreases |ids|
  {
    if ids != [] {
      var s' := Step(ids[0], found, ray, state);
      var rest := ids[1..];
      ScanHit(rest, found, ray, s');
      if s' == state {
        forall k | 0 < k < |ids|
          ensures ids[k] == rest[k - 1]
        {
        }
      } else if exists k :: 0 <= k < |rest| && Accepted(found(rest[k]), ray) && found(rest[k]).value.tHit < s'.1.tHit {
        var k :| 0 <= k < |rest| && Accepted(found(rest[k]), ray) && found(rest[k]).value.tHit < s'.1.tHit;
        assert ids[k + 1] == rest[k];
      }
    }
  }

  /**
   * Two candidate lists whose accepted entries are the same indices give the same
   * verdict and the same nearest t_hit, whatever their order and repetitions.
   */
  lemma SameAcceptedScan(a: seq<int>, b: seq<int>, found: int -> Option<Intersection>, ray: Ray,
                         state: (bool, Intersection))
    requires forall k :: 0 <= k < |a| && Accepted(found(a[k]), ray) ==> a[k] in b
    requires forall k :: 0 <= k < |b| && Accepted(found(b[k]), ray) ==> b[k] in a
    ensures Scan(a, found, ray, state).0 == Scan(b, found, ray, state).0
    ensures Scan(a, found, ray, state).1.tHit == Scan(b, found, ray, state).1.tHit
  {
    var ra, rb := Scan(a, found, ray, state), Scan(b, found, ray, state);
    ScanHit(a, found, ray, state);
    ScanHit(b, found, ray, state);
    ScanNearest(a, found, ray, state);
    ScanNearest(b, found, ray, state);
    ScanFirstNearest(a, found, ray, state);
    ScanFirstNearest(b, found, ray, state);
    if exists k :: 0 <= k < |a| && Accepted(found(a[k]), ray) && found(a[k]).value.tHit < state.1.tHit {
      var k :| 0 <= k < |a| && Accepted(found(a[k]), ray) && found(a[k]).value.tHit < state.1.tHit;
      var kb :| 0 <= kb < |b| && b[kb] == a[k];
      assert Accepted(found(b[kb]), ray) && found(b[kb]).value.tHit < state.1.tHit;
    }
    if exists k :: 0 <= k < |b| && Accepted(found(b[k]), ray) && found(b[k]).value.tHit < state.1.tHit {
      var k :| 0 <= k < |b| && Accepted(found(b[k]), ray) && found(b[k]).value.tHit < state.1.tHit;
      var ka :| 0 <= ka < |a| && a[ka] == b[k];
      assert Accepted(found(a[ka]), ray) && found(a[ka]).value.tHit < state.1.tHit;
    }
    if ra != state {
      var k :| 0 <= k < |a| && Accepted(found(a[k]), ray) && ra.1 == found(a[k]).value;
      var kb :| 0 <= kb < |b| && b[kb] == a[k];
      assert rb.1.tHit <= found(b[kb]).value.tHit;
    }
    if rb != state {
      var k :| 0 <= k < |b| && Accepted(found(b[k]), ray) && rb.1 == found(b[k]).value;
      var ka :| 0 <= ka < |a| && a[ka] == b[k];
      assert ra.1.tHit <= found(a[ka]).value.tHit;
    }
  }

  /**
   * The assumption the traversal's correctness rests on: the box test never misses a
   * box that encloses a primitive the primitive test accepts.
   */
  ghost predicate BoxSound(boxHit: Box -> bool, found: int -> Option<Intersection>, ray: Ray, bounds: seq<Box>)
  {
    forall i, b :: 0 <= i < |bounds| && Accepted(found(i), ray) && Encloses(b, bounds[i]) ==> boxHit(b)
  }

  /** Every visited index is the index of one of the tree's leaves. */
  lemma {:induction false} CandidatesInRange(n: BvhNode, boxHit: Box -> bool, count: nat)
    requires WellFormed(n)
    requires forall p :: p in LeafPrims(n) ==> p.index < count
    ensures forall x :: x in Candidates(n, boxHit) ==> 0 <= x < count
    decreases n
  {
    if IsBvhLeaf(n) {
      assert Primitive(n.bounds, n.primId) in LeafPrims(n);
    } else {
      CandidatesInRange(n.left.value, boxHit, count);
      CandidatesInRange(n.right.value, boxHit, count);
    }
  }

  /** Under a sound box test, every leaf whose primitive is accepted is visited. */
  lemma {:induction false} CandidatesComplete(n: BvhNode, boxHit: Box -> bool, found: int -> Option<Intersection>,
                                              ray: Ray, bounds: seq<Box>)
    requires WellFormed(n) && BoxSound(boxHit, found, ray, bounds)
    requires forall p :: p in LeafPrims(n) ==> p.index < |bounds| && bounds[p.index] == p.bounds
    ensures forall p :: p in LeafPrims(n) && Accepted(found(p.index), ray) ==> p.index in Candidates(n, boxHit)
    decreases n
  {
    if !IsBvhLeaf(n) {
      var l, r := n.left.value, n.right.value;
      CandidatesComplete(l, boxHit, found, ray, bounds);
      CandidatesComplete(r, boxHit, found, ray, bounds);
      forall p | p in LeafPrims(n) && Accepted(found(p.index), ray)
        ensures p.index in Candidates(n, boxHit)
      {
        if p in LeafPrims(l) {
          LeafEnclosed(l, p);
          assert boxHit(l.bounds);
        } else {
          LeafEnclosed(r, p);
          assert boxHit(r.bounds);
        }
      }
    }
  }

  /** The linear reference: every primitive index once, in order. */
  function AllIndices(count: nat): (ids: seq<int>)
    ensures |ids| == count && forall i | 0 <= i < count :: ids[i] == i
  {
    seq(count, i => i)
  }

  /** An index list with no repeats counts each of its entries once. */
  lemma {:induction false} CountDistinct(s: seq<Primitive>, x: Primitive)
    requires forall i, j | 0 <= i < j < |s| :: s[i] != s[j]
    ensures x in s ==> multiset(s)[x] == 1
    decreases |s|
  {
    if s != [] {
      var t := s[..|s| - 1];
      assert s == t + [s[|s| - 1]];
      CountDistinct(t, x);
      if x == s[|s| - 1] {
        assert x !in t;
      }
    }
  }

  /**
   * The tree built over n boxes has exactly one leaf per primitive index, carrying that
   * primitive's box, and nothing else.
   */
  lemma EachIndexOnce(root: BvhNode, bounds: seq<Box>)
    requires LeafPrims(root) == multiset(Primitives(bounds))
    ensures forall i | 0 <= i < |bounds| :: LeafPrims(root)[Primitive(bounds[i], i)] == 1
    ensures forall p :: p in LeafPrims(root) ==> p.index < |bounds| && p.bounds == bounds[p.index]
  {
    var ps := Primitives(bounds);
    forall i | 0 <= i < |bounds|
      ensures LeafPrims(root)[Primitive(bounds[i], i)] == 1
    {
      CountDistinct(ps, Primitive(bounds[i], i));
      assert ps[i] == Primitive(bounds[i], i);
    }
    forall p | p in LeafPrims(root)
      ensures p.index < |bounds| && p.bounds == bounds[p.index]
    {
      assert p in ps;
    }
  }

  /**
   * The traversal over a tree built from `bounds` agrees with a linear scan of every
   * primitive: same verdict, same nearest t_hit. With the loop's own contract this
   * says intersect_bvh_loop finds a hit iff some primitive is accepted nearer than
   * FLT_MAX, and that no accepted primitive is nearer than the one it reports.
   */
  lemma TraversalIsLinearScan(root: BvhNode, bounds: seq<Box>, boxHit: Box -> bool,
                              found: int -> Option<Intersection>, ray: Ray)
    requires WellFormed(root) && LeafPrims(root) == multiset(Primitives(bounds))
    requires BoxSound(boxHit, found, ray, bounds)
    ensures var t, s := Scan(Candidates(root, boxHit), found, ray, NoHit), Scan(AllIndices(|bounds|), found, ray, NoHit);
            t.0 == s.0 && t.1.tHit == s.1.tHit
    ensures Scan(Candidates(root, boxHit), found, ray, NoHit).0 <==>
            exists i :: 0 <= i < |bounds| && Accepted(found(i), ray) && found(i).value.tHit < FLT_MAX
    ensures forall i :: 0 <= i < |bounds| && Accepted(found(i), ray) ==>
              Scan(Candidates(root, boxHit), found, ray, NoHit).1.tHit <= found(i).value.tHit
  {
    var cands, all := Candidates(root, boxHit), AllIndices(|bounds|);
    EachIndexOnce(root, bounds);
    CandidatesInRange(root, boxHit, |bounds|);
    CandidatesComplete(root, boxHit, found, ray, bounds);
    forall k | 0 <= k < |cands| && Accepted(found(cands[k]), ray)
      ensures cands[k] in all
    {
      assert cands[k] in cands;
      assert all[cands[k]] == cands[k];
    }
    forall k | 0 <= k < |all| && Accepted(found(all[k]), ray)
      ensures all[k] in cands
    {
      var p := Primitive(bounds[k], k);
      assert Primitives(bounds)[k] == p;
      assert p in LeafPrims(root);
    }
    SameAcceptedScan(cands, all, found, ray, NoHit);
    ScanHit(all, found, ray, NoHit);
    ScanNearest(cands, found, ray, NoHit);
    if exists i :: 0 <= i < |bounds| && Accepted(found(i), ray) && found(i).value.tHit < FLT_MAX {
      var i :| 0 <= i < |bounds| && Accepted(found(i), ray) && found(i).value.tHit < FLT_MAX;
      assert all[i] == i;
    }
    forall i | 0 <= i < |bounds| && Accepted(found(i), ray)
      ensures Scan(cands, found, ray, NoHit).1.tHit <= found(i).value.tHit
    {
      assert all[i] == i;
      assert i in cands;
    }
  }
}
