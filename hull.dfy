/**
 * A model of d3.geom.hull (src/geom/hull.js), Graham's scan over the indices
 * of the input vertices.
 *
 * Coordinates are integers. The two floating-point pieces of the original are
 * parameters of the model: `atan2` stands for Math.atan2 and is applied to the
 * same (dy, dx) differences as the original, and `isNonLeft` stands for the
 * law-of-cosines turn test d3_geom_hullIsNonLeft.
 */
module GeomHull {

  /** An input vertex [x, y]. */
  datatype Point = Point(x: int, y: int)

  /** An element of the `points` array: the polar angle of vertex `index` as seen from the pivot. */
  datatype AngleRecord = AngleRecord(angle: real, index: int)

  /** The value written into `index` when a record is tossed out. */
  const Tombstone: int := -1

  /**
   * The one way the original fails: while seeding the stack it reads
   * `points[j].index` past the end of `points` (a TypeError in JavaScript).
   */
  datatype HullError = PastEndOfPoints

  datatype Result<T> = Ok(value: T) | Err(error: HullError)

  predicate Live(r: AngleRecord) { r.index != Tombstone }

  /*
   * ---------------------------------------------------------------------
   * Pivot selection
   * ---------------------------------------------------------------------
   */

  /** `p` is strictly lower than `q`, or on the same height and strictly left of it. */
  predicate LowerLeft(p: Point, q: Point) {
    p.y < q.y || (p.y == q.y && p.x < q.x)
  }

  /**
   * `h` is the pivot among the first `n` vertices: no vertex is lower-left of
   * it, and every vertex before it is strictly upper-right of it (so on a full
   * tie the earliest index is the pivot).
   */
  ghost predicate IsPivot(vs: seq<Point>, n: nat, h: int)
    requires n <= |vs|
  {
    && 0 <= h < n
    && (forall i :: 0 <= i < n ==> !LowerLeft(vs[i], vs[h]))
    && (forall i :: 0 <= i < h ==> LowerLeft(vs[h], vs[i]))
  }

  /** The reference vertex the scan of the first `n` vertices settles on. */
  function Pivot(vs: seq<Point>, n: nat): (h: nat)
    requires 0 < n <= |vs|
    ensures IsPivot(vs, n, h)
  {
    if n == 1 then 0
    else
      var h := Pivot(vs, n - 1);
      if vs[n - 1].y < vs[h].y then n - 1
      else if vs[n - 1].y == vs[h].y && vs[n - 1].x < vs[h].x then n - 1
      else h
  }

  /** Lines 20-26: the starting reference point, lowest and then leftmost. */
  method FindPivot(vs: seq<Point>) returns (h: int)
    requires |vs| > 0
    ensures h == Pivot(vs, |vs|)
  {
    h := 0;
    for i := 1 to |vs|
      invariant h == Pivot(vs, i)
    {
      if vs[i].y < vs[h].y {
        h := i;
      } else if vs[i].y == vs[h].y {
        h := if vs[i].x < vs[h].x then i else h;
      }
    }
  }

  /*
   * ---------------------------------------------------------------------
   * Angle records and their sort
   * ---------------------------------------------------------------------
   */

  /** The polar angle of vertex `i` from the pivot `h`, as line 33 computes it. */
  function AngleFrom(vs: seq<Point>, h: int, atan2: (int, int) -> real, i: int): real
    requires 0 <= h < |vs| && 0 <= i < |vs|
  {
    atan2(vs[i].y - vs[h].y, vs[i].x - vs[h].x)
  }

  /**
   * `s` holds one record per vertex other than the pivot, and nothing else:
   * every record names an in-range, non-pivot vertex with that vertex's
   * angle, no vertex is named twice, and every non-pivot vertex is named.
   */
  ghost predicate RecordsOf(vs: seq<Point>, h: int, atan2: (int, int) -> real, s: seq<AngleRecord>)
    requires 0 <= h < |vs|
  {
    && |s| == |vs| - 1
    && (forall k :: 0 <= k < |s| ==>
          0 <= s[k].index < |vs| && s[k].index != h && s[k].angle == AngleFrom(vs, h, atan2, s[k].index))
    && (forall p, q :: 0 <= p < q < |s| ==> s[p].index != s[q].index)
    && (forall i :: 0 <= i < |vs| && i != h ==> AngleRecord(AngleFrom(vs, h, atan2, i), i) in s)
  }

  /** Lines 29-34: one record per non-pivot vertex, in vertex order. */
  method AngleRecords(vs: seq<Point>, h: int, atan2: (int, int) -> real) returns (points: array<AngleRecord>)
    requires 0 <= h < |vs|
    ensures fresh(points)
    ensures RecordsOf(vs, h, atan2, points[..])
    ensures forall k :: 0 <= k < points.Length ==> points[k].index == if k < h then k else k + 1
  {
    points := new AngleRecord[|vs| - 1];
    var n := 0;
    for i := 0 to |vs|
      invariant n == if i <= h then i else i - 1
      invariant forall k :: 0 <= k < n ==>
                  points[k] == AngleRecord(AngleFrom(vs, h, atan2, if k < h then k else k + 1), if k < h then k else k + 1)
    {
      if i != h {
        points[n] := AngleRecord(AngleFrom(vs, h, atan2, i), i);
        n := n + 1;
      }
    }
    forall i | 0 <= i < |vs| && i != h
      ensures AngleRecord(AngleFrom(vs, h, atan2, i), i) in points[..]
    {
      var k := if i < h then i else i - 1;
      assert points[..][k] == AngleRecord(AngleFrom(vs, h, atan2, i), i);
    }
  }

  predicate SortedByAngle(s: seq<AngleRecord>) {
    forall p, q :: 0 <= p < q < |s| ==> s[p].angle <= s[q].angle
  }

  /** Line 35: the records in non-decreasing angle order (an insertion sort). */
  method SortByAngle(a: array<AngleRecord>)
    modifies a
    ensures SortedByAngle(a[..])
    ensures multiset(a[..]) == multiset(old(a[..]))
  {
    for i := 0 to a.Length
      invariant SortedByAngle(a[..i])
      invariant multiset(a[..]) == multiset(old(a[..]))
    {
      InsertIntoSorted(a, i);
    }
    assert a[..] == a[..a.Length];
  }

  /** Moves `a[i]` down into the sorted prefix `a[..i]`. */
  method InsertIntoSorted(a: array<AngleRecord>, i: int)
    requires 0 <= i < a.Length && SortedByAngle(a[..i])
    modifies a
    ensures SortedByAngle(a[..i + 1])
    ensures a[i + 1..] == old(a[i + 1..])
    ensures multiset(a[..]) == multiset(old(a[..]))
  {
    var j := i;
    while 0 < j && a[j].angle < a[j - 1].angle
      invariant 0 <= j <= i
      invariant forall p, q :: 0 <= p < q <= i && p != j && q != j ==> a[p].angle <= a[q].angle
      invariant forall q :: j < q <= i ==> a[j].angle <= a[q].angle
      invariant 0 < j < i ==> a[j - 1].angle <= a[j + 1].angle
      invariant forall q :: i < q < a.Length ==> a[q] == old(a[q])
      invariant multiset(a[..]) == multiset(old(a[..]))
    {
      SwapAdjacent(a, j);
      j := j - 1;
    }
    InsertedSorted(a[..], i, j);
  }

  /** Where the insertion loop stops, the record at `j` fits between its neighbours and `s[..i + 1]` is sorted. */
  lemma InsertedSorted(s: seq<AngleRecord>, i: int, j: int)
    requires 0 <= j <= i < |s|
    requires forall p, q :: 0 <= p < q <= i && p != j && q != j ==> s[p].angle <= s[q].angle
    requires forall q :: j < q <= i ==> s[j].angle <= s[q].angle
    requires 0 < j ==> s[j - 1].angle <= s[j].angle
    ensures SortedByAngle(s[..i + 1])
  {
  }

  method SwapAdjacent(a: array<AngleRecord>, j: int)
    requires 0 < j < a.Length
    modifies a
    ensures a[j - 1] == old(a[j]) && a[j] == old(a[j - 1])
    ensures forall k :: 0 <= k < a.Length && k != j - 1 && k != j ==> a[k] == old(a[k])
    ensures multiset(a[..]) == multiset(old(a[..]))
  {
    a[j - 1], a[j] := a[j], a[j - 1];
  }

  predicate Distinct<T(==)>(s: seq<T>) {
    forall p, q :: 0 <= p < q < |s| ==> s[p] != s[q]
  }

  lemma {:induction false} DistinctCountsOnce<T>(s: seq<T>, x: T)
    requires Distinct(s)
    ensures multiset(s)[x] <= 1
  {
    if s != [] {
      assert s == [s[0]] + s[1..];
      DistinctCountsOnce(s[1..], x);
      if x == s[0] {
        assert x !in s[1..];
      }
    }
  }

  /** A rearrangement of a sequence without repetitions has no repetitions. */
  lemma PermutationKeepsDistinct<T>(s: seq<T>, t: seq<T>)
    requires multiset(s) == multiset(t) && Distinct(t)
    ensures Distinct(s)
  {
    forall p, q | 0 <= p < q < |s|
      ensures s[p] != s[q]
    {
      assert s == s[..p] + [s[p]] + s[p + 1..q] + [s[q]] + s[q + 1..];
      DistinctCountsOnce(t, s[p]);
    }
  }

  /** Sorting keeps one record per non-pivot vertex. */
  lemma SortedRecordsOf(vs: seq<Point>, h: int, atan2: (int, int) -> real, s: seq<AngleRecord>, t: seq<AngleRecord>)
    requires 0 <= h < |vs| && RecordsOf(vs, h, atan2, t) && multiset(s) == multiset(t)
    ensures RecordsOf(vs, h, atan2, s)
  {
    assert |s| == |multiset(s)| == |multiset(t)| == |t|;
    forall k | 0 <= k < |s|
      ensures 0 <= s[k].index < |vs| && s[k].index != h && s[k].angle == AngleFrom(vs, h, atan2, s[k].index)
    {
      assert s[k] in multiset(t);
    }
    PermutationKeepsDistinct(s, t);
    forall i | 0 <= i < |vs| && i != h
      ensures AngleRecord(AngleFrom(vs, h, atan2, i), i) in s
    {
      assert AngleRecord(AngleFrom(vs, h, atan2, i), i) in multiset(t);
    }
  }

  /*
   * ---------------------------------------------------------------------
   * Tossing out duplicate angles
   * ---------------------------------------------------------------------
   */

  predicate IndicesIn(s: seq<AngleRecord>, n: int) {
    forall k :: 0 <= k < |s| ==> 0 <= s[k].index < n
  }

  /** The squared distance of vertex `i` from vertex `h`, as lines 45-49 and 94-98 compute it. */
  function SquaredDistance(vs: seq<Point>, h: int, i: int): int
    requires 0 <= h < |vs| && 0 <= i < |vs|
  {
    var dx := vs[i].x - vs[h].x;
    var dy := vs[i].y - vs[h].y;
    dx * dx + dy * dy
  }

  /**
   * Among the first `n` records with the angle of record `k`, record `k` is the
   * first one farthest from the pivot: every earlier one is strictly nearer and
   * no later one is farther.
   */
  ghost predicate FarthestFirst(s: seq<AngleRecord>, vs: seq<Point>, h: int, n: int, k: int)
    requires 0 <= h < |vs| && IndicesIn(s, |vs|) && 0 <= n <= |s| && 0 <= k < |s|
  {
    forall m :: 0 <= m < n && s[m].angle == s[k].angle ==>
      && (m < k ==> SquaredDistance(vs, h, s[m].index) < SquaredDistance(vs, h, s[k].index))
      && (k < m ==> SquaredDistance(vs, h, s[m].index) <= SquaredDistance(vs, h, s[k].index))
  }

  /** Record `k` survives the dedup pass. */
  ghost predicate Survives(s: seq<AngleRecord>, vs: seq<Point>, h: int, k: int)
    requires 0 <= h < |vs| && IndicesIn(s, |vs|) && 0 <= k < |s|
  {
    FarthestFirst(s, vs, h, |s|, k)
  }

  /** What the dedup pass leaves of the records `s`: every record that does not survive is tombstoned. */
  ghost function AfterToss(s: seq<AngleRecord>, vs: seq<Point>, h: int): (t: seq<AngleRecord>)
    requires 0 <= h < |vs| && IndicesIn(s, |vs|)
    ensures |t| == |s|
    ensures forall k :: 0 <= k < |s| ==> t[k].angle == s[k].angle
    ensures forall k :: 0 <= k < |s| ==> t[k] == s[k] || t[k].index == Tombstone
  {
    seq(|s|, k requires 0 <= k < |s| =>
      if Survives(s, vs, h, k) then s[k] else s[k].(index := Tombstone))
  }

  /** Record `k` as the dedup pass leaves it once it has looked at the first `n` records. */
  ghost function Marked(s: seq<AngleRecord>, vs: seq<Point>, h: int, n: int, k: int): AngleRecord
    requires 0 <= h < |vs| && IndicesIn(s, |vs|) && 0 <= n <= |s| && 0 <= k < |s|
  {
    if FarthestFirst(s, vs, h, n, k) then s[k] else s[k].(index := Tombstone)
  }

  lemma FarthestFirstUnique(s: seq<AngleRecord>, vs: seq<Point>, h: int, n: int, k: int, u: int)
    requires 0 <= h < |vs| && IndicesIn(s, |vs|) && 0 <= n <= |s| && 0 <= k < n && 0 <= u < n
    requires s[k].angle == s[u].angle && FarthestFirst(s, vs, h, n, k) && FarthestFirst(s, vs, h, n, u)
    ensures k == u
  {
    assert s[u].angle == s[k].angle;
  }

  /** `p` is the records `s` as the dedup pass leaves them after looking at the first `n`. */
  ghost predicate TossedUpTo(p: seq<AngleRecord>, s: seq<AngleRecord>, vs: seq<Point>, h: int, n: int)
    requires 0 <= h < |vs| && IndicesIn(s, |vs|) && 0 <= n <= |s|
  {
    && |p| == |s|
    && (forall k :: 0 <= k < n ==> p[k] == Marked(s, vs, h, n, k))
    && (forall k :: n <= k < |s| ==> p[k] == s[k])
  }

  /** Record `i` opens a new run: it is the survivor of its run so far, and nothing else changes. */
  lemma TossNewRun(p: seq<AngleRecord>, s: seq<AngleRecord>, vs: seq<Point>, h: int, i: int)
    requires 0 <= h < |vs| && IndicesIn(s, |vs|) && 0 <= i < |s| && TossedUpTo(p, s, vs, h, i)
    requires forall m :: 0 <= m < i ==> s[m].angle != s[i].angle
    ensures FarthestFirst(s, vs, h, i + 1, i)
    ensures TossedUpTo(p, s, vs, h, i + 1)
  {
    forall k | 0 <= k < i
      ensures Marked(s, vs, h, i + 1, k) == Marked(s, vs, h, i, k)
    {
    }
  }

  /** Record `i` is no farther than the survivor `u` of its run: `i` is tossed, `u` stays. */
  lemma TossLater(p: seq<AngleRecord>, s: seq<AngleRecord>, vs: seq<Point>, h: int, i: int, u: int)
    requires 0 <= h < |vs| && IndicesIn(s, |vs|) && 0 <= u < i < |s| && TossedUpTo(p, s, vs, h, i)
    requires FarthestFirst(s, vs, h, i, u) && s[u].angle == s[i].angle
    requires SquaredDistance(vs, h, s[u].index) >= SquaredDistance(vs, h, s[i].index)
    ensures FarthestFirst(s, vs, h, i + 1, u)
    ensures TossedUpTo(p[i := p[i].(index := Tombstone)], s, vs, h, i + 1)
  {
    forall k | 0 <= k < i
      ensures Marked(s, vs, h, i + 1, k) == Marked(s, vs, h, i, k)
    {
      if k != u && s[k].angle == s[i].angle && FarthestFirst(s, vs, h, i, k) {
        FarthestFirstUnique(s, vs, h, i, k, u);
      }
    }
  }

  /** Record `i` is farther than the survivor `u` of its run: `u` is tossed and `i` takes its place. */
  lemma TossEarlier(p: seq<AngleRecord>, s: seq<AngleRecord>, vs: seq<Point>, h: int, i: int, u: int)
    requires 0 <= h < |vs| && IndicesIn(s, |vs|) && 0 <= u < i < |s| && TossedUpTo(p, s, vs, h, i)
    requires FarthestFirst(s, vs, h, i, u) && s[u].angle == s[i].angle
    requires SquaredDistance(vs, h, s[u].index) < SquaredDistance(vs, h, s[i].index)
    ensures FarthestFirst(s, vs, h, i + 1, i)
    ensures TossedUpTo(p[u := p[u].(index := Tombstone)], s, vs, h, i + 1)
  {
    forall k | 0 <= k < i && k != u
      ensures Marked(s, vs, h, i + 1, k) == Marked(s, vs, h, i, k)
    {
      if s[k].angle == s[i].angle && FarthestFirst(s, vs, h, i, k) {
        FarthestFirstUnique(s, vs, h, i, k, u);
      }
    }
  }

  /** Lines 38-62: within each run of equal angles keep only the record farthest from the pivot. */
  method TossDuplicateAngles(points: array<AngleRecord>, vs: seq<Point>, h: int)
    requires 0 <= h < |vs| && 0 < points.Length
    requires IndicesIn(points[..], |vs|) && SortedByAngle(points[..])
    modifies points
    ensures points[..] == AfterToss(old(points[..]), vs, h)
  {
    ghost var s := points[..];
    var n := points.Length;
    var a := points[0].angle;
    var v := points[0].index;
    var u := 0;
    for i := 1 to n
      invariant 0 <= u < i
      invariant a == s[u].angle == s[i - 1].angle && v == s[u].index
      invariant FarthestFirst(s, vs, h, i, u)
      invariant TossedUpTo(points[..], s, vs, h, i)
    {
      var j := points[i].index;
      assert points[i] == s[i];
      if a == points[i].angle {
        if SquaredDistance(vs, h, v) >= SquaredDistance(vs, h, j) {
          TossLater(points[..], s, vs, h, i, u);
          points[i] := points[i].(index := Tombstone);
        } else {
          TossEarlier(points[..], s, vs, h, i, u);
          points[u] := points[u].(index := Tombstone);
          a := points[i].angle;
          u := i;
          v := j;
        }
      } else {
        assert forall m :: 0 <= m < i ==> s[m].angle <= s[i - 1].angle;
        TossNewRun(points[..], s, vs, h, i);
        a := points[i].angle;
        u := i;
        v := j;
      }
    }
    assert forall k :: 0 <= k < n ==> points[..][k] == AfterToss(s, vs, h)[k];
  }

  /** Walks the first `n` records the way the dedup pass does, finding the survivor among those with angle `a`. */
  lemma {:induction false} FarthestInPrefix(s: seq<AngleRecord>, vs: seq<Point>, h: int, a: real, n: int) returns (p: int)
    requires 0 <= h < |vs| && IndicesIn(s, |vs|) && 0 <= n <= |s|
    ensures p == -1 ==> forall m :: 0 <= m < n ==> s[m].angle != a
    ensures p != -1 ==> 0 <= p < n && s[p].angle == a && FarthestFirst(s, vs, h, n, p)
  {
    if n == 0 {
      p := -1;
    } else {
      p := FarthestInPrefix(s, vs, h, a, n - 1);
      if s[n - 1].angle == a {
        if p == -1 || SquaredDistance(vs, h, s[p].index) < SquaredDistance(vs, h, s[n - 1].index) {
          p := n - 1;
        }
      }
    }
  }

  /**
   * Every run of equal angles keeps exactly one record after the dedup pass:
   * the first of the records farthest from the pivot.
   */
  lemma RunKeepsOne(s: seq<AngleRecord>, vs: seq<Point>, h: int, k: int) returns (p: int)
    requires 0 <= h < |vs| && IndicesIn(s, |vs|) && 0 <= k < |s|
    ensures 0 <= p < |s| && s[p].angle == s[k].angle
    ensures AfterToss(s, vs, h)[p] == s[p] && Live(s[p])
    ensures forall m :: 0 <= m < |s| && s[m].angle == s[k].angle ==>
              SquaredDistance(vs, h, s[m].index) <= SquaredDistance(vs, h, s[p].index) &&
              (m < p ==> SquaredDistance(vs, h, s[m].index) < SquaredDistance(vs, h, s[p].index))
    ensures forall q :: 0 <= q < |s| && s[q].angle == s[k].angle && Live(AfterToss(s, vs, h)[q]) ==> q == p
  {
    p := FarthestInPrefix(s, vs, h, s[k].angle, |s|);
    var t := AfterToss(s, vs, h);
    forall q | 0 <= q < |s| && s[q].angle == s[k].angle && Live(t[q])
      ensures q == p
    {
      assert Survives(s, vs, h, q);
      FarthestFirstUnique(s, vs, h, |s|, q, p);
    }
  }

  /** No record survives the dedup pass, or exactly one does. */
  predicate AtMostOneLive(t: seq<AngleRecord>) {
    forall p, q :: 0 <= p < |t| && 0 <= q < |t| && Live(t[p]) && Live(t[q]) ==> p == q
  }

  predicate OneAngle(s: seq<AngleRecord>) {
    forall p, q :: 0 <= p < |s| && 0 <= q < |s| ==> s[p].angle == s[q].angle
  }

  /** Fewer than two records survive exactly when all records share one angle. */
  lemma AtMostOneLiveIffOneAngle(s: seq<AngleRecord>, vs: seq<Point>, h: int)
    requires 0 <= h < |vs| && IndicesIn(s, |vs|)
    ensures AtMostOneLive(AfterToss(s, vs, h)) <==> OneAngle(s)
  {
    var t := AfterToss(s, vs, h);
    if OneAngle(s) {
      forall p, q | 0 <= p < |t| && 0 <= q < |t| && Live(t[p]) && Live(t[q])
        ensures p == q
      {
        var r := RunKeepsOne(s, vs, h, p);
      }
    } else {
      var p, q :| 0 <= p < |s| && 0 <= q < |s| && s[p].angle != s[q].angle;
      var rp := RunKeepsOne(s, vs, h, p);
      var rq := RunKeepsOne(s, vs, h, q);
      assert Live(t[rp]) && Live(t[rq]) && rp != rq;
    }
  }

  /** In sorted records, the survivors of the dedup pass have strictly increasing angles. */
  lemma LiveAnglesIncrease(s: seq<AngleRecord>, vs: seq<Point>, h: int, p: int, q: int)
    requires 0 <= h < |vs| && IndicesIn(s, |vs|) && SortedByAngle(s)
    requires 0 <= p < q < |s| && Live(AfterToss(s, vs, h)[p]) && Live(AfterToss(s, vs, h)[q])
    ensures s[p].angle < s[q].angle
  {
    var r := RunKeepsOne(s, vs, h, p);
  }

  /** In sorted records, the last survivor of the dedup pass has the largest angle of all records. */
  lemma LastSurvivorLargest(s: seq<AngleRecord>, vs: seq<Point>, h: int, p: int)
    requires 0 <= h < |vs| && IndicesIn(s, |vs|) && SortedByAngle(s)
    requires 0 <= p < |s| && forall q :: p < q < |s| ==> !Live(AfterToss(s, vs, h)[q])
    ensures forall q :: 0 <= q < |s| ==> s[q].angle <= s[p].angle
  {
    forall q | p < q < |s|
      ensures s[q].angle <= s[p].angle
    {
      var r := RunKeepsOne(s, vs, h, q);
      assert r <= p;
    }
  }

  /** In sorted records, the first survivor of the dedup pass has the smallest angle of all records. */
  lemma FirstSurvivorSmallest(s: seq<AngleRecord>, vs: seq<Point>, h: int, p: int)
    requires 0 <= h < |vs| && IndicesIn(s, |vs|) && SortedByAngle(s)
    requires 0 <= p < |s| && forall q :: 0 <= q < p ==> !Live(AfterToss(s, vs, h)[q])
    ensures forall q :: 0 <= q < |s| ==> s[p].angle <= s[q].angle
  {
    forall q | 0 <= q < p
      ensures s[p].angle <= s[q].angle
    {
      var r := RunKeepsOne(s, vs, h, q);
      assert p <= r;
    }
  }

  /*
   * ---------------------------------------------------------------------
   * The stack and the scan
   * ---------------------------------------------------------------------
   */

  /**
   * The surviving records name in-range vertices other than the pivot `h`,
   * and no two of them name the same vertex.
   */
  predicate LiveIndexed(t: seq<AngleRecord>, n: int, h: int) {
    && (forall k :: 0 <= k < |t| && Live(t[k]) ==> 0 <= t[k].index < n && t[k].index != h)
    && (forall p, q :: 0 <= p < q < |t| && Live(t[p]) && Live(t[q]) ==> t[p].index != t[q].index)
  }

  /**
   * Lines 64-72: the stack starts as the pivot followed by the first two
   * surviving records. Returns `ok == false` where the original reads past the
   * end of `points`; otherwise `j` is the position after the second survivor.
   */
  method SeedStack(points: array<AngleRecord>, h: int) returns (stack: seq<int>, j: int, ok: bool, ghost first: int)
    ensures ok <==> !AtMostOneLive(points[..])
    ensures ok ==> && 0 <= first < j - 1 < points.Length
                   && Live(points[first]) && Live(points[j - 1])
                   && stack == [h, points[first].index, points[j - 1].index]
                   && forall p :: 0 <= p < j - 1 && p != first ==> !Live(points[p])
  {
    stack := [h];
    first := -1;
    var i := 0;
    j := 0;
    while i < 2
      invariant 0 <= i <= 2 && 0 <= j <= points.Length
      invariant i == 0 ==> stack == [h] && forall p :: 0 <= p < j ==> !Live(points[p])
      invariant i == 1 ==> && 0 <= first < j && Live(points[first])
                           && stack == [h, points[first].index]
                           && forall p :: 0 <= p < j && p != first ==> !Live(points[p])
      invariant i == 2 ==> && 0 <= first < j - 1 && Live(points[first]) && Live(points[j - 1])
                           && stack == [h, points[first].index, points[j - 1].index]
                           && forall p :: 0 <= p < j - 1 && p != first ==> !Live(points[p])
      decreases points.Length - j, 2 - i
    {
      if j == points.Length {
        ok := false;
        return;
      }
      if points[j].index != Tombstone {
        stack := stack + [points[j].index];
        if i == 0 {
          first := j;
        }
        i := i + 1;
      }
      j := j + 1;
    }
    ok := true;
  }

  /**
   * The turn test never reports a non-left turn when its first two indices
   * are equal; `PivotNeverNonLeft` shows the test of lines 92-101 has this
   * property.
   */
  predicate PivotNeverPops(isNonLeft: (int, int, int, int, seq<Point>) -> bool, vs: seq<Point>) {
    forall i, k, m :: 0 <= i < |vs| && 0 <= k < |vs| && 0 <= m < |vs| ==> !isNonLeft(i, i, k, m, vs)
  }

  /** The turn test of line 77 evicts `live[k - 1]`, the top of `live[..k]`, in favour of `idx`. */
  predicate PopsAt(isNonLeft: (int, int, int, int, seq<Point>) -> bool, vs: seq<Point>, h: int,
                   live: seq<int>, idx: int, k: int)
    requires 2 <= k <= |live|
  {
    isNonLeft(h, live[k - 2], live[k - 1], idx, vs)
  }

  /**
   * Lines 77-79 on the live stack `live` (the entries below `sp`): drop the
   * top while the turn test reports a non-left turn towards `idx`. What is
   * left is a prefix of at least two entries; every dropped entry failed the
   * test, and the new top passes it unless only the seeds' first two entries
   * are left. (With two entries left the test compares the pivot with itself,
   * which `PivotNeverPops` rules out; the original would go on to read
   * `stack[-1]`.)
   */
  function PopWhile(isNonLeft: (int, int, int, int, seq<Point>) -> bool, vs: seq<Point>, h: int,
                    live: seq<int>, idx: int): (r: seq<int>)
    requires 2 <= |live|
    ensures 2 <= |r| <= |live| && r == live[..|r|]
    ensures |r| == 2 || !PopsAt(isNonLeft, vs, h, live, idx, |r|)
    ensures forall k :: |r| < k <= |live| ==> PopsAt(isNonLeft, vs, h, live, idx, k)
    decreases |live|
  {
    if 2 < |live| && isNonLeft(h, live[|live| - 2], live[|live| - 1], idx, vs) then
      var r := PopWhile(isNonLeft, vs, h, live[..|live| - 1], idx);
      assert forall k :: |r| <= k <= |live| - 1 ==>
               (PopsAt(isNonLeft, vs, h, live[..|live| - 1], idx, k) == PopsAt(isNonLeft, vs, h, live, idx, k));
      r
    else
      live
  }

  /**
   * Lines 75-81 as a function: the live stack once the records of `t` from
   * position `j` on have been scanned. A tombstone is skipped; a surviving
   * record pops what fails the turn test and is pushed. The two entries at
   * the bottom are never popped.
   */
  function ScanFrom(t: seq<AngleRecord>, vs: seq<Point>, h: int,
                    isNonLeft: (int, int, int, int, seq<Point>) -> bool,
                    live: seq<int>, j: int): (r: seq<int>)
    requires 2 <= |live| && 0 <= j <= |t|
    ensures 2 <= |r| && r[..2] == live[..2]
    decreases |t| - j
  {
    if j == |t| then live
    else if Live(t[j]) then
      var next := PopWhile(isNonLeft, vs, h, live, t[j].index) + [t[j].index];
      assert next[..2] == live[..2];
      ScanFrom(t, vs, h, isNonLeft, next, j + 1)
    else ScanFrom(t, vs, h, isNonLeft, live, j + 1)
  }

  /** The first position at or after `j` whose record survived the dedup pass, or `|t|` if none does. */
  function NextLive(t: seq<AngleRecord>, j: int): (p: int)
    requires 0 <= j <= |t|
    ensures j <= p <= |t| && (p < |t| ==> Live(t[p]))
    ensures forall q :: j <= q < p ==> !Live(t[q])
    decreases |t| - j
  {
    if j == |t| || Live(t[j]) then j else NextLive(t, j + 1)
  }

  /**
   * Lines 64-81 on the records `t` left by the dedup pass: the live stack of
   * the hull, seeded with the pivot and the first two survivors, or the read
   * past the end of `t` when fewer than two records survive.
   */
  function HullStack(t: seq<AngleRecord>, vs: seq<Point>, h: int,
                     isNonLeft: (int, int, int, int, seq<Point>) -> bool): Result<seq<int>>
  {
    var p0 := NextLive(t, 0);
    if p0 == |t| then Err(PastEndOfPoints)
    else
      var p1 := NextLive(t, p0 + 1);
      if p1 == |t| then Err(PastEndOfPoints)
      else Ok(ScanFrom(t, vs, h, isNonLeft, [h, t[p0].index, t[p1].index], p1 + 1))
  }

  /** What `SeedStack` finds are the first two survivors, and it fails exactly when `HullStack` does. */
  lemma SeedIsNextLive(t: seq<AngleRecord>, vs: seq<Point>, h: int,
                       isNonLeft: (int, int, int, int, seq<Point>) -> bool,
                       ok: bool, first: int, j: int, stack: seq<int>)
    requires ok <==> !AtMostOneLive(t)
    requires ok ==> && 0 <= first < j - 1 < |t|
                    && Live(t[first]) && Live(t[j - 1])
                    && stack == [h, t[first].index, t[j - 1].index]
                    && forall p :: 0 <= p < j - 1 && p != first ==> !Live(t[p])
    ensures !ok <==> HullStack(t, vs, h, isNonLeft).Err?
    ensures ok ==> HullStack(t, vs, h, isNonLeft) == Ok(ScanFrom(t, vs, h, isNonLeft, stack, j))
  {
    var p0 := NextLive(t, 0);
    if ok {
      assert p0 == first;
      assert NextLive(t, p0 + 1) == j - 1;
    } else if p0 < |t| {
      assert forall q :: 0 <= q < |t| && q != p0 ==> !Live(t[q]);
    }
  }

  /** The turn test of line 77 does not evict the entry `stack[k]` pushed on top of `stack[k - 2]`, `stack[k - 1]`. */
  predicate TurnsLeftAt(isNonLeft: (int, int, int, int, seq<Point>) -> bool, vs: seq<Point>, h: int, stack: seq<int>, k: int)
    requires 2 <= k < |stack|
  {
    !isNonLeft(h, stack[k - 2], stack[k - 1], stack[k], vs)
  }

  /**
   * The stack `stack[..sp]` while the scan is at record position `j` of `t`:
   * the pivot, then surviving records at the increasing positions `pos`
   * (starting with the first survivor), each pushed entry above the seeds
   * having passed the turn test.
   */
  ghost predicate ScanStack(t: seq<AngleRecord>, vs: seq<Point>, h: int,
                            isNonLeft: (int, int, int, int, seq<Point>) -> bool,
                            first: int, j: int, stack: seq<int>, sp: int, pos: seq<int>)
  {
    && 2 <= sp <= |stack| <= j + 1
    && 0 <= first < |t|
    && stack[0] == h && stack[1] == t[first].index
    && |pos| == sp - 1 && pos[0] == first
    && (forall k :: 0 <= k < |pos| ==> 0 <= pos[k] < j && pos[k] < |t| && Live(t[pos[k]]) && stack[k + 1] == t[pos[k]].index)
    && (forall k, l :: 0 <= k < l < |pos| ==> pos[k] < pos[l])
    && (forall k :: 3 <= k < sp ==> TurnsLeftAt(isNonLeft, vs, h, stack, k))
  }

  /**
   * Lines 77-79: pops while the turn test says the top of the stack makes no
   * left turn with `idx`. Every popped entry failed the test.
   */
  method PopNonLeft(ghost t: seq<AngleRecord>, vs: seq<Point>, h: int,
                    isNonLeft: (int, int, int, int, seq<Point>) -> bool,
                    ghost first: int, ghost j: int, stack: seq<int>, sp0: int, ghost pos0: seq<int>, idx: int)
    returns (sp: int, ghost pos: seq<int>)
    requires 0 <= h < |vs| && LiveIndexed(t, |vs|, h) && 0 <= idx < |vs| && PivotNeverPops(isNonLeft, vs)
    requires ScanStack(t, vs, h, isNonLeft, first, j, stack, sp0, pos0)
    ensures ScanStack(t, vs, h, isNonLeft, first, j, stack, sp, pos)
    ensures 2 <= sp <= sp0 && pos == pos0[..sp - 1]
    ensures !isNonLeft(h, stack[sp - 2], stack[sp - 1], idx, vs)
    ensures forall k :: sp < k <= sp0 ==> PopsAt(isNonLeft, vs, h, stack, idx, k)
    ensures stack[..sp] == PopWhile(isNonLeft, vs, h, stack[..sp0], idx)
  {
    assert stack[0] == h && 0 <= stack[1] < |vs| by {
      assert Live(t[pos0[0]]);
    }
    sp := sp0;
    while isNonLeft(h, stack[sp - 2], stack[sp - 1], idx, vs)
      invariant 2 <= sp <= sp0
      invariant forall k :: sp < k <= sp0 ==> PopsAt(isNonLeft, vs, h, stack, idx, k)
      invariant PopWhile(isNonLeft, vs, h, stack[..sp], idx) == PopWhile(isNonLeft, vs, h, stack[..sp0], idx)
      decreases sp
    {
      assert sp != 2 by {
        assert !isNonLeft(h, h, stack[1], idx, vs);
      }
      assert PopsAt(isNonLeft, vs, h, stack, idx, sp);
      PopOne(isNonLeft, vs, h, stack, sp, idx);
      sp := sp - 1;
    }
    PopNone(isNonLeft, vs, h, stack, sp, idx);
    pos := pos0[..sp - 1];
    PopKeepsStack(t, vs, h, isNonLeft, first, j, stack, sp0, pos0, sp);
  }

  /** Popping down to `sp` entries keeps the stack invariant, with the positions cut to match. */
  lemma PopKeepsStack(t: seq<AngleRecord>, vs: seq<Point>, h: int,
                      isNonLeft: (int, int, int, int, seq<Point>) -> bool,
                      first: int, j: int, stack: seq<int>, sp0: int, pos0: seq<int>, sp: int)
    requires ScanStack(t, vs, h, isNonLeft, first, j, stack, sp0, pos0) && 2 <= sp <= sp0
    ensures ScanStack(t, vs, h, isNonLeft, first, j, stack, sp, pos0[..sp - 1])
  {
  }

  /** One pop of lines 77-78 is one step of `PopWhile`. */
  lemma PopOne(isNonLeft: (int, int, int, int, seq<Point>) -> bool, vs: seq<Point>, h: int,
               stack: seq<int>, sp: int, idx: int)
    requires 2 < sp <= |stack| && isNonLeft(h, stack[sp - 2], stack[sp - 1], idx, vs)
    ensures PopWhile(isNonLeft, vs, h, stack[..sp], idx) == PopWhile(isNonLeft, vs, h, stack[..sp - 1], idx)
  {
    assert stack[..sp][..sp - 1] == stack[..sp - 1];
  }

  /** Where the turn test of line 77 passes, `PopWhile` pops nothing. */
  lemma PopNone(isNonLeft: (int, int, int, int, seq<Point>) -> bool, vs: seq<Point>, h: int,
                stack: seq<int>, sp: int, idx: int)
    requires 2 <= sp <= |stack| && !isNonLeft(h, stack[sp - 2], stack[sp - 1], idx, vs)
    ensures PopWhile(isNonLeft, vs, h, stack[..sp], idx) == stack[..sp]
  {
  }

  /** JavaScript's `a[i] = x` for `0 <= i <= a.length`: overwrites an element, or appends one at the end. */
  function Store(a: seq<int>, i: int, x: int): (r: seq<int>)
    requires 0 <= i <= |a|
    ensures |r| == if i < |a| then |a| else |a| + 1
    ensures r[i] == x && forall k :: 0 <= k < |a| && k != i ==> r[k] == a[k]
  {
    if i < |a| then a[i := x] else a + [x]
  }

  /** Line 80: pushing the surviving record at position `j` once the turn test is satisfied. */
  lemma PushKeepsStack(t: seq<AngleRecord>, vs: seq<Point>, h: int,
                       isNonLeft: (int, int, int, int, seq<Point>) -> bool,
                       first: int, j: int, stack: seq<int>, sp: int, pos: seq<int>)
    requires ScanStack(t, vs, h, isNonLeft, first, j, stack, sp, pos)
    requires 0 <= j < |t| && Live(t[j]) && !isNonLeft(h, stack[sp - 2], stack[sp - 1], t[j].index, vs)
    ensures ScanStack(t, vs, h, isNonLeft, first, j + 1, Store(stack, sp, t[j].index), sp + 1, pos + [j])
  {
    var stack' := Store(stack, sp, t[j].index);
    forall k | 3 <= k < sp + 1
      ensures TurnsLeftAt(isNonLeft, vs, h, stack', k)
    {
      if k < sp {
        assert TurnsLeftAt(isNonLeft, vs, h, stack, k);
        assert stack'[k - 2] == stack[k - 2] && stack'[k - 1] == stack[k - 1] && stack'[k] == stack[k];
      }
    }
  }

  /** The stack never names a vertex twice. */
  lemma StackDistinct(t: seq<AngleRecord>, vs: seq<Point>, h: int,
                      isNonLeft: (int, int, int, int, seq<Point>) -> bool,
                      first: int, j: int, stack: seq<int>, sp: int, pos: seq<int>)
    requires 0 <= h < |vs| && ScanStack(t, vs, h, isNonLeft, first, j, stack, sp, pos) && LiveIndexed(t, |vs|, h)
    ensures forall k :: 0 <= k < sp ==> 0 <= stack[k] < |vs|
    ensures forall k, l :: 0 <= k < l < sp ==> stack[k] != stack[l]
  {
    forall k | 1 <= k < sp
      ensures 0 <= stack[k] < |vs|
    {
      assert Live(t[pos[k - 1]]);
    }
    forall k, l | 0 <= k < l < sp
      ensures stack[k] != stack[l]
    {
      var q := pos[l - 1];
      assert stack[l] == t[q].index && Live(t[q]);
      if k > 0 {
        var p := pos[k - 1];
        assert p < q && stack[k] == t[p].index && Live(t[p]);
      }
    }
  }

  /** No record between the top of the stack and position `j` survives. */
  ghost predicate LastOnTop(t: seq<AngleRecord>, j: int, pos: seq<int>) {
    |pos| > 0 && forall p :: pos[|pos| - 1] < p < j && 0 <= p < |t| ==> !Live(t[p])
  }

  /** Line 76: a tombstoned record is skipped. */
  lemma SkipTossed(t: seq<AngleRecord>, vs: seq<Point>, h: int,
                   isNonLeft: (int, int, int, int, seq<Point>) -> bool,
                   first: int, j: int, stack: seq<int>, sp: int, pos: seq<int>)
    requires ScanStack(t, vs, h, isNonLeft, first, j, stack, sp, pos) && LastOnTop(t, j, pos)
    requires 0 <= j < |t| && !Live(t[j])
    ensures ScanStack(t, vs, h, isNonLeft, first, j + 1, stack, sp, pos) && LastOnTop(t, j + 1, pos)
  {
  }

  /**
   * What the scan knows once it has looked at the records before position
   * `j`: the stack invariant, the last survivor so far on top, and scanning
   * the rest of the records from the live stack reaches `final`, the
   * reference scan from the seeds.
   */
  ghost predicate Scanned(t: seq<AngleRecord>, vs: seq<Point>, h: int,
                          isNonLeft: (int, int, int, int, seq<Point>) -> bool,
                          first: int, final: seq<int>, j: int, stack: seq<int>, sp: int, pos: seq<int>)
    requires 0 <= h < |vs| && LiveIndexed(t, |vs|, h)
  {
    && 0 <= j <= |t|
    && ScanStack(t, vs, h, isNonLeft, first, j, stack, sp, pos) && 3 <= sp
    && LastOnTop(t, j, pos)
    && ScanFrom(t, vs, h, isNonLeft, stack[..sp], j) == final
  }

  /** Lines 64-72 leave the scan with the pivot and the first two survivors on the stack. */
  lemma SeedScanned(t: seq<AngleRecord>, vs: seq<Point>, h: int,
                    isNonLeft: (int, int, int, int, seq<Point>) -> bool,
                    first: int, start: int, seed: seq<int>)
    requires 0 <= h < |vs| && LiveIndexed(t, |vs|, h)
    requires 0 <= first < start - 1 < |t| && Live(t[first]) && Live(t[start - 1])
    requires seed == [h, t[first].index, t[start - 1].index]
    ensures Scanned(t, vs, h, isNonLeft, first, ScanFrom(t, vs, h, isNonLeft, seed, start), start, seed, 3, [first, start - 1])
  {
    assert seed[..3] == seed;
  }

  /**
   * Lines 76-80, once: a tombstone leaves the stack alone; a surviving record
   * pops what fails the turn test and is written at `sp`, which grows by one.
   */
  method ScanStep(points: array<AngleRecord>, vs: seq<Point>, h: int,
                  isNonLeft: (int, int, int, int, seq<Point>) -> bool,
                  ghost first: int, ghost final: seq<int>, j: int,
                  stack0: seq<int>, sp0: int, ghost pos0: seq<int>)
    returns (stack: seq<int>, sp: int, ghost pos: seq<int>)
    requires 0 <= h < |vs| && LiveIndexed(points[..], |vs|, h)
    requires PivotNeverPops(isNonLeft, vs)
    requires j < points.Length
    requires Scanned(points[..], vs, h, isNonLeft, first, final, j, stack0, sp0, pos0)
    ensures Scanned(points[..], vs, h, isNonLeft, first, final, j + 1, stack, sp, pos)
    ensures !Live(points[j]) ==> stack == stack0 && sp == sp0
    ensures Live(points[j]) ==>
              stack[..sp] == PopWhile(isNonLeft, vs, h, stack0[..sp0], points[j].index) + [points[j].index]
  {
    ghost var t := points[..];
    stack, sp, pos := stack0, sp0, pos0;
    if points[j].index != Tombstone {
      var idx := points[j].index;
      assert idx == t[j].index && Live(t[j]);
      sp, pos := PopNonLeft(t, vs, h, isNonLeft, first, j, stack, sp, pos, idx);
      PushKeepsStack(t, vs, h, isNonLeft, first, j, stack, sp, pos);
      ghost var popped := stack[..sp];
      stack := Store(stack, sp, idx);
      sp := sp + 1;
      pos := pos + [j];
      assert stack[..sp] == popped + [idx];
    } else {
      SkipTossed(t, vs, h, isNonLeft, first, j, stack, sp, pos);
    }
  }

  /**
   * Lines 75-81: Graham's scan over the records after the seeds. The live
   * stack it leaves is the reference scan `ScanFrom` from the seeds; `pos`
   * gives, for each stack entry after the pivot, the position of its record
   * in `points`.
   */
  method Scan(points: array<AngleRecord>, vs: seq<Point>, h: int,
              isNonLeft: (int, int, int, int, seq<Point>) -> bool,
              seed: seq<int>, start: int, ghost first: int)
    returns (stack: seq<int>, sp: int, ghost pos: seq<int>)
    requires 0 <= h < |vs| && LiveIndexed(points[..], |vs|, h)
    requires PivotNeverPops(isNonLeft, vs)
    requires 0 <= first < start - 1 < points.Length && Live(points[first]) && Live(points[start - 1])
    requires seed == [h, points[first].index, points[start - 1].index]
    ensures 3 <= sp <= |stack| && stack[..sp] == ScanFrom(points[..], vs, h, isNonLeft, seed, start)
    // the stack holds the pivot, then surviving records in increasing record order with the
    // first survivor at the bottom and the last on top
    ensures ScanStack(points[..], vs, h, isNonLeft, first, points.Length, stack, sp, pos)
    ensures LastOnTop(points[..], points.Length, pos)
    ensures forall k :: 0 <= k < sp ==> 0 <= stack[k] < |vs|
    ensures forall k, l :: 0 <= k < l < sp ==> stack[k] != stack[l]
  {
    ghost var t := points[..];
    stack := seed;
    sp := |stack|;
    pos := [first, start - 1];
    SeedScanned(t, vs, h, isNonLeft, first, start, seed);
    ghost var final := ScanFrom(t, vs, h, isNonLeft, seed, start);
    var j := start;
    while j < points.Length
      invariant Scanned(points[..], vs, h, isNonLeft, first, final, j, stack, sp, pos)
    {
      stack, sp, pos := ScanStep(points, vs, h, isNonLeft, first, final, j, stack, sp, pos);
      j := j + 1;
    }
    StackDistinct(points[..], vs, h, isNonLeft, first, j, stack, sp, pos);
  }

  /** Lines 84-88: the hull as the vertices named by the first `sp` stack entries. */
  method BuildPolygon(vs: seq<Point>, stack: seq<int>, sp: int) returns (poly: seq<Point>)
    requires 0 <= sp <= |stack| && forall k :: 0 <= k < sp ==> 0 <= stack[k] < |vs|
    ensures |poly| == sp && forall k :: 0 <= k < sp ==> poly[k] == vs[stack[k]]
  {
    poly := [];
    for i := 0 to sp
      invariant |poly| == i && forall k :: 0 <= k < i ==> poly[k] == vs[stack[k]]
    {
      poly := poly + [vs[stack[i]]];
    }
  }

  /*
   * ---------------------------------------------------------------------
   * The turn test
   * ---------------------------------------------------------------------
   */

  /** The squared side lengths of lines 94-98, named as there (there is no `l3`). */
  datatype TurnLengths = TurnLengths(l1: int, l2: int, l4: int, l5: int, l6: int)

  /** A squared distance is never negative, and it is zero exactly when the two vertices coincide. */
  lemma SquaredDistanceZero(v: seq<Point>, a: int, b: int)
    requires 0 <= a < |v| && 0 <= b < |v|
    ensures 0 <= SquaredDistance(v, a, b)
    ensures SquaredDistance(v, a, b) == 0 <==> v[a] == v[b]
  {
    var dx := v[b].x - v[a].x;
    var dy := v[b].y - v[a].y;
    assert dx * dx >= 0 && dy * dy >= 0;
    if dx != 0 {
      assert dx * dx > 0;
    }
    if dy != 0 {
      assert dy * dy > 0;
    }
  }

  /**
   * Lines 94-98: l1 from `i1` to `i2`, l2 from `i2` to `i3`, l4 from `i0` to
   * `i3`, l5 from `i0` to `i1` and l6 from `i0` to `i2`, each squared. Each
   * is zero exactly when its two vertices coincide; with `i0 == i1` (the
   * pivot at the bottom of the stack) l5 is zero and l6 equals l1.
   */
  function SideLengths(i0: int, i1: int, i2: int, i3: int, v: seq<Point>): (r: TurnLengths)
    requires 0 <= i0 < |v| && 0 <= i1 < |v| && 0 <= i2 < |v| && 0 <= i3 < |v|
    ensures 0 <= r.l1 && 0 <= r.l2 && 0 <= r.l4 && 0 <= r.l5 && 0 <= r.l6
    ensures (r.l1 == 0 <==> v[i1] == v[i2]) && (r.l2 == 0 <==> v[i2] == v[i3]) && (r.l4 == 0 <==> v[i0] == v[i3])
    ensures (r.l5 == 0 <==> v[i0] == v[i1]) && (r.l6 == 0 <==> v[i0] == v[i2])
    ensures i0 == i1 ==> r.l5 == 0 && r.l6 == r.l1
  {
    SquaredDistanceZero(v, i1, i2);
    SquaredDistanceZero(v, i2, i3);
    SquaredDistanceZero(v, i0, i3);
    SquaredDistanceZero(v, i0, i1);
    SquaredDistanceZero(v, i0, i2);
    TurnLengths(SquaredDistance(v, i1, i2), SquaredDistance(v, i2, i3), SquaredDistance(v, i0, i3),
                SquaredDistance(v, i0, i1), SquaredDistance(v, i0, i2))
  }

  /**
   * Lines 92-101, over exact reals with Math.acos, Math.sqrt and Math.PI as
   * parameters. The path `i1`, `i2`, `i3` makes no left turn when the angle
   * a1 at `i2` between `i3` and `i0` and the angle a2 at `i2` between `i0`
   * and `i1`, both by the law of cosines, add up to more than pi. Where
   * JavaScript computes NaN (a zero denominator, or a cosine outside
   * [-1, 1]) the comparison with 0 is false.
   */
  function IsNonLeft(i0: int, i1: int, i2: int, i3: int, v: seq<Point>,
                     acos: real -> real, sqrt: real -> real, pi: real): bool
    requires 0 <= i0 < |v| && 0 <= i1 < |v| && 0 <= i2 < |v| && 0 <= i3 < |v|
  {
    var l := SideLengths(i0, i1, i2, i3, v);
    var d1 := 2.0 * sqrt((l.l2 * l.l6) as real);
    var d2 := 2.0 * sqrt((l.l6 * l.l1) as real);
    if d1 == 0.0 || d2 == 0.0 then false
    else
      var c1 := (l.l2 + l.l6 - l.l4) as real / d1;
      var c2 := (l.l6 + l.l1 - l.l5) as real / d2;
      if c1 < -1.0 || 1.0 < c1 || c2 < -1.0 || 1.0 < c2 then false
      else pi - acos(c1) - acos(c2) < 0.0
  }

  /**
   * The zero-denominator path of lines 99-100: when the middle vertex `i2`
   * coincides with `i0`, `i1` or `i3`, a denominator is 2 * sqrt(0), the
   * cosine is NaN and the test reports no non-left turn.
   */
  lemma CoincidentNeverNonLeft(i0: int, i1: int, i2: int, i3: int, v: seq<Point>,
                               acos: real -> real, sqrt: real -> real, pi: real)
    requires 0 <= i0 < |v| && 0 <= i1 < |v| && 0 <= i2 < |v| && 0 <= i3 < |v|
    requires sqrt(0.0) == 0.0
    ensures IsNonLeft(i0, i1, i2, i3, v, acos, sqrt, pi) ==> v[i2] != v[i0] && v[i2] != v[i1] && v[i2] != v[i3]
  {
    var l := SideLengths(i0, i1, i2, i3, v);
    if v[i2] == v[i0] {
      assert (l.l2 * l.l6) as real == 0.0 && (l.l6 * l.l1) as real == 0.0;
    } else if v[i2] == v[i1] {
      assert (l.l6 * l.l1) as real == 0.0;
    } else if v[i2] == v[i3] {
      assert (l.l2 * l.l6) as real == 0.0;
    }
  }

  lemma SquareMonotone(a: real, b: real)
    requires 0.0 <= a < b
    ensures a * a < b * b
  {
    var d := b - a;
    assert b * b == a * a + 2.0 * a * d + d * d;
    assert d * d > 0.0 && a * d >= 0.0;
  }

  /** The non-negative square root of a square is its base. */
  lemma SqrtOfSquare(sqrt: real -> real, x: real)
    requires forall y: real :: 0.0 <= y ==> 0.0 <= sqrt(y) && sqrt(y) * sqrt(y) == y
    requires 0.0 <= x
    ensures sqrt(x * x) == x
  {
    var r := sqrt(x * x);
    assert 0.0 <= r && r * r == x * x;
    if r < x {
      SquareMonotone(r, x);
      assert false;
    } else if x < r {
      SquareMonotone(x, r);
      assert false;
    }
  }

  lemma DivideBySelf(a: real)
    requires a != 0.0
    ensures a / a == 1.0
  {
  }

  /** One instance of `PivotNeverNonLeft`. */
  lemma PivotTurnIsStraight(i: int, k: int, m: int, v: seq<Point>, acos: real -> real, sqrt: real -> real, pi: real)
    requires 0 <= i < |v| && 0 <= k < |v| && 0 <= m < |v|
    requires acos(1.0) == 0.0
    requires forall c: real :: -1.0 <= c <= 1.0 ==> acos(c) <= pi
    requires forall y: real :: 0.0 <= y ==> 0.0 <= sqrt(y) && sqrt(y) * sqrt(y) == y
    ensures !IsNonLeft(i, i, k, m, v, acos, sqrt, pi)
  {
    var l := SideLengths(i, i, k, m, v);
    var x := l.l1 as real;
    SqrtOfSquare(sqrt, x);
    assert (l.l6 * l.l1) as real == x * x;
    var d1 := 2.0 * sqrt((l.l2 * l.l6) as real);
    var d2 := 2.0 * sqrt((l.l6 * l.l1) as real);
    assert d2 == 2.0 * x;
    if d1 != 0.0 && d2 != 0.0 {
      var c1 := (l.l2 + l.l6 - l.l4) as real / d1;
      var c2 := (l.l6 + l.l1 - l.l5) as real / d2;
      assert (l.l6 + l.l1 - l.l5) as real == d2;
      DivideBySelf(d2);
      if -1.0 <= c1 <= 1.0 {
        assert acos(c1) <= pi;
      }
    }
  }

  /**
   * With the pivot as both `i0` and `i1` (the bottom of the stack, line 77),
   * l5 is 0 and l6 equals l1, so the cosine of a2 is exactly 1 (or NaN), a2
   * is 0 and the test never reports a non-left turn: the scan never pops the
   * first survivor. This is what `ComputeHull` asks of its turn test.
   */
  lemma PivotNeverNonLeft(v: seq<Point>, acos: real -> real, sqrt: real -> real, pi: real)
    requires acos(1.0) == 0.0
    requires forall c: real :: -1.0 <= c <= 1.0 ==> acos(c) <= pi
    requires forall y: real :: 0.0 <= y ==> 0.0 <= sqrt(y) && sqrt(y) * sqrt(y) == y
    ensures PivotNeverPops((i0, i1, i2, i3, w) =>
              0 <= i0 < |w| && 0 <= i1 < |w| && 0 <= i2 < |w| && 0 <= i3 < |w| && IsNonLeft(i0, i1, i2, i3, w, acos, sqrt, pi), v)
  {
    forall i, k, m | 0 <= i < |v| && 0 <= k < |v| && 0 <= m < |v|
      ensures !IsNonLeft(i, i, k, m, v, acos, sqrt, pi)
    {
      PivotTurnIsStraight(i, k, m, v, acos, sqrt, pi);
    }
  }

  /*
   * ---------------------------------------------------------------------
   * The whole hull
   * ---------------------------------------------------------------------
   */

  /**
   * Every vertex other than the pivot `h` has the same atan2 angle from it.
   * A vertex equal to the pivot gets atan2(0, 0), so this is not the same as
   * lying on one ray from the pivot.
   */
  ghost predicate SharedAngle(vs: seq<Point>, h: int, atan2: (int, int) -> real)
    requires 0 <= h < |vs|
  {
    forall i, k :: 0 <= i < |vs| && 0 <= k < |vs| && i != h && k != h ==>
      AngleFrom(vs, h, atan2, i) == AngleFrom(vs, h, atan2, k)
  }

  /** The records share one angle exactly when all non-pivot vertices share one atan2 angle from the pivot. */
  lemma SharedAngleIffOneAngle(vs: seq<Point>, h: int, atan2: (int, int) -> real, s: seq<AngleRecord>)
    requires 0 <= h < |vs| && RecordsOf(vs, h, atan2, s)
    ensures SharedAngle(vs, h, atan2) <==> OneAngle(s)
  {
    if OneAngle(s) {
      forall i, k | 0 <= i < |vs| && 0 <= k < |vs| && i != h && k != h
        ensures AngleFrom(vs, h, atan2, i) == AngleFrom(vs, h, atan2, k)
      {
        var ri := AngleRecord(AngleFrom(vs, h, atan2, i), i);
        var rk := AngleRecord(AngleFrom(vs, h, atan2, k), k);
        assert ri in s && rk in s;
        var p :| 0 <= p < |s| && s[p] == ri;
        var q :| 0 <= q < |s| && s[q] == rk;
        assert s[p].angle == s[q].angle;
      }
    }
  }

  /** What survives the dedup pass of one record per non-pivot vertex names distinct non-pivot vertices. */
  lemma TossedLiveIndexed(vs: seq<Point>, h: int, atan2: (int, int) -> real, s: seq<AngleRecord>)
    requires 0 <= h < |vs| && RecordsOf(vs, h, atan2, s)
    ensures IndicesIn(s, |vs|) && LiveIndexed(AfterToss(s, vs, h), |vs|, h)
  {
    var t := AfterToss(s, vs, h);
    forall p, q | 0 <= p < q < |t| && Live(t[p]) && Live(t[q])
      ensures t[p].index != t[q].index
    {
      assert t[p] == s[p] && t[q] == s[q];
    }
  }

  /**
   * `poly` is the polygon through the vertices `idx`: it has between three
   * and `|vs|` corners, starts at the pivot `h` and names distinct vertices;
   * the vertices after the pivot come in strictly increasing angle from it,
   * the first and the last of them have the smallest and the largest angle
   * of all non-pivot vertices, and every vertex above the first three passed
   * the turn test against the two below it.
   */
  ghost predicate HullIndices(vs: seq<Point>, h: int, atan2: (int, int) -> real,
                              isNonLeft: (int, int, int, int, seq<Point>) -> bool,
                              poly: seq<Point>, idx: seq<int>)
    requires 0 <= h < |vs|
  {
    && |idx| == |poly| && 3 <= |idx| <= |vs| && idx[0] == h
    && (forall k :: 0 <= k < |idx| ==> 0 <= idx[k] < |vs| && poly[k] == vs[idx[k]])
    && Distinct(idx)
    && (forall k, l :: 1 <= k < l < |idx| ==> AngleFrom(vs, h, atan2, idx[k]) < AngleFrom(vs, h, atan2, idx[l]))
    && (forall k :: 3 <= k < |idx| ==> TurnsLeftAt(isNonLeft, vs, h, idx, k))
    && (forall i :: 0 <= i < |vs| && i != h ==>
          AngleFrom(vs, h, atan2, idx[1]) <= AngleFrom(vs, h, atan2, i) <= AngleFrom(vs, h, atan2, idx[|idx| - 1]))
  }

  /** The first and the last vertex after the pivot bound the angles of all non-pivot vertices. */
  lemma ScannedSpansAngles(vs: seq<Point>, h: int, atan2: (int, int) -> real, s: seq<AngleRecord>, first: int, last: int)
    requires 0 <= h < |vs| && RecordsOf(vs, h, atan2, s) && SortedByAngle(s)
    requires 0 <= first < |s| && Live(AfterToss(s, vs, h)[first])
    requires forall q :: 0 <= q < first ==> !Live(AfterToss(s, vs, h)[q])
    requires 0 <= last < |s| && Live(AfterToss(s, vs, h)[last])
    requires forall q :: last < q < |s| ==> !Live(AfterToss(s, vs, h)[q])
    ensures forall i :: 0 <= i < |vs| && i != h ==>
              AngleFrom(vs, h, atan2, s[first].index) <= AngleFrom(vs, h, atan2, i) <= AngleFrom(vs, h, atan2, s[last].index)
  {
    FirstSurvivorSmallest(s, vs, h, first);
    LastSurvivorLargest(s, vs, h, last);
    forall i | 0 <= i < |vs| && i != h
      ensures AngleFrom(vs, h, atan2, s[first].index) <= AngleFrom(vs, h, atan2, i) <= AngleFrom(vs, h, atan2, s[last].index)
    {
      var r := AngleRecord(AngleFrom(vs, h, atan2, i), i);
      assert r in s;
      var q :| 0 <= q < |s| && s[q] == r;
      assert s[first].angle <= s[q].angle <= s[last].angle;
    }
  }

  /** Strictly increasing positions below `n` are at most `n` many. */
  lemma {:induction false} IncreasingPositionsFit(pos: seq<int>, n: int)
    requires 0 <= n
    requires forall k :: 0 <= k < |pos| ==> 0 <= pos[k] < n
    requires forall k, l :: 0 <= k < l < |pos| ==> pos[k] < pos[l]
    ensures |pos| <= n
  {
    if pos != [] {
      var init := pos[..|pos| - 1];
      assert forall k :: 0 <= k < |init| ==> init[k] == pos[k] < pos[|pos| - 1];
      IncreasingPositionsFit(init, pos[|pos| - 1]);
    }
  }

  /** The stack never holds more entries than there are vertices. */
  lemma StackFits(vs: seq<Point>, h: int, atan2: (int, int) -> real,
                  isNonLeft: (int, int, int, int, seq<Point>) -> bool,
                  s: seq<AngleRecord>, first: int, stack: seq<int>, sp: int, pos: seq<int>)
    requires 0 <= h < |vs| && RecordsOf(vs, h, atan2, s)
    requires ScanStack(AfterToss(s, vs, h), vs, h, isNonLeft, first, |s|, stack, sp, pos)
    ensures sp <= |vs|
  {
    IncreasingPositionsFit(pos, |s|);
  }

  /** The vertices on the stack after the pivot come in strictly increasing angle. */
  lemma StackAnglesIncrease(vs: seq<Point>, h: int, atan2: (int, int) -> real,
                            isNonLeft: (int, int, int, int, seq<Point>) -> bool,
                            s: seq<AngleRecord>, first: int, stack: seq<int>, sp: int, pos: seq<int>)
    requires 0 <= h < |vs| && RecordsOf(vs, h, atan2, s) && SortedByAngle(s)
    requires ScanStack(AfterToss(s, vs, h), vs, h, isNonLeft, first, |s|, stack, sp, pos)
    requires forall k :: 0 <= k < sp ==> 0 <= stack[k] < |vs|
    ensures forall k, l :: 1 <= k < l < sp ==> AngleFrom(vs, h, atan2, stack[k]) < AngleFrom(vs, h, atan2, stack[l])
  {
    var t := AfterToss(s, vs, h);
    forall k, l | 1 <= k < l < sp
      ensures AngleFrom(vs, h, atan2, stack[k]) < AngleFrom(vs, h, atan2, stack[l])
    {
      var p, q := pos[k - 1], pos[l - 1];
      assert p < q && Live(t[p]) && Live(t[q]);
      assert t[p] == s[p] && t[q] == s[q];
      LiveAnglesIncrease(s, vs, h, p, q);
    }
  }

  /** The first and the last vertex on the stack after the pivot bound the angles of all non-pivot vertices. */
  lemma StackSpansAngles(vs: seq<Point>, h: int, atan2: (int, int) -> real,
                         isNonLeft: (int, int, int, int, seq<Point>) -> bool,
                         s: seq<AngleRecord>, first: int, stack: seq<int>, sp: int, pos: seq<int>)
    requires 0 <= h < |vs| && RecordsOf(vs, h, atan2, s) && SortedByAngle(s)
    requires ScanStack(AfterToss(s, vs, h), vs, h, isNonLeft, first, |s|, stack, sp, pos)
    requires (forall q :: 0 <= q < first ==> !Live(AfterToss(s, vs, h)[q])) && LastOnTop(AfterToss(s, vs, h), |s|, pos)
    requires forall k :: 0 <= k < sp ==> 0 <= stack[k] < |vs|
    ensures forall i :: 0 <= i < |vs| && i != h ==>
              AngleFrom(vs, h, atan2, stack[1]) <= AngleFrom(vs, h, atan2, i) <= AngleFrom(vs, h, atan2, stack[sp - 1])
  {
    var t := AfterToss(s, vs, h);
    var last := pos[sp - 2];
    assert Live(t[last]) && t[last] == s[last] && stack[sp - 1] == s[last].index;
    assert Live(t[first]) && t[first] == s[first] && stack[1] == s[first].index;
    ScannedSpansAngles(vs, h, atan2, s, first, last);
  }

  /** The live stack `stack[..sp]` on its own satisfies the stack invariant. */
  lemma TrimStack(t: seq<AngleRecord>, vs: seq<Point>, h: int,
                  isNonLeft: (int, int, int, int, seq<Point>) -> bool,
                  first: int, j: int, stack: seq<int>, sp: int, pos: seq<int>)
    requires ScanStack(t, vs, h, isNonLeft, first, j, stack, sp, pos)
    ensures ScanStack(t, vs, h, isNonLeft, first, j, stack[..sp], sp, pos)
  {
    forall k | 3 <= k < sp
      ensures TurnsLeftAt(isNonLeft, vs, h, stack[..sp], k)
    {
      assert TurnsLeftAt(isNonLeft, vs, h, stack, k);
    }
  }

  /** Once the scan is done, the live stack names the vertices of a polygon as `HullIndices` describes it. */
  lemma ScannedHull(vs: seq<Point>, h: int, atan2: (int, int) -> real,
                    isNonLeft: (int, int, int, int, seq<Point>) -> bool,
                    s: seq<AngleRecord>, first: int, idx: seq<int>, pos: seq<int>, poly: seq<Point>)
    requires 0 <= h < |vs| && RecordsOf(vs, h, atan2, s) && SortedByAngle(s)
    requires ScanStack(AfterToss(s, vs, h), vs, h, isNonLeft, first, |s|, idx, |idx|, pos) && 3 <= |idx|
    requires (forall q :: 0 <= q < first ==> !Live(AfterToss(s, vs, h)[q])) && LastOnTop(AfterToss(s, vs, h), |s|, pos)
    requires PolygonOf(vs, idx, poly)
    ensures HullIndices(vs, h, atan2, isNonLeft, poly, idx)
  {
    TossedLiveIndexed(vs, h, atan2, s);
    StackDistinct(AfterToss(s, vs, h), vs, h, isNonLeft, first, |s|, idx, |idx|, pos);
    StackFits(vs, h, atan2, isNonLeft, s, first, idx, |idx|, pos);
    StackAnglesIncrease(vs, h, atan2, isNonLeft, s, first, idx, |idx|, pos);
    StackSpansAngles(vs, h, atan2, isNonLeft, s, first, idx, |idx|, pos);
  }

  /** Lines 29-35: the records of the non-pivot vertices, sorted by angle. */
  method SortedAngleRecords(vs: seq<Point>, h: int, atan2: (int, int) -> real) returns (points: array<AngleRecord>)
    requires 0 <= h < |vs|
    ensures fresh(points)
    ensures RecordsOf(vs, h, atan2, points[..]) && SortedByAngle(points[..])
  {
    points := AngleRecords(vs, h, atan2);
    ghost var built := points[..];
    SortByAngle(points);
    SortedRecordsOf(vs, h, atan2, points[..], built);
  }

  /** What the seeding of the stack needs to know about the records the dedup pass leaves. */
  lemma TossedRecords(vs: seq<Point>, h: int, atan2: (int, int) -> real, s: seq<AngleRecord>)
    requires 0 <= h < |vs| && RecordsOf(vs, h, atan2, s)
    ensures IndicesIn(s, |vs|) && LiveIndexed(AfterToss(s, vs, h), |vs|, h)
    ensures AtMostOneLive(AfterToss(s, vs, h)) <==> SharedAngle(vs, h, atan2)
  {
    TossedLiveIndexed(vs, h, atan2, s);
    AtMostOneLiveIffOneAngle(s, vs, h);
    SharedAngleIffOneAngle(vs, h, atan2, s);
  }

  /**
   * Lines 29-62: the records of the non-pivot vertices, sorted by angle and
   * with duplicate angles tossed out; `sorted` is the array before the dedup
   * pass.
   */
  method DedupedAngleRecords(vs: seq<Point>, h: int, atan2: (int, int) -> real)
    returns (points: array<AngleRecord>, ghost sorted: seq<AngleRecord>)
    requires 2 <= |vs| && 0 <= h < |vs|
    ensures fresh(points)
    ensures RecordsOf(vs, h, atan2, sorted) && SortedByAngle(sorted) && points[..] == AfterToss(sorted, vs, h)
    ensures LiveIndexed(points[..], |vs|, h)
    ensures AtMostOneLive(points[..]) <==> SharedAngle(vs, h, atan2)
  {
    points := SortedAngleRecords(vs, h, atan2);
    sorted := points[..];
    TossedRecords(vs, h, atan2, sorted);
    TossDuplicateAngles(points, vs, h);
  }

  /** `poly` lists the vertices that `idx` names, in order. */
  ghost predicate PolygonOf(vs: seq<Point>, idx: seq<int>, poly: seq<Point>) {
    |poly| == |idx| && forall k :: 0 <= k < |idx| ==> 0 <= idx[k] < |vs| && poly[k] == vs[idx[k]]
  }

  /** `r` is what lines 64-88 return on the records `t` left by the dedup pass, by the reference scan. */
  ghost predicate HullOutcome(vs: seq<Point>, h: int, isNonLeft: (int, int, int, int, seq<Point>) -> bool,
                              t: seq<AngleRecord>, r: Result<seq<Point>>)
  {
    match HullStack(t, vs, h, isNonLeft)
    case Err(e) => r == Err(e)
    case Ok(idx) => r.Ok? && PolygonOf(vs, idx, r.value)
  }

  /**
   * Lines 64-88 on the records the dedup pass left in `points`: seed the
   * stack, scan, and read the polygon off the live stack. The result is the
   * reference scan's, and it is an error exactly when at most one record
   * survived.
   */
  method HullOfRecords(points: array<AngleRecord>, ghost t: seq<AngleRecord>, vs: seq<Point>, h: int,
                       isNonLeft: (int, int, int, int, seq<Point>) -> bool)
    returns (r: Result<seq<Point>>, ghost first: int, ghost idx: seq<int>, ghost pos: seq<int>)
    requires points[..] == t
    requires 0 <= h < |vs| && LiveIndexed(t, |vs|, h)
    requires PivotNeverPops(isNonLeft, vs)
    ensures r.Err? <==> AtMostOneLive(t)
    ensures HullOutcome(vs, h, isNonLeft, t, r)
    // what the scan leaves on the stack, for `ScannedHull`
    ensures r.Ok? ==> HullStack(t, vs, h, isNonLeft) == Ok(idx)
    ensures r.Ok? ==> && ScanStack(t, vs, h, isNonLeft, first, |t|, idx, |idx|, pos) && 3 <= |idx|
                      && (forall q :: 0 <= q < first ==> !Live(t[q])) && LastOnTop(t, |t|, pos)
                      && PolygonOf(vs, idx, r.value)
  {
    var stack, j, ok;
    stack, j, ok, first := SeedStack(points, h);
    SeedIsNextLive(points[..], vs, h, isNonLeft, ok, first, j, stack);
    if !ok {
      r, idx, pos := Err(PastEndOfPoints), [], [];
      return;
    }
    var sp;
    stack, sp, pos := Scan(points, vs, h, isNonLeft, stack, j, first);
    var poly := BuildPolygon(vs, stack, sp);
    idx := stack[..sp];
    assert PolygonOf(vs, idx, poly);
    TrimStack(points[..], vs, h, isNonLeft, first, points.Length, stack, sp, pos);
    r := Ok(poly);
  }

  /**
   * Lines 10-88: the convex hull of `vertices` as a polygon. Fewer than three
   * vertices give the empty polygon. When all non-pivot vertices share one
   * atan2 angle from the pivot (a vertex equal to the pivot gets
   * atan2(0, 0)), the original reads past the end of `points`. Otherwise the
   * polygon is the reference scan of the sorted, deduplicated records, and
   * the reference stack itself satisfies `HullIndices`: it starts at the
   * pivot and runs through distinct input positions in increasing angle,
   * each passing the turn test.
   */
  method ComputeHull(vertices: seq<Point>, atan2: (int, int) -> real,
                     isNonLeft: (int, int, int, int, seq<Point>) -> bool)
    returns (r: Result<seq<Point>>)
    requires PivotNeverPops(isNonLeft, vertices)
    ensures |vertices| < 3 ==> r == Ok([])
    ensures 3 <= |vertices| ==> (r.Err? <==> SharedAngle(vertices, Pivot(vertices, |vertices|), atan2))
    ensures 3 <= |vertices| ==>
              exists s :: && RecordsOf(vertices, Pivot(vertices, |vertices|), atan2, s) && SortedByAngle(s)
                          && HullOutcome(vertices, Pivot(vertices, |vertices|), isNonLeft,
                                         AfterToss(s, vertices, Pivot(vertices, |vertices|)), r)
                          && (r.Ok? ==>
                                var stack := HullStack(AfterToss(s, vertices, Pivot(vertices, |vertices|)),
                                                       vertices, Pivot(vertices, |vertices|), isNonLeft);
                                stack.Ok? && HullIndices(vertices, Pivot(vertices, |vertices|), atan2, isNonLeft, r.value, stack.value))
  {
    if |vertices| < 3 {
      return Ok([]);
    }
    var h := FindPivot(vertices);
    var points;
    ghost var sorted;
    points, sorted := DedupedAngleRecords(vertices, h, atan2);
    ghost var first, idx, pos;
    r, first, idx, pos := HullOfRecords(points, AfterToss(sorted, vertices, h), vertices, h, isNonLeft);
    if r.Ok? {
      ScannedHull(vertices, h, atan2, isNonLeft, sorted, first, idx, pos, r.value);
    }
  }
}
