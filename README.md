# d3.geom.hull as a verified Dafny model

`d3.geom.hull` (src/geom/hull.js) computes the convex hull of an array of
`[x, y]` vertices with Graham's scan. The function works in these phases:

1. It picks the pivot `h`, the lowest vertex and then the leftmost.
2. It builds one `{angle, index}` record for every other vertex and sorts the records by angle.
3. It tosses out duplicate angles. Within each run of equal angles it keeps the record farthest
   from the pivot and overwrites the index of every other record with the tombstone `-1`.
4. It seeds a stack with the pivot and the first two surviving records.
5. It scans the rest. A manual stack pointer `sp` pops entries while the law-of-cosines turn
   test `d3_geom_hullIsNonLeft` reports a non-left turn.
6. It returns the vertices named by `stack[0..sp)`.

The model lives in one module, `GeomHull` (hull.dfy), with one method per phase and
`ComputeHull` composing them. The code is imperative, and so is the model:

- the pivot search is a loop over the vertices;
- `points` is an `array<AngleRecord>`, which the sort and the dedup pass change in place;
- the stack is a `seq<int>` written like the JavaScript array (`stack[sp++] = x` overwrites or
  appends), with a separate `sp`;
- the polygon is built by a push loop.

Each method is proved against a specification function or predicate. The properties of those
specifications are proved as lemmas.

Modelling choices:

- Coordinates are integers (`Point(x, y)`), so the squared distances of the dedup pass and of the
  turn test are exact.
- `Math.atan2` is a parameter `atan2: (int, int) -> real`. It is applied to the same `(dy, dx)`
  differences as line 33.
- The scan takes the turn test as a parameter `isNonLeft`. It requires the test to be false
  whenever its first two indices are equal (`PivotNeverPops`). That requirement is what keeps
  `sp >= 2`.
- `IsNonLeft` writes lines 92-101 out over exact reals, with `acos`, `sqrt` and `pi` as
  parameters. `PivotNeverNonLeft` proves that this formula meets the requirement.
- With fewer than two surviving records, line 67 reads `points[j]` past the end of `points`,
  which is a TypeError in JavaScript. This happens exactly when all non-pivot vertices share one
  atan2 angle from the pivot, for example `[[0,0],[1,1],[2,2]]`. A vertex equal to the pivot gets
  `atan2(0, 0) = 0`, so `[[0,0],[0,0],[0,1]]` (angles 0 and pi/2) does not throw. The model
  returns `Err(PastEndOfPoints)` in that case; `ComputeHull` states the exact condition.
- The scan is stated twice: as the imperative loop over `stack` and `sp`, and as the reference
  functions `PopWhile` (lines 77-79), `ScanFrom` (lines 75-81) and `HullStack` (lines 64-81) on
  the live stack. The methods are proved to compute exactly what the reference functions
  compute, and the hull properties are proved about the resulting stack.

## Model

| member | source | states |
|---|---|---|
| GeomHull.Pivot | src/geom/hull.js:20-26 | The pivot among the first `n` vertices is in range, and no vertex is strictly lower, or equally low and strictly further left. Every earlier vertex is strictly upper-right of it, so on a full tie the earliest index wins. |
| GeomHull.FindPivot | src/geom/hull.js:20-26 | The loop returns exactly the pivot `Pivot(vs, |vs|)`. |
| GeomHull.AngleRecords | src/geom/hull.js:29-34 | `points` is a fresh array holding exactly one record per non-pivot vertex, with that vertex's angle from the pivot. No vertex is named twice, and the records come in vertex order with the pivot skipped. |
| GeomHull.SortByAngle | src/geom/hull.js:35 | Afterwards the records are in non-decreasing angle order and are a permutation of the records before. |
| GeomHull.InsertIntoSorted | src/geom/hull.js:35 | One insertion step extends the sorted prefix by one record, leaves every record after it in place, and keeps the multiset of records. |
| GeomHull.SortedRecordsOf | src/geom/hull.js:29-35 | Any permutation of the records of the non-pivot vertices is still exactly one record per non-pivot vertex. |
| GeomHull.SortedAngleRecords | src/geom/hull.js:29-35 | After the build and the sort, `points` holds one record per non-pivot vertex, sorted by angle. |
| GeomHull.AfterToss | src/geom/hull.js:38-62 | The dedup result has the same length and the same angles as its input. Each record is either unchanged or has its index overwritten with the tombstone. |
| GeomHull.TossDuplicateAngles | src/geom/hull.js:38-62 | On sorted records, the in-place pass leaves exactly `AfterToss` of its input. Only the first of the records farthest from the pivot keeps its index in each run of equal angles. |
| GeomHull.RunKeepsOne | src/geom/hull.js:43-56 | Every run of equal angles has a survivor that keeps its record. The survivor is at least as far from the pivot as every record of its run and strictly farther than every earlier one, which is the `>=` tie-break. It is the only live record of that angle. |
| GeomHull.AtMostOneLiveIffOneAngle | src/geom/hull.js:38-72 | At most one record survives the dedup pass if and only if all records share one angle. |
| GeomHull.LiveAnglesIncrease | src/geom/hull.js:35-62 | In sorted records, the survivors come in strictly increasing angle. |
| GeomHull.FirstSurvivorSmallest | src/geom/hull.js:38-70 | In sorted records, the first survivor has the smallest angle of all records. |
| GeomHull.LastSurvivorLargest | src/geom/hull.js:38-81 | In sorted records, the last survivor has the largest angle of all records. |
| GeomHull.SeedStack | src/geom/hull.js:64-72 | Seeding succeeds exactly when at least two records survive, and otherwise reports the read past the end. On success the stack is `[h, first survivor, second survivor]`, `j` is the position after the second survivor, and nothing else before it survives. |
| GeomHull.PopWhile | src/geom/hull.js:77-79 | The popped stack is a prefix of at least two entries of the live stack. Every dropped entry failed the turn test against the new index, and the new top passes it unless only two entries are left. |
| GeomHull.ScanFrom | src/geom/hull.js:75-81 | Scanning the records from position `j` never touches the two entries at the bottom of the live stack. |
| GeomHull.NextLive | src/geom/hull.js:66-71 | The result is the first position at or after `j` holding a surviving record, or the end of the records when there is none. |
| GeomHull.SeedIsNextLive | src/geom/hull.js:64-72 | The seeding loop fails exactly when the reference `HullStack` does. When it succeeds, the reference result is the scan from the seeded stack at the position after the second survivor. |
| GeomHull.PopNonLeft | src/geom/hull.js:77-79 | The pops keep `sp >= 2` and keep the stack invariant, with only a shorter prefix of the positions. Every popped entry failed the turn test against the new index, and the new top passes it. The remaining live stack is exactly `PopWhile` of the old one. |
| GeomHull.PopKeepsStack | src/geom/hull.js:77-78 | Lowering `sp` keeps the stack invariant, with the positions cut to match. |
| GeomHull.PopOne | src/geom/hull.js:77-78 | One pop after a failed turn test leaves `PopWhile`'s result unchanged. |
| GeomHull.PopNone | src/geom/hull.js:77 | When the top passes the turn test, `PopWhile` pops nothing. |
| GeomHull.Store | src/geom/hull.js:80 | `a[i] = x` with `i <= a.length` puts `x` at `i`, leaves the other entries alone, and grows the array only when `i` is its length. |
| GeomHull.PushKeepsStack | src/geom/hull.js:77-80 | Pushing a surviving record that passed the turn test keeps the stack invariant. The positions stay increasing, every entry above the seeds has passed the turn test, and the pivot and the first survivor stay at the bottom. |
| GeomHull.StackDistinct | src/geom/hull.js:75-81 | The live stack names in-range vertices, no vertex twice. |
| GeomHull.SkipTossed | src/geom/hull.js:76 | Skipping a tombstone keeps the stack invariant, and the last survivor is still on top. |
| GeomHull.SeedScanned | src/geom/hull.js:64-75 | The seeded stack satisfies the scan invariant at the first position after the seeds, with the reference scan from the seeds as its target. |
| GeomHull.ScanStep | src/geom/hull.js:76-80 | One iteration keeps the scan invariant. A tombstone leaves the stack and `sp` unchanged. For a surviving record, the new live stack is `PopWhile` of the old one followed by the record's index. |
| GeomHull.Scan | src/geom/hull.js:75-81 | The live stack at the end is exactly the reference scan `ScanFrom` from the seeds. It is the pivot followed by surviving records in increasing position, with the first survivor at the bottom and the last survivor on top. Every entry above the seeds passed the turn test. The entries are in range and distinct. |
| GeomHull.BuildPolygon | src/geom/hull.js:84-88 | The polygon has `sp` corners, and corner `k` is the vertex named by `stack[k]`. |
| GeomHull.SquaredDistanceZero | src/geom/hull.js:94-98 | A squared distance is never negative, and it is zero exactly when the two vertices coincide. |
| GeomHull.SideLengths | src/geom/hull.js:94-98 | The squared lengths l1 (`i1` to `i2`), l2 (`i2` to `i3`), l4 (`i0` to `i3`), l5 (`i0` to `i1`) and l6 (`i0` to `i2`) are non-negative. Each is zero exactly when its two vertices coincide. With `i0 == i1`, l5 is 0 and l6 equals l1. |
| GeomHull.CoincidentNeverNonLeft | src/geom/hull.js:99-101 | When the middle vertex coincides with another of the four, a denominator is `2 * sqrt(0)`, the cosine is NaN and the test reports no non-left turn. The test is modelled by `IsNonLeft`, which maps every NaN path (a zero denominator, or a cosine outside [-1, 1]) to false. |
| GeomHull.PivotTurnIsStraight | src/geom/hull.js:92-101 | With `i0 == i1`, the law-of-cosines test never reports a non-left turn. |
| GeomHull.PivotNeverNonLeft | src/geom/hull.js:92-101 | The turn test of lines 92-101 satisfies `PivotNeverPops`, which the scan requires, given `acos(1) = 0`, `acos <= pi` on [-1, 1] and an exact square root. |
| GeomHull.SharedAngleIffOneAngle | src/geom/hull.js:29-35 | The records share one angle if and only if all non-pivot vertices share one angle from the pivot. |
| GeomHull.TossedLiveIndexed | src/geom/hull.js:38-62 | After the dedup pass the survivors name distinct, in-range, non-pivot vertices. |
| GeomHull.TossedRecords | src/geom/hull.js:38-72 | After the dedup pass the survivors name distinct non-pivot vertices, and at most one survives if and only if all non-pivot vertices share one angle. |
| GeomHull.IncreasingPositionsFit | src/geom/hull.js:75-81 | At most `n` strictly increasing positions fit below `n`. |
| GeomHull.StackFits | src/geom/hull.js:75-81 | The stack pointer never exceeds the number of vertices. |
| GeomHull.StackAnglesIncrease | src/geom/hull.js:75-81 | The vertices on the stack after the pivot have strictly increasing angles from the pivot. |
| GeomHull.ScannedSpansAngles | src/geom/hull.js:64-81 | The first and the last survivor bound the angle of every non-pivot vertex. |
| GeomHull.StackSpansAngles | src/geom/hull.js:64-81 | The vertex above the pivot has the smallest angle of all non-pivot vertices, and the vertex on top has the largest. |
| GeomHull.TrimStack | src/geom/hull.js:84-87 | The live stack `stack[0..sp)` on its own satisfies the stack invariant. |
| GeomHull.ScannedHull | src/geom/hull.js:75-88 | After the scan, the polygon through the live stack is described by `HullIndices`. |
| GeomHull.DedupedAngleRecords | src/geom/hull.js:29-62 | `points` holds the dedup pass applied to one record per non-pivot vertex, sorted by angle. The survivors name distinct non-pivot vertices, and at most one survives exactly when all non-pivot vertices share one angle. |
| GeomHull.HullOfRecords | src/geom/hull.js:64-88 | On the records left by the dedup pass, the result is exactly the reference `HullStack` read as a polygon, or its error. It is an error exactly when at most one record survives. On success, the live stack it reads the polygon from is `HullStack`'s stack. |
| GeomHull.ComputeHull | src/geom/hull.js:10-88 | Fewer than three vertices give `[]`. With three or more, the result is an error exactly when all non-pivot vertices share one atan2 angle from the pivot. Otherwise it is the polygon through the reference stack `HullStack` of the sorted, deduplicated records, and `HullIndices` holds of that stack. The polygon has between 3 and `len` corners. It starts at the pivot and runs through distinct input positions in strictly increasing angle. Equal vertices at different positions can both appear, so `[[0,0],[0,0],[0,1]]` gives `[0,0]` twice. Its second and last corners have the smallest and the largest angle, and every corner after the third passed the turn test against the two before it. |

## Left out

- Floating point is not modelled. `Math.atan2` is a parameter of the model, and the turn test is
  a parameter of the scan. `IsNonLeft` reads lines 92-101 over exact reals, so rounding, and its
  effect on which angles compare equal, are not modelled.
- Coordinates are integers. Fractional, NaN and infinite coordinates are not modelled, and neither
  are squared distances beyond 2^53, where JavaScript numbers lose exactness.
- ComputeHull: the result is not proved convex, and the input vertices are not proved to lie
  inside it. Both depend on the floating-point turn test. The model proves the index bookkeeping
  and the angular order instead.
- SortByAngle: an insertion sort stands for `Array.prototype.sort`. Only what the callers rely on
  is stated: sorted by angle, and a permutation. The engine's algorithm and its order among equal
  angles are not modelled, and neither is a NaN comparator result.
- `points` is an array of length `len - 1` filled in order, instead of an array grown by `push`.
- Attaching the function to the global `d3.geom` namespace (line 10) and the O(n log n) running
  time (lines 4-5) are not modelled.
