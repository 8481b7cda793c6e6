/**
  Heights of a map grid: taking the two interleaved vertex grids apart, and packing them into
  integers of one or two bytes.
 */
module MapHeights {
  import opened Basics
  import opened MapGrid

  /** A chunk of the source file: its base height, and the 145 heights of its vertices on top of that. */
  datatype Chunk = Chunk(base: real, heights: Option<seq<real>>)

  ghost predicate ValidChunk(c: Chunk) { c.heights.Some? ==> |c.heights.value| == 145 }

  ghost predicate ValidChunks(cells: seq<seq<Chunk>>) {
    && |cells| == CELLS
    && (forall i :: 0 <= i < CELLS ==> |cells[i]| == CELLS)
    && forall i, j :: 0 <= i < CELLS && 0 <= j < CELLS ==> ValidChunk(cells[i][j])
  }

  // ---- Where a vertex of a chunk is stored -------------------------------------------------------

  function Index9(y: nat, x: nat): nat { y * (CELL * 2 + 1) + x }

  function Index8(y: nat, x: nat): nat { y * (CELL * 2 + 1) + CELL + 1 + x }

  /** Every one of the 145 heights is a vertex of exactly one of the two grids, in exactly one place. */
  lemma IndicesPartition(k: nat)
    requires k < 145
    ensures var y, x := k / 17, k % 17;
            if x <= 8
            then y <= 8 && Index9(y, x) == k && forall u, v :: 0 <= u < 8 && 0 <= v < 8 ==> Index8(u, v) != k
            else y < 8 && Index8(y, x - 9) == k && forall u, v :: 0 <= u <= 8 && 0 <= v <= 8 ==> Index9(u, v) != k
  {
  }

  lemma IndicesAreDistinct(y: nat, x: nat, y': nat, x': nat)
    ensures y <= 8 && x <= 8 && y' <= 8 && x' <= 8 && Index9(y, x) == Index9(y', x') ==> y == y' && x == x'
    ensures y < 8 && x < 8 && y' < 8 && x' < 8 && Index8(y, x) == Index8(y', x') ==> y == y' && x == x'
    ensures y <= 8 && x <= 8 ==> Index9(y, x) < 145
    ensures y < 8 && x < 8 ==> Index8(y, x) < 145
  {
  }

  function Vertex9(c: Chunk, y: nat, x: nat): real
    requires ValidChunk(c) && y <= CELL && x <= CELL
  {
    IndicesAreDistinct(y, x, y, x);
    if c.heights.Some? then c.base + c.heights.value[Index9(y, x)] else c.base
  }

  function Vertex8(c: Chunk, y: nat, x: nat): real
    requires ValidChunk(c) && y < CELL && x < CELL
  {
    IndicesAreDistinct(y, x, y, x);
    if c.heights.Some? then c.base + c.heights.value[Index8(y, x)] else c.base
  }

  /** A row of nine corners and one of eight middles alternate, and heights are relative to the base. */
  lemma VertexIs(c: Chunk, y: nat, x: nat)
    requires ValidChunk(c) && c.heights.Some?
    ensures y <= 8 && x <= 8 ==> Vertex9(c, y, x) == c.base + c.heights.value[17 * y + x]
    ensures y < 8 && x < 8 ==> Vertex8(c, y, x) == c.base + c.heights.value[17 * y + 9 + x]
  {
  }

  /** The height of a vertex of the whole grid. */
  function At9(cells: seq<seq<Chunk>>, y: nat, x: nat): real
    requires ValidChunks(cells) && y <= GRID && x <= GRID
  {
    Vertex9(cells[Owner(y)][Owner(x)], y - CELL * Owner(y), x - CELL * Owner(x))
  }

  function At8(cells: seq<seq<Chunk>>, y: nat, x: nat): real
    requires ValidChunks(cells) && y < GRID && x < GRID
  {
    Vertex8(cells[Owner(y)][Owner(x)], y - CELL * Owner(y), x - CELL * Owner(x))
  }

  // ---- Unpacking -----------------------------------------------------------------------------------

  /** Whether a vertex lies in a square, and comes before position (y, x) of the square in reading order. */
  predicate Before(top: nat, left: nat, side: nat, y: nat, x: nat, a: int, b: int) {
    top <= a < top + side && left <= b < left + side && (a < top + y || (a == top + y && b < left + x))
  }

  method SetSquare(V: array2<real>, top: nat, left: nat, side: nat, base: real)
    requires top + side <= V.Length0 && left + side <= V.Length1
    modifies V
    ensures forall a, b :: 0 <= a < V.Length0 && 0 <= b < V.Length1 ==>
              V[a, b] == if Before(top, left, side, side, 0, a, b) then base else old(V[a, b])
  {
    for y := 0 to side
      invariant forall a, b :: 0 <= a < V.Length0 && 0 <= b < V.Length1 ==>
                  V[a, b] == if Before(top, left, side, y, 0, a, b) then base else old(V[a, b])
    {
      for x := 0 to side
        invariant forall a, b :: 0 <= a < V.Length0 && 0 <= b < V.Length1 ==>
                    V[a, b] == if Before(top, left, side, y, x, a, b) then base else old(V[a, b])
      {
        V[top + y, left + x] := base;
      }
    }
  }

  /** Adds stored heights; `shift` is where in a row of 17 the square's first column stands. */
  method AddSquare(V: array2<real>, top: nat, left: nat, side: nat, shift: nat, heights: seq<real>)
    requires top + side <= V.Length0 && left + side <= V.Length1
    requires |heights| == 145 && ((side == CELL + 1 && shift == 0) || (side == CELL && shift == CELL + 1))
    modifies V
    ensures forall a, b :: 0 <= a < V.Length0 && 0 <= b < V.Length1 ==>
              V[a, b] == if Before(top, left, side, side, 0, a, b)
                         then old(V[a, b]) + heights[(a - top) * 17 + shift + (b - left)]
                         else old(V[a, b])
  {
    for y := 0 to side
      invariant forall a, b :: 0 <= a < V.Length0 && 0 <= b < V.Length1 ==>
                  V[a, b] == if Before(top, left, side, y, 0, a, b)
                             then old(V[a, b]) + heights[(a - top) * 17 + shift + (b - left)]
                             else old(V[a, b])
    {
      for x := 0 to side
        invariant forall a, b :: 0 <= a < V.Length0 && 0 <= b < V.Length1 ==>
                    V[a, b] == if Before(top, left, side, y, x, a, b)
                               then old(V[a, b]) + heights[(a - top) * 17 + shift + (b - left)]
                               else old(V[a, b])
      {
        V[top + y, left + x] := V[top + y, left + x] + heights[y * (CELL * 2 + 1) + shift + x];
      }
    }
  }

  /** Unpacks one chunk into the vertex grids. */
  method FillChunk(V9: array2<real>, V8: array2<real>, i: nat, j: nat, c: Chunk)
    requires V9 != V8 && V9.Length0 == V9.Length1 == GRID + 1 && V8.Length0 == V8.Length1 == GRID
    requires i < CELLS && j < CELLS && ValidChunk(c)
    modifies V9, V8
    ensures forall a, b :: 0 <= a <= GRID && 0 <= b <= GRID ==>
              V9[a, b] == if CELL * i <= a <= CELL * i + CELL && CELL * j <= b <= CELL * j + CELL
                          then Vertex9(c, a - CELL * i, b - CELL * j) else old(V9[a, b])
    ensures forall a, b :: 0 <= a < GRID && 0 <= b < GRID ==>
              V8[a, b] == if CELL * i <= a < CELL * i + CELL && CELL * j <= b < CELL * j + CELL
                          then Vertex8(c, a - CELL * i, b - CELL * j) else old(V8[a, b])
  {
    SetSquare(V9, CELL * i, CELL * j, CELL + 1, c.base);
    SetSquare(V8, CELL * i, CELL * j, CELL, c.base);
    if c.heights.Some? {
      AddSquare(V9, CELL * i, CELL * j, CELL + 1, 0, c.heights.value);
      AddSquare(V8, CELL * i, CELL * j, CELL, CELL + 1, c.heights.value);
    }
  }

  /** Vertices whose chunk comes before chunk (i, j) have their final height. */
  ghost predicate Settled(V9: array2<real>, V8: array2<real>, cells: seq<seq<Chunk>>, i: nat, j: nat)
    requires V9.Length0 == V9.Length1 == GRID + 1 && V8.Length0 == V8.Length1 == GRID
    requires ValidChunks(cells)
    reads V9, V8
  {
    && (forall a, b :: 0 <= a <= GRID && 0 <= b <= GRID && Earlier(a, b, i, j) ==> V9[a, b] == At9(cells, a, b))
    && (forall a, b :: 0 <= a < GRID && 0 <= b < GRID && Earlier(a, b, i, j) ==> V8[a, b] == At8(cells, a, b))
  }

  method FillNext(V9: array2<real>, V8: array2<real>, cells: seq<seq<Chunk>>, i: nat, j: nat)
    requires V9 != V8 && V9.Length0 == V9.Length1 == GRID + 1 && V8.Length0 == V8.Length1 == GRID
    requires ValidChunks(cells) && i < CELLS && j < CELLS
    requires Settled(V9, V8, cells, i, j)
    modifies V9, V8
    ensures Settled(V9, V8, cells, i, j + 1)
  {
    FillChunk(V9, V8, i, j, cells[i][j]);
    forall a, b | 0 <= a <= GRID && 0 <= b <= GRID && Earlier(a, b, i, j + 1)
      ensures V9[a, b] == At9(cells, a, b) && (a < GRID && b < GRID ==> V8[a, b] == At8(cells, a, b))
    {
      EarlierIsOutside(a, b, i, j);
    }
  }

  /** Unpacks all chunks; on the edges between chunks the later one wins. */
  method FillGrid(V9: array2<real>, V8: array2<real>, cells: seq<seq<Chunk>>)
    requires V9 != V8 && V9.Length0 == V9.Length1 == GRID + 1 && V8.Length0 == V8.Length1 == GRID
    requires ValidChunks(cells)
    modifies V9, V8
    ensures forall y, x :: 0 <= y <= GRID && 0 <= x <= GRID ==> V9[y, x] == At9(cells, y, x)
    ensures forall y, x :: 0 <= y < GRID && 0 <= x < GRID ==> V8[y, x] == At8(cells, y, x)
  {
    for i := 0 to CELLS
      invariant Settled(V9, V8, cells, i, 0)
    {
      for j := 0 to CELLS
        invariant Settled(V9, V8, cells, i, j)
      {
        FillNext(V9, V8, cells, i, j);
      }
    }
  }

  /** The grid holds what chunk (i, j) says about its vertex (y, x). */
  ghost predicate Faithful(cells: seq<seq<Chunk>>, i: nat, j: nat, y: nat, x: nat)
    requires ValidChunks(cells) && i < CELLS && j < CELLS && y <= CELL && x <= CELL
  {
    At9(cells, CELL * i + y, CELL * j + x) == Vertex9(cells[i][j], y, x)
  }

  /** Chunk (i, j) agrees with the chunks below and right of it on the k-th vertex of the common edge. */
  ghost predicate EdgesAgree(cells: seq<seq<Chunk>>, i: nat, j: nat, k: nat)
    requires ValidChunks(cells) && i < CELLS && j < CELLS && k <= CELL
  {
    && (i + 1 < CELLS ==> Vertex9(cells[i][j], CELL, k) == Vertex9(cells[i + 1][j], 0, k))
    && (j + 1 < CELLS ==> Vertex9(cells[i][j], k, CELL) == Vertex9(cells[i][j + 1], k, 0))
  }

  lemma AgreeingIsFaithful(cells: seq<seq<Chunk>>, i: nat, j: nat, y: nat, x: nat)
    requires ValidChunks(cells) && i < CELLS && j < CELLS && y <= CELL && x <= CELL
    requires EdgesAgree(cells, i, j, x) && EdgesAgree(cells, i, j, y)
    requires i + 1 < CELLS ==> EdgesAgree(cells, i + 1, j, 0)
    ensures Faithful(cells, i, j, y, x)
  {
  }

  lemma FaithfulAgrees(cells: seq<seq<Chunk>>, i: nat, j: nat, k: nat)
    requires ValidChunks(cells) && i < CELLS && j < CELLS && k <= CELL
    requires Faithful(cells, i, j, CELL, k) && Faithful(cells, i, j, k, CELL)
    requires (i + 1 < CELLS ==> Faithful(cells, i + 1, j, 0, k)) && (j + 1 < CELLS ==> Faithful(cells, i, j + 1, k, 0))
    ensures EdgesAgree(cells, i, j, k)
  {
  }

  ghost predicate AllFaithful(cells: seq<seq<Chunk>>)
    requires ValidChunks(cells)
  {
    forall i, j, y, x :: 0 <= i < CELLS && 0 <= j < CELLS && 0 <= y <= CELL && 0 <= x <= CELL ==>
      Faithful(cells, i, j, y, x)
  }

  ghost predicate AllAgree(cells: seq<seq<Chunk>>)
    requires ValidChunks(cells)
  {
    forall i, j, k :: 0 <= i < CELLS && 0 <= j < CELLS && 0 <= k <= CELL ==> EdgesAgree(cells, i, j, k)
  }

  /** Every chunk finds all its own heights in the grid, exactly if neighbours agree on the edges they share. */
  lemma FaithfulIffEdgesAgree(cells: seq<seq<Chunk>>)
    requires ValidChunks(cells)
    ensures AllFaithful(cells) <==> AllAgree(cells)
  {
    hide Faithful, EdgesAgree;
    if AllAgree(cells) {
      forall i, j, y, x | 0 <= i < CELLS && 0 <= j < CELLS && 0 <= y <= CELL && 0 <= x <= CELL
        ensures Faithful(cells, i, j, y, x)
      {
        AgreeingIsFaithful(cells, i, j, y, x);
      }
    }
    if AllFaithful(cells) {
      forall i, j, k | 0 <= i < CELLS && 0 <= j < CELLS && 0 <= k <= CELL
        ensures EdgesAgree(cells, i, j, k)
      {
        FaithfulAgrees(cells, i, j, k);
      }
    }
  }

  // ---- Range ---------------------------------------------------------------------------------------

  ghost predicate InRange(V: array2<real>, lo: real, hi: real)
    reads V
  {
    forall y, x :: 0 <= y < V.Length0 && 0 <= x < V.Length1 ==> lo <= V[y, x] <= hi
  }

  ghost predicate Occurs(V: array2<real>, h: real)
    reads V
  {
    exists y, x :: 0 <= y < V.Length0 && 0 <= x < V.Length1 && V[y, x] == h
  }

  /** Widens a range by the heights of a grid, and by no more. */
  method Widen(V: array2<real>, lo0: real, hi0: real) returns (lo: real, hi: real)
    ensures lo <= lo0 && hi0 <= hi
    ensures V.Length0 > 0 && V.Length1 > 0 ==> InRange(V, lo, hi)
    ensures (lo == lo0 || Occurs(V, lo)) && (hi == hi0 || Occurs(V, hi))
  {
    lo, hi := lo0, hi0;
    for y := 0 to V.Length0
      invariant lo <= lo0 && hi0 <= hi
      invariant forall a, b :: 0 <= a < y && 0 <= b < V.Length1 ==> lo <= V[a, b] <= hi
      invariant (lo == lo0 || Occurs(V, lo)) && (hi == hi0 || Occurs(V, hi))
    {
      for x := 0 to V.Length1
        invariant lo <= lo0 && hi0 <= hi
        invariant forall a, b :: 0 <= a < y && 0 <= b < V.Length1 ==> lo <= V[a, b] <= hi
        invariant forall b :: 0 <= b < x ==> lo <= V[y, b] <= hi
        invariant (lo == lo0 || Occurs(V, lo)) && (hi == hi0 || Occurs(V, hi))
      {
        var h := V[y, x];
        if hi < h { hi := h; }
        if lo > h { lo := h; }
      }
    }
  }

  /** Raises every height below the limit up to it. */
  method Raise(V: array2<real>, limit: real)
    modifies V
    ensures forall y, x :: 0 <= y < V.Length0 && 0 <= x < V.Length1 ==> V[y, x] == Max(old(V[y, x]), limit)
  {
    for y := 0 to V.Length0
      invariant forall a, b :: 0 <= a < V.Length0 && 0 <= b < V.Length1 ==>
                  V[a, b] == if a < y then Max(old(V[a, b]), limit) else old(V[a, b])
    {
      for x := 0 to V.Length1
        invariant forall a, b :: 0 <= a < V.Length0 && 0 <= b < V.Length1 ==>
                    V[a, b] == if a < y || (a == y && b < x) then Max(old(V[a, b]), limit) else old(V[a, b])
      {
        if V[y, x] < limit { V[y, x] := limit; }
      }
    }
  }

  function Max(a: real, b: real): (m: real)
    ensures a <= m && b <= m && (m == a || m == b)
  {
    if a < b then b else a
  }

  ghost predicate Grids(V9: array2<real>, V8: array2<real>) {
    V9 != V8 && V9.Length0 == V9.Length1 == GRID + 1 && V8.Length0 == V8.Length1 == GRID
  }

  /** The range covers all heights, and is no wider than that. */
  ghost predicate Spans(V9: array2<real>, V8: array2<real>, lo: real, hi: real)
    reads V9, V8
  {
    && lo <= hi && InRange(V9, lo, hi) && InRange(V8, lo, hi)
    && (Occurs(V9, lo) || Occurs(V8, lo)) && (Occurs(V9, hi) || Occurs(V8, hi))
  }

  /** The range of heights that are themselves within the range a map can have. */
  method Measure(V9: array2<real>, V8: array2<real>) returns (lo: real, hi: real)
    requires Grids(V9, V8)
    ensures lo <= hi && InRange(V9, lo, hi) && InRange(V8, lo, hi)
    ensures InRange(V9, -20000.0, 20000.0) ==> Spans(V9, V8, lo, hi)
  {
    lo, hi := Widen(V8, 20000.0, -20000.0);
    lo, hi := Widen(V9, lo, hi);
    assert lo <= V9[0, 0] <= hi;
    if lo == 20000.0 && InRange(V9, -20000.0, 20000.0) { assert Occurs(V9, lo); }
    if hi == -20000.0 && InRange(V9, -20000.0, 20000.0) { assert Occurs(V9, hi); }
  }

  /** Raises what lies below the limit, and the range with it. */
  method LimitHeights(V9: array2<real>, V8: array2<real>, limit: real, lo: real, hi: real)
    returns (lo': real, hi': real)
    requires Grids(V9, V8) && lo <= hi && InRange(V9, lo, hi) && InRange(V8, lo, hi)
    modifies V9, V8
    ensures forall y, x :: 0 <= y <= GRID && 0 <= x <= GRID ==> V9[y, x] == Max(old(V9[y, x]), limit)
    ensures forall y, x :: 0 <= y < GRID && 0 <= x < GRID ==> V8[y, x] == Max(old(V8[y, x]), limit)
    ensures lo' <= hi' && InRange(V9, lo', hi') && InRange(V8, lo', hi')
    ensures old(Spans(V9, V8, lo, hi)) ==> Spans(V9, V8, lo', hi')
  {
    lo', hi' := lo, hi;
    if lo < limit {
      Raise(V8, limit);
      Raise(V9, limit);
      lo' := limit;
      hi' := Max(hi, limit);
    }
  }

  // ---- Packing -------------------------------------------------------------------------------------

  datatype Config = Config(heightLimit: bool, minHeight: real, toInt: bool, int8Limit: real, int16Limit: real,
                           flatHeightDelta: real, flatLiquidDelta: real)

  datatype Format = NoHeight | AsInt8 | AsInt16 | AsFloat

  function Levels(f: Format): nat { if f == AsInt8 then 255 else 65535 }

  /** How a grid whose heights span [lo, hi] is stored. */
  function FormatFor(c: Config, lo: real, hi: real): (f: Format)
    ensures f == NoHeight <==> lo == hi || (c.toInt && hi - lo < c.flatHeightDelta)
    ensures f != NoHeight ==> (f == AsInt8 <==> c.toInt && hi - lo < c.int8Limit)
    ensures f != NoHeight && f != AsInt8 ==> (f == AsInt16 <==> c.toInt && hi - lo < c.int16Limit)
  {
    if hi == lo || (c.toInt && hi - lo < c.flatHeightDelta) then NoHeight
    else if c.toInt && hi - lo < c.int8Limit then AsInt8
    else if c.toInt && hi - lo < c.int16Limit then AsInt16
    else AsFloat
  }

  /** The integer a height is stored as; conversion from float cuts off the fraction. */
  function Quantum(h: real, lo: real, hi: real, levels: nat): int
    requires lo < hi
  {
    ((h - lo) * (levels as real / (hi - lo)) + 0.5).Floor
  }

  /** What one step of the integers is worth. */
  function Unit(lo: real, hi: real, levels: nat): real
    requires levels > 0
  {
    (hi - lo) / levels as real
  }

  /** The height the server makes of an integer, or of a value between two of them. */
  function Decoded(q: real, lo: real, hi: real, levels: nat): real
    requires levels > 0
  {
    Times(q, Unit(lo, hi, levels)) + lo
  }

  /** Multiplication, as a function of its own so that proofs can leave it uninterpreted. */
  function Times(a: real, b: real): real { a * b }

  predicate Near(a: real, b: real, e: real) { -e <= a - b <= e }

  lemma Scaled(a: real, b: real, c: real)
    requires a <= b && 0.0 <= c
    ensures a * c <= b * c
  {
  }

  /** A height of the range becomes an integer of the type, and is read back no more than half a step away. */
  lemma QuantumNear(h: real, lo: real, hi: real, levels: nat)
    requires lo <= h <= hi && lo < hi && levels > 0
    ensures 0 <= Quantum(h, lo, hi, levels) <= levels
    ensures Near(Decoded(Quantum(h, lo, hi, levels) as real, lo, hi, levels), h, 0.5 * Unit(lo, hi, levels))
  {
    hide Times;
    var t := InSteps(h - lo, hi - lo, levels as real);
    var q := Quantum(h, lo, hi, levels);
    assert -0.5 <= q as real - t <= 0.5;
    HalfAStep(q as real, t, Unit(lo, hi, levels));
  }

  lemma HalfAStep(q: real, t: real, unit: real)
    requires -0.5 <= q - t <= 0.5 && 0.0 <= unit
    ensures Near(Times(q, unit), Times(t, unit), 0.5 * unit)
  {
    hide Times;
    TimesDifference(q, t, unit);
    TimesGrows(-0.5, q - t, unit);
    TimesGrows(q - t, 0.5, unit);
    TimesHalf(unit);
  }

  lemma TimesDifference(a: real, b: real, u: real)
    ensures Times(a - b, u) == Times(a, u) - Times(b, u)
  {
  }

  lemma TimesGrows(a: real, b: real, u: real)
    requires a <= b && 0.0 <= u
    ensures Times(a, u) <= Times(b, u)
  {
    Scaled(a, b, u);
  }

  lemma TimesHalf(u: real)
    ensures Times(0.5, u) == 0.5 * u && Times(-0.5, u) == -(0.5 * u)
  {
  }

  /** A part of a stretch, counted in steps of which the stretch has n. */
  lemma InSteps(part: real, d: real, n: real) returns (t: real)
    requires 0.0 <= part <= d && 0.0 < d && 0.0 < n
    ensures t == part * (n / d) && 0.0 <= t <= n && Times(t, d / n) == part && d / n > 0.0
  {
    var step, unit := n / d, d / n;
    assert step * unit == 1.0 && step > 0.0 && unit > 0.0;
    t := part * step;
    Scaled(0.0, part, step);
    Scaled(part, d, step);
    assert d * step == n;
    assert t * unit == part * (step * unit);
  }

  /** Higher stays at least as high. */
  lemma QuantumMonotone(h: real, h': real, lo: real, hi: real, levels: nat)
    requires h <= h' && lo < hi
    ensures Quantum(h, lo, hi, levels) <= Quantum(h', lo, hi, levels)
  {
    Scaled(h - lo, h' - lo, levels as real / (hi - lo));
  }

  /** Lowest and highest vertex are stored without loss. */
  lemma EndsAreExact(lo: real, hi: real, levels: nat)
    requires lo < hi && levels > 0
    ensures Quantum(lo, lo, hi, levels) == 0 && Decoded(0.0, lo, hi, levels) == lo
    ensures Quantum(hi, lo, hi, levels) == levels && Decoded(levels as real, lo, hi, levels) == hi
  {
    var n, d := levels as real, hi - lo;
    assert d * (n / d) == n;
    assert n * (d / n) == d;
  }

  /** Stores all heights of a grid as integers. */
  method Quantise(V: array2<real>, Q: array2<int>, lo: real, hi: real, levels: nat)
    requires Q.Length0 == V.Length0 && Q.Length1 == V.Length1
    requires lo < hi && InRange(V, lo, hi) && levels > 0
    modifies Q
    ensures Stored(V, Q, lo, hi, levels)
  {
    for y := 0 to V.Length0
      invariant forall a, b :: 0 <= a < y && 0 <= b < V.Length1 ==> Q[a, b] == Quantum(V[a, b], lo, hi, levels)
    {
      for x := 0 to V.Length1
        invariant forall a, b :: 0 <= a < y && 0 <= b < V.Length1 ==> Q[a, b] == Quantum(V[a, b], lo, hi, levels)
        invariant forall b :: 0 <= b < x ==> Q[y, b] == Quantum(V[y, b], lo, hi, levels)
      {
        var step := levels as real / (hi - lo);
        Q[y, x] := ((V[y, x] - lo) * step + 0.5).Floor;
      }
    }
  }

  ghost predicate Stored(V: array2<real>, Q: array2<int>, lo: real, hi: real, levels: nat)
    requires Q.Length0 == V.Length0 && Q.Length1 == V.Length1 && lo < hi
    reads V, Q
  {
    forall y, x :: 0 <= y < V.Length0 && 0 <= x < V.Length1 ==> Q[y, x] == Quantum(V[y, x], lo, hi, levels)
  }

  /** Limits the heights from below if asked to, measures their range, and packs them if it pays. */
  method PackHeights(V9: array2<real>, V8: array2<real>, Q9: array2<int>, Q8: array2<int>, c: Config)
    returns (lo: real, hi: real, format: Format)
    requires Grids(V9, V8)
    requires Q9 != Q8 && Q9.Length0 == Q9.Length1 == GRID + 1 && Q8.Length0 == Q8.Length1 == GRID
    modifies V9, V8, Q9, Q8
    ensures forall y, x :: 0 <= y <= GRID && 0 <= x <= GRID ==>
              V9[y, x] == if c.heightLimit then Max(old(V9[y, x]), c.minHeight) else old(V9[y, x])
    ensures forall y, x :: 0 <= y < GRID && 0 <= x < GRID ==>
              V8[y, x] == if c.heightLimit then Max(old(V8[y, x]), c.minHeight) else old(V8[y, x])
    ensures lo <= hi && InRange(V9, lo, hi) && InRange(V8, lo, hi)
    ensures old(InRange(V9, -20000.0, 20000.0)) ==> Spans(V9, V8, lo, hi)
    ensures format == FormatFor(c, lo, hi)
    ensures format in {AsInt8, AsInt16} ==>
              lo < hi && Stored(V9, Q9, lo, hi, Levels(format)) && Stored(V8, Q8, lo, hi, Levels(format))
  {
    lo, hi := Measure(V9, V8);
    if c.heightLimit { lo, hi := LimitHeights(V9, V8, c.minHeight, lo, hi); }
    format := FormatFor(c, lo, hi);
    if format in {AsInt8, AsInt16} {
      Quantise(V8, Q8, lo, hi, Levels(format));
      Quantise(V9, Q9, lo, hi, Levels(format));
    }
  }

  // ---- What the server reads -------------------------------------------------------------------------

  /** The height stored for a vertex, as read back. */
  function Reading(format: Format, lo: real, hi: real, q: int, h: real): (r: real)
    ensures format == NoHeight ==> r == lo
  {
    match format
    case NoHeight => lo
    case AsFloat => h
    case _ => Decoded(q as real, lo, hi, Levels(format))
  }

  /** How far a reading may be off. */
  function Tolerance(format: Format, lo: real, hi: real): real {
    match format
    case NoHeight => hi - lo
    case AsFloat => 0.0
    case AsInt8 => (hi - lo) / 510.0
    case AsInt16 => (hi - lo) / 131070.0
  }

  lemma ReadingIsNear(c: Config, lo: real, hi: real, h: real)
    requires lo <= h <= hi
    ensures var f := FormatFor(c, lo, hi);
            Near(Reading(f, lo, hi, if lo < hi then Quantum(h, lo, hi, Levels(f)) else 0, h), h, Tolerance(f, lo, hi))
  {
    var f := FormatFor(c, lo, hi);
    if f == AsInt8 || f == AsInt16 {
      QuantumNear(h, lo, hi, Levels(f));
      assert 0.5 * Unit(lo, hi, 255) == (hi - lo) / 510.0;
      assert 0.5 * Unit(lo, hi, 65535) == (hi - lo) / 131070.0;
    }
  }

  /** The tolerance in terms of the configured limits alone. */
  lemma ToleranceIsConfigured(c: Config, lo: real, hi: real)
    requires lo <= hi
    ensures match FormatFor(c, lo, hi)
            case NoHeight => lo == hi || Tolerance(NoHeight, lo, hi) < c.flatHeightDelta
            case AsInt8 => Tolerance(AsInt8, lo, hi) < c.int8Limit / 510.0
            case AsInt16 => Tolerance(AsInt16, lo, hi) < c.int16Limit / 131070.0
            case AsFloat => Tolerance(AsFloat, lo, hi) == 0.0
  {
  }

  /**
    The surface over one square: four corners h1 (0, 0), h2 (1, 0), h3 (0, 1), h4 (1, 1), the
    middle m, and four triangles in between.
   */
  function Surface(h1: real, h2: real, h3: real, h4: real, m: real, x: real, y: real): real {
    var h5 := 2.0 * m;
    if x + y < 1.0 then
      if x > y then (h2 - h1) * x + (h5 - h1 - h2) * y + h1
      else (h5 - h1 - h3) * x + (h3 - h1) * y + h1
    else
      if x > y then (h2 + h4 - h5) * x + (h4 - h2) * y + (h5 - h4)
      else (h4 - h3) * x + (h3 + h4 - h5) * y + (h5 - h4)
  }

  /** The surface passes through its five vertices. */
  lemma SurfaceAtVertices(h1: real, h2: real, h3: real, h4: real, m: real)
    ensures Surface(h1, h2, h3, h4, m, 0.0, 0.0) == h1 && Surface(h1, h2, h3, h4, m, 1.0, 0.0) == h2
    ensures Surface(h1, h2, h3, h4, m, 0.0, 1.0) == h3 && Surface(h1, h2, h3, h4, m, 1.0, 1.0) == h4
    ensures Surface(h1, h2, h3, h4, m, 0.5, 0.5) == m
  {
  }

  datatype Side = Low | Left | Right | High

  /** The point of a triangle that lies v parts of the way to its second corner and w parts to the middle. */
  function PlaceOf(t: Side, v: real, w: real): (real, real) {
    match t
    case Low => (v + w / 2.0, w / 2.0)
    case Left => (w / 2.0, v + w / 2.0)
    case Right => (1.0 - w / 2.0, v + w / 2.0)
    case High => (v + w / 2.0, 1.0 - w / 2.0)
  }

  /** The heights of the two corners of a triangle. */
  function Ends(t: Side, h1: real, h2: real, h3: real, h4: real): (real, real) {
    match t
    case Low => (h1, h2)
    case Left => (h1, h3)
    case Right => (h2, h4)
    case High => (h3, h4)
  }

  predicate AreParts(v: real, w: real) { 0.0 <= v && 0.0 <= w && v + w <= 1.0 }

  /** A plane through three points. */
  function Mix(first: real, second: real, m: real, v: real, w: real): real {
    Times(1.0 - v - w, first) + Times(v, second) + Times(w, m)
  }

  /** Over each triangle, edges included, the surface is the plane through its two corners and the middle. */
  lemma SurfaceIsPlane(t: Side, h1: real, h2: real, h3: real, h4: real, m: real, v: real, w: real)
    requires AreParts(v, w)
    ensures var ends, at := Ends(t, h1, h2, h3, h4), PlaceOf(t, v, w);
            Surface(h1, h2, h3, h4, m, at.0, at.1) == Mix(ends.0, ends.1, m, v, w)
  {
    hide Surface, Times;
    var ends, at := Ends(t, h1, h2, h3, h4), PlaceOf(t, v, w);
    SurfaceIsWeighted(h1, h2, h3, h4, m, at.0, at.1);
    WeightsOver(t, v, w);
    NothingTimes(h1);
    NothingTimes(h2);
    NothingTimes(h3);
    NothingTimes(h4);
  }

  lemma WeightsOver(t: Side, v: real, w: real)
    requires AreParts(v, w)
    ensures var at, u := PlaceOf(t, v, w), 1.0 - v - w;
            0.0 <= at.0 <= 1.0 && 0.0 <= at.1 <= 1.0 &&
            Weights(at.0, at.1) == match t
                                   case Low => (u, v, 0.0, 0.0, w)
                                   case Left => (u, 0.0, v, 0.0, w)
                                   case Right => (0.0, u, 0.0, v, w)
                                   case High => (0.0, 0.0, u, v, w)
  {
  }

  lemma NothingTimes(h: real)
    ensures Times(0.0, h) == 0.0
  {
  }

  /** The four triangles cover the square. */
  lemma EveryPlace(x: real, y: real) returns (t: Side, v: real, w: real)
    requires 0.0 <= x <= 1.0 && 0.0 <= y <= 1.0
    ensures AreParts(v, w) && PlaceOf(t, v, w) == (x, y)
  {
    if x + y < 1.0 {
      if x > y { t, v, w := Low, x - y, 2.0 * y; } else { t, v, w := Left, y - x, 2.0 * x; }
    } else {
      if x > y { t, v, w := Right, x + y - 1.0, 2.0 - 2.0 * x; } else { t, v, w := High, x + y - 1.0, 2.0 - 2.0 * y; }
    }
  }

  /** So it is straight along every line within a triangle. */
  lemma SurfaceIsStraight(t: Side, h1: real, h2: real, h3: real, h4: real, m: real,
                          v: real, w: real, v': real, w': real, s: real)
    requires AreParts(v, w) && AreParts(v', w')
    requires AreParts(v + Times(s, v' - v), w + Times(s, w' - w))
    ensures var from, to := PlaceOf(t, v, w), PlaceOf(t, v', w');
            var at := PlaceOf(t, v + Times(s, v' - v), w + Times(s, w' - w));
            var p, q := Surface(h1, h2, h3, h4, m, from.0, from.1), Surface(h1, h2, h3, h4, m, to.0, to.1);
            && at == (from.0 + Times(s, to.0 - from.0), from.1 + Times(s, to.1 - from.1))
            && Surface(h1, h2, h3, h4, m, at.0, at.1) == p + Times(s, q - p)
  {
    hide Surface, Times, Mix;
    SurfaceIsPlane(t, h1, h2, h3, h4, m, v, w);
    SurfaceIsPlane(t, h1, h2, h3, h4, m, v', w');
    SurfaceIsPlane(t, h1, h2, h3, h4, m, v + Times(s, v' - v), w + Times(s, w' - w));
    PlacesAreStraight(t, v, w, v', w', s);
    var ends := Ends(t, h1, h2, h3, h4);
    MixIsStraight(ends.0, ends.1, m, v, w, v', w', s);
  }

  lemma PlacesAreStraight(t: Side, v: real, w: real, v': real, w': real, s: real)
    ensures var from, to := PlaceOf(t, v, w), PlaceOf(t, v', w');
            PlaceOf(t, v + Times(s, v' - v), w + Times(s, w' - w))
            == (from.0 + Times(s, to.0 - from.0), from.1 + Times(s, to.1 - from.1))
  {
    var from, to := PlaceOf(t, v, w), PlaceOf(t, v', w');
    hide Times;
    TimesParts(s, v' - v, w' - w, to.0 - from.0);
    TimesParts(s, v' - v, w' - w, to.1 - from.1);
  }

  lemma TimesParts(s: real, a: real, b: real, c: real)
    ensures c == a + b / 2.0 ==> Times(s, c) == Times(s, a) + Times(s, b) / 2.0
    ensures c == b / 2.0 ==> Times(s, c) == Times(s, b) / 2.0
    ensures c == -b / 2.0 ==> Times(s, c) == -Times(s, b) / 2.0
  {
  }

  lemma MixIsStraight(a: real, b: real, m: real, v: real, w: real, v': real, w': real, s: real)
    ensures var p, q := Mix(a, b, m, v, w), Mix(a, b, m, v', w');
            Mix(a, b, m, v + Times(s, v' - v), w + Times(s, w' - w)) == p + Times(s, q - p)
  {
    var u, u' := 1.0 - v - w, 1.0 - v' - w';
    Distributes(s, u' - u, v' - v, w' - w);
    ShareIsStraight(a, u, u', s);
    ShareIsStraight(b, v, v', s);
    ShareIsStraight(m, w, w', s);
    Distributes(s, Times(u', a) - Times(u, a), Times(v', b) - Times(v, b), Times(w', m) - Times(w, m));
    hide Times;
  }

  lemma ShareIsStraight(h: real, u: real, u': real, s: real)
    ensures Times(u + Times(s, u' - u), h) == Times(u, h) + Times(s, Times(u', h) - Times(u, h))
  {
  }

  lemma Distributes(s: real, a: real, b: real, c: real)
    ensures Times(s, a + b + c) == Times(s, a) + Times(s, b) + Times(s, c)
    ensures Times(s, 0.0) == 0.0
  {
  }

  /** What each of the five vertices contributes: weights that are not negative and add up to one. */
  function Weights(x: real, y: real): (w: (real, real, real, real, real))
    requires 0.0 <= x <= 1.0 && 0.0 <= y <= 1.0
    ensures w.0 >= 0.0 && w.1 >= 0.0 && w.2 >= 0.0 && w.3 >= 0.0 && w.4 >= 0.0
    ensures w.0 + w.1 + w.2 + w.3 + w.4 == 1.0
  {
    if x + y < 1.0 then
      if x > y then (1.0 - x - y, x - y, 0.0, 0.0, 2.0 * y) else (1.0 - x - y, 0.0, y - x, 0.0, 2.0 * x)
    else
      if x > y then (0.0, x - y, 0.0, x + y - 1.0, 2.0 - 2.0 * x) else (0.0, 0.0, y - x, x + y - 1.0, 2.0 - 2.0 * y)
  }

  function Sum(w: (real, real, real, real, real), h1: real, h2: real, h3: real, h4: real, m: real): real {
    Times(w.0, h1) + Times(w.1, h2) + Times(w.2, h3) + Times(w.3, h4) + Times(w.4, m)
  }

  lemma SurfaceIsWeighted(h1: real, h2: real, h3: real, h4: real, m: real, x: real, y: real)
    requires 0.0 <= x <= 1.0 && 0.0 <= y <= 1.0
    ensures Surface(h1, h2, h3, h4, m, x, y) == Sum(Weights(x, y), h1, h2, h3, h4, m)
  {
  }

  lemma SumIsNear(w: (real, real, real, real, real), e: real,
                  h1: real, h2: real, h3: real, h4: real, m: real, g1: real, g2: real, g3: real, g4: real, k: real)
    requires w.0 >= 0.0 && w.1 >= 0.0 && w.2 >= 0.0 && w.3 >= 0.0 && w.4 >= 0.0 && w.0 + w.1 + w.2 + w.3 + w.4 == 1.0
    requires Near(h1, g1, e) && Near(h2, g2, e) && Near(h3, g3, e) && Near(h4, g4, e) && Near(m, k, e)
    ensures Near(Sum(w, h1, h2, h3, h4, m), Sum(w, g1, g2, g3, g4, k), e)
  {
    hide Times;
    var (w1, w2, w3, w4, w5) := w;
    WeightedIsNear(w1, h1, g1, e);
    WeightedIsNear(w2, h2, g2, e);
    WeightedIsNear(w3, h3, g3, e);
    WeightedIsNear(w4, h4, g4, e);
    WeightedIsNear(w5, m, k, e);
    Shares(w1, w2, w3, w4, w5, e);
  }

  lemma Shares(w1: real, w2: real, w3: real, w4: real, w5: real, e: real)
    requires w1 + w2 + w3 + w4 + w5 == 1.0
    ensures Times(w1, e) + Times(w2, e) + Times(w3, e) + Times(w4, e) + Times(w5, e) == e
  {
    assert w1 * e + w2 * e + w3 * e + w4 * e + w5 * e == (w1 + w2 + w3 + w4 + w5) * e;
  }

  lemma SurfacesAreNear(e: real, h1: real, h2: real, h3: real, h4: real, m: real,
                        g1: real, g2: real, g3: real, g4: real, k: real, x: real, y: real)
    requires 0.0 <= x <= 1.0 && 0.0 <= y <= 1.0
    requires Near(h1, g1, e) && Near(h2, g2, e) && Near(h3, g3, e) && Near(h4, g4, e) && Near(m, k, e)
    ensures Near(Surface(h1, h2, h3, h4, m, x, y), Surface(g1, g2, g3, g4, k, x, y), e)
  {
    hide Surface, Sum;
    SurfaceIsWeighted(h1, h2, h3, h4, m, x, y);
    SurfaceIsWeighted(g1, g2, g3, g4, k, x, y);
    SumIsNear(Weights(x, y), e, h1, h2, h3, h4, m, g1, g2, g3, g4, k);
  }

  lemma WeightedIsNear(w: real, h: real, g: real, e: real)
    requires w >= 0.0 && Near(h, g, e)
    ensures Near(Times(w, h), Times(w, g), Times(w, e))
  {
    Scaled(-e, h - g, w);
    Scaled(h - g, e, w);
    assert w * h - w * g == (h - g) * w;
  }

  /** Between equal heights there is no other. */
  lemma FlatSurface(h: real, x: real, y: real)
    requires 0.0 <= x <= 1.0 && 0.0 <= y <= 1.0
    ensures Surface(h, h, h, h, h, x, y) == h
  {
    hide Surface, Times, Weights;
    var w := Weights(x, y);
    SurfaceIsWeighted(h, h, h, h, h, x, y);
    Shares(w.0, w.1, w.2, w.3, w.4, h);
  }

  lemma HalfUnit(lo: real, hi: real)
    ensures Tolerance(AsInt8, lo, hi) == 0.5 * Unit(lo, hi, 255) &&
            Tolerance(AsInt16, lo, hi) == 0.5 * Unit(lo, hi, 65535)
  {
  }

  /** Interpolating integers and decoding the result is interpolating the decoded heights. */
  lemma SurfaceIsAffine(q1: real, q2: real, q3: real, q4: real, q5: real, lo: real, hi: real, levels: nat, x: real,
                        y: real)
    requires 0.0 <= x <= 1.0 && 0.0 <= y <= 1.0 && levels > 0
    ensures Decoded(Surface(q1, q2, q3, q4, q5, x, y), lo, hi, levels)
            == Surface(Decoded(q1, lo, hi, levels), Decoded(q2, lo, hi, levels), Decoded(q3, lo, hi, levels),
                       Decoded(q4, lo, hi, levels), Decoded(q5, lo, hi, levels), x, y)
  {
    hide Surface, Sum, Times, Weights, Unit;
    var u := Unit(lo, hi, levels);
    SurfaceIsWeighted(q1, q2, q3, q4, q5, x, y);
    SurfaceIsWeighted(Times(q1, u) + lo, Times(q2, u) + lo, Times(q3, u) + lo, Times(q4, u) + lo,
                      Times(q5, u) + lo, x, y);
    SumIsAffine(Weights(x, y), q1, q2, q3, q4, q5, u, lo);
  }

  lemma SumIsAffine(w: (real, real, real, real, real), a: real, b: real, c: real, d: real, m: real, u: real, lo: real)
    requires w.0 + w.1 + w.2 + w.3 + w.4 == 1.0
    ensures Times(Sum(w, a, b, c, d, m), u) + lo
            == Sum(w, Times(a, u) + lo, Times(b, u) + lo, Times(c, u) + lo, Times(d, u) + lo, Times(m, u) + lo)
  {
    hide Times;
    var (w1, w2, w3, w4, w5) := w;
    Shares(w1, w2, w3, w4, w5, lo);
    TimesSum(Times(w1, a), Times(w2, b), Times(w3, c), Times(w4, d), Times(w5, m), u);
    TermIsAffine(w1, a, u, lo);
    TermIsAffine(w2, b, u, lo);
    TermIsAffine(w3, c, u, lo);
    TermIsAffine(w4, d, u, lo);
    TermIsAffine(w5, m, u, lo);
  }

  lemma TermIsAffine(w: real, a: real, u: real, lo: real)
    ensures Times(w, Times(a, u) + lo) == Times(Times(w, a), u) + Times(w, lo)
  {
  }

  lemma TimesSum(a: real, b: real, c: real, d: real, m: real, u: real)
    ensures Times(a + b + c + d + m, u) == Times(a, u) + Times(b, u) + Times(c, u) + Times(d, u) + Times(m, u)
  {
  }

  /**
    Packing moves no point of the surface, whether a vertex or not, by more than half a step:
    the height that the server works out from integers is that close to the one it would work
    out from the heights themselves.
   */
  lemma SurfaceIsKept(lo: real, hi: real, levels: nat, h1: real, h2: real, h3: real, h4: real, m: real, x: real,
                      y: real)
    requires 0.0 <= x <= 1.0 && 0.0 <= y <= 1.0 && levels > 0 && lo < hi
    requires lo <= h1 <= hi && lo <= h2 <= hi && lo <= h3 <= hi && lo <= h4 <= hi && lo <= m <= hi
    ensures var s := Surface(Quantum(h1, lo, hi, levels) as real, Quantum(h2, lo, hi, levels) as real,
                             Quantum(h3, lo, hi, levels) as real, Quantum(h4, lo, hi, levels) as real,
                             Quantum(m, lo, hi, levels) as real, x, y);
            Near(Decoded(s, lo, hi, levels), Surface(h1, h2, h3, h4, m, x, y), 0.5 * Unit(lo, hi, levels))
  {
    hide Surface, Quantum, Decoded, Sum, Unit;
    var q1, q2, q3 := Quantum(h1, lo, hi, levels) as real, Quantum(h2, lo, hi, levels) as real,
      Quantum(h3, lo, hi, levels) as real;
    var q4, q5 := Quantum(h4, lo, hi, levels) as real, Quantum(m, lo, hi, levels) as real;
    SurfaceIsAffine(q1, q2, q3, q4, q5, lo, hi, levels, x, y);
    QuantumNear(h1, lo, hi, levels);
    QuantumNear(h2, lo, hi, levels);
    QuantumNear(h3, lo, hi, levels);
    QuantumNear(h4, lo, hi, levels);
    QuantumNear(m, lo, hi, levels);
    SurfacesAreNear(0.5 * Unit(lo, hi, levels), Decoded(q1, lo, hi, levels), Decoded(q2, lo, hi, levels),
                    Decoded(q3, lo, hi, levels), Decoded(q4, lo, hi, levels), Decoded(q5, lo, hi, levels), h1, h2, h3,
                      h4, m, x, y);
  }
}
