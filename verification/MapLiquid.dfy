/**
  Liquid of a map grid: a chunk may hold several stacked surfaces, the map format holds one.
 */
module MapLiquid {
  import opened Basics
  import opened MapGrid

  const HIDDEN: nat := 15
  const DARK: nat := 128
  const DEEP: nat := 16

  /** A liquid surface over the 8 x 8 sub cells of a chunk: 9 x 9 heights, and flags row by row. */
  datatype Layer = Layer(heights: seq<seq<real>>, flags: seq<nat>)
  {
    ghost predicate Valid() {
      && |heights| == 9 && (forall y :: 0 <= y < 9 ==> |heights[y]| == 9)
      && |flags| == 64 && (forall k :: 0 <= k < 64 ==> flags[k] < 256)
    }
  }

  /** A kind of liquid, in the order in which layers are stored. */
  datatype Kind = Kind(entry: nat, flag: nat)

  const KINDS: seq<Kind> := [Kind(1, 8), Kind(2, 2), Kind(3, 1), Kind(4, 4)]

  /** One of the first n sub cells, in reading order, that shows the surface. */
  predicate Shown(l: Layer, n: nat, y: int, x: int)
    requires |l.flags| == 64
  {
    0 <= y < 8 && 0 <= x < 8 && 8 * y + x < n && l.flags[8 * y + x] != HIDDEN
  }

  /** A vertex that is a corner of one of these. */
  predicate Reached(l: Layer, n: nat, vy: int, vx: int)
    requires |l.flags| == 64
  {
    Shown(l, n, vy - 1, vx - 1) || Shown(l, n, vy - 1, vx) || Shown(l, n, vy, vx - 1) || Shown(l, n, vy, vx)
  }

  function Cells(l: Layer, n: nat): nat
    requires |l.flags| == 64 && n <= 64
  {
    if n == 0 then 0 else Cells(l, n - 1) + if l.flags[n - 1] != HIDDEN then 1 else 0
  }

  /** The number of cells is that of the shown ones among the first n. */
  lemma {:induction false} CellsAreShown(l: Layer, n: nat)
    requires |l.flags| == 64 && n <= 64
    ensures Cells(l, n) == |ShownAmong(l, n)|
  {
    if n > 0 {
      CellsAreShown(l, n - 1);
      assert ShownAmong(l, n) == ShownAmong(l, n - 1) + if l.flags[n - 1] != 15 then {n - 1} else {};
    }
  }

  ghost function ShownAmong(l: Layer, n: nat): set<nat>
    requires |l.flags| == 64 && n <= 64
  {
    set k | 0 <= k < n && l.flags[k] != 15
  }

  /** The height of a vertex over which `below` is what there was before, and h a further surface. */
  function Over(below: Option<real>, reached: bool, h: real): Option<real> {
    if reached && (below == None || below.value < h) then Some(h) else below
  }

  /** Raises one corner of a visible sub cell. */
  method RaiseVertex(l: Layer, vy: nat, vx: nat, top: array2<Option<real>>, level0: real) returns (level: real)
    requires l.Valid() && top.Length0 == top.Length1 == 9 && vy <= 8 && vx <= 8
    modifies top
    ensures forall a, b :: 0 <= a <= 8 && 0 <= b <= 8 ==>
              top[a, b] == Over(old(top[a, b]), a == vy && b == vx, l.heights[a][b])
    ensures level == if level0 < l.heights[vy][vx] then l.heights[vy][vx] else level0
  {
    level := level0;
    var h := l.heights[vy][vx];
    if top[vy, vx] == None || top[vy, vx].value < h { top[vy, vx] := Some(h); }
    if level < h { level := h; }
  }

  function Higher(a: real, b: real): real { if a < b then b else a }

  /** A level raised by the four corners of a sub cell. */
  function OverCorners(l: Layer, y: nat, x: nat, level: real): real
    requires l.Valid() && y < 8 && x < 8
  {
    Higher(Higher(Higher(Higher(level, l.heights[y][x]), l.heights[y][x + 1]), l.heights[y + 1][x]),
           l.heights[y + 1][x + 1])
  }

  function Level(l: Layer, n: nat): real
    requires l.Valid() && n <= 64
  {
    if n == 0 then -20000.0
    else if l.flags[n - 1] == HIDDEN then Level(l, n - 1)
    else OverCorners(l, (n - 1) / 8, (n - 1) % 8, Level(l, n - 1))
  }

  /** The level is that of the highest vertex reached, or -20000 if none is higher. */
  ghost predicate IsLevel(l: Layer, n: nat, level: real)
    requires l.Valid()
  {
    && level >= -20000.0
    && (forall vy, vx :: 0 <= vy <= 8 && 0 <= vx <= 8 && Reached(l, n, vy, vx) ==> l.heights[vy][vx] <= level)
    && (level == -20000.0 ||
        exists vy, vx :: 0 <= vy <= 8 && 0 <= vx <= 8 && Reached(l, n, vy, vx) && l.heights[vy][vx] == level)
  }

  lemma ReachedNext(l: Layer, y: nat, x: nat, vy: nat, vx: nat)
    requires l.Valid() && y < 8 && x < 8
    ensures Reached(l, 8 * y + x + 1, vy, vx) <==>
            Reached(l, 8 * y + x, vy, vx) || (l.flags[8 * y + x] != HIDDEN && y <= vy <= y + 1 && x <= vx <= x + 1)
  {
  }

  lemma LevelNext(l: Layer, y: nat, x: nat, level: real)
    requires l.Valid() && y < 8 && x < 8 && IsLevel(l, 8 * y + x, level)
    ensures if l.flags[8 * y + x] == HIDDEN then IsLevel(l, 8 * y + x + 1, level)
            else IsLevel(l, 8 * y + x + 1, OverCorners(l, y, x, level))
  {
    var n := 8 * y + x;
    hide Shown;
    forall vy: nat, vx: nat
      ensures Reached(l, n + 1, vy, vx) <==>
              Reached(l, n, vy, vx) || (l.flags[n] != HIDDEN && y <= vy <= y + 1 && x <= vx <= x + 1)
    {
      ReachedNext(l, y, x, vy, vx);
    }
    if l.flags[n] != HIDDEN {
      var above := OverCorners(l, y, x, level);
      ReachedNext(l, y, x, y, x);
      ReachedNext(l, y, x, y, x + 1);
      ReachedNext(l, y, x, y + 1, x);
      ReachedNext(l, y, x, y + 1, x + 1);
      hide Reached;
      assert Reached(l, n + 1, y, x) && Reached(l, n + 1, y, x + 1) && Reached(l, n + 1, y + 1, x) &&
             Reached(l, n + 1, y + 1, x + 1);
      assert above == level || above == l.heights[y][x] || above == l.heights[y][x + 1]
             || above == l.heights[y + 1][x] || above == l.heights[y + 1][x + 1];
    }
  }

  lemma {:induction false} LevelIsTop(l: Layer, n: nat)
    requires l.Valid() && n <= 64
    ensures IsLevel(l, n, Level(l, n))
  {
    if n > 0 {
      LevelIsTop(l, n - 1);
      var y, x := (n - 1) / 8, (n - 1) % 8;
      assert 8 * y + x == n - 1;
      LevelNext(l, y, x, Level(l, n - 1));
    }
  }

  /** A visible sub cell raises its four corners. */
  method RaiseCorners(l: Layer, y: nat, x: nat, top: array2<Option<real>>, level0: real) returns (level: real)
    requires l.Valid() && top.Length0 == top.Length1 == 9 && y < 8 && x < 8
    modifies top
    ensures forall a, b :: 0 <= a <= 8 && 0 <= b <= 8 ==>
              top[a, b] == Over(old(top[a, b]), y <= a <= y + 1 && x <= b <= x + 1, l.heights[a][b])
    ensures level == OverCorners(l, y, x, level0)
  {
    level := level0;
    for vy := y to y + 2
      invariant forall a, b :: 0 <= a <= 8 && 0 <= b <= 8 ==>
                  top[a, b] == Over(old(top[a, b]), y <= a < vy && x <= b <= x + 1, l.heights[a][b])
      invariant vy == y ==> level == level0
      invariant vy == y + 1 ==> level == Higher(Higher(level0, l.heights[y][x]), l.heights[y][x + 1])
      invariant vy == y + 2 ==> level == OverCorners(l, y, x, level0)
    {
      ghost var before := level;
      for vx := x to x + 2
        invariant forall a, b :: 0 <= a <= 8 && 0 <= b <= 8 ==>
                    top[a, b] == Over(old(top[a, b]), (y <= a < vy && x <= b <= x + 1) || (a == vy && x <= b < vx),
                                      l.heights[a][b])
        invariant vx == x ==> level == before
        invariant vx == x + 1 ==> level == Higher(before, l.heights[vy][x])
        invariant vx == x + 2 ==> level == Higher(Higher(before, l.heights[vy][x]), l.heights[vy][x + 1])
      {
        level := RaiseVertex(l, vy, vx, top, level);
      }
    }
  }

  // ---- A stack of surfaces ---------------------------------------------------------------------------

  /** A surface of the chunk and its kind. */
  datatype Surface = Surface(kind: Kind, layer: Layer)

  /** A chunk: which kinds it announces, and the layers it really has. */
  datatype Chunk = Chunk(kinds: seq<bool>, layers: seq<Layer>)
  {
    ghost predicate Valid() {
      |kinds| == |KINDS| && forall k :: 0 <= k < |layers| ==> layers[k].Valid()
    }
  }

  /** The surfaces from kind t and layer k on: one layer for each kind announced, as far as there are layers. */
  function StackFrom(c: Chunk, t: nat, k: nat): (s: seq<Surface>)
    requires c.Valid() && t <= |KINDS|
    ensures forall i :: 0 <= i < |s| ==> s[i].layer.Valid()
    decreases |KINDS| - t
  {
    if t == |KINDS| then []
    else if !c.kinds[t] then StackFrom(c, t + 1, k)
    else if k >= |c.layers| then []
    else [Surface(KINDS[t], c.layers[k])] + StackFrom(c, t + 1, k + 1)
  }

  /** How many of the kinds before t are announced. */
  function AnnouncedBefore(c: Chunk, t: nat): nat
    requires c.Valid() && t <= |KINDS|
  {
    if t == 0 then 0 else AnnouncedBefore(c, t - 1) + if c.kinds[t - 1] then 1 else 0
  }

  /** Kind u has its layer in the stack if it is announced and the layers go that far. */
  ghost predicate HasLayer(c: Chunk, t: nat, s: seq<Surface>, u: nat)
    requires c.Valid() && t <= u < |KINDS|
  {
    var n := AnnouncedBefore(c, u);
    c.kinds[u] && n < |c.layers| ==>
      var k := n - AnnouncedBefore(c, t);
      0 <= k < |s| && s[k] == Surface(KINDS[u], c.layers[n])
  }

  /** The n-th layer belongs to the n-th kind announced, and all layers and kinds are used as far as both go. */
  ghost predicate IsStack(c: Chunk, t: nat, s: seq<Surface>)
    requires c.Valid() && t <= |KINDS|
  {
    && AnnouncedBefore(c, t) + |s| == (if AnnouncedBefore(c, 4) < |c.layers| then AnnouncedBefore(c, 4) else |c.layers|)
    && forall u :: t <= u < 4 ==> HasLayer(c, t, s, u)
  }

  lemma {:induction false} AnnouncedGrows(c: Chunk, t: nat, u: nat)
    requires c.Valid() && t <= u <= 4
    ensures AnnouncedBefore(c, t) <= AnnouncedBefore(c, u)
  {
    if t < u { AnnouncedGrows(c, t, u - 1); }
  }

  lemma {:induction false} StackIsAnnounced(c: Chunk, t: nat)
    requires c.Valid() && t <= 4 && AnnouncedBefore(c, t) <= |c.layers|
    decreases 4 - t
    ensures IsStack(c, t, StackFrom(c, t, AnnouncedBefore(c, t)))
  {
    var from := AnnouncedBefore(c, t);
    AnnouncedGrows(c, t, 4);
    if t < 4 {
      assert AnnouncedBefore(c, t + 1) == from + if c.kinds[t] then 1 else 0;
      if !c.kinds[t] || from < |c.layers| {
        hide IsStack;
        StackIsAnnounced(c, t + 1);
        StackNext(c, t, StackFrom(c, t + 1, AnnouncedBefore(c, t + 1)));
      } else {
        NoLayersLeft(c, t);
      }
    }
  }

  lemma NoLayersLeft(c: Chunk, t: nat)
    requires c.Valid() && t <= 4 && AnnouncedBefore(c, t) == |c.layers|
    ensures IsStack(c, t, [])
  {
    AnnouncedGrows(c, t, 4);
    forall u | t <= u < 4 ensures HasLayer(c, t, [], u) { AnnouncedGrows(c, t, u); }
    hide AnnouncedBefore;
  }

  lemma StackNext(c: Chunk, t: nat, rest: seq<Surface>)
    requires c.Valid() && t < 4 && IsStack(c, t + 1, rest)
    requires AnnouncedBefore(c, t + 1) == AnnouncedBefore(c, t) + if c.kinds[t] then 1 else 0
    requires c.kinds[t] ==> AnnouncedBefore(c, t) < |c.layers|
    ensures IsStack(c, t, if c.kinds[t] then [Surface(KINDS[t], c.layers[AnnouncedBefore(c, t)])] + rest else rest)
  {
    hide AnnouncedBefore, HasLayer;
    var s := if c.kinds[t] then [Surface(KINDS[t], c.layers[AnnouncedBefore(c, t)])] + rest else rest;
    forall u | t <= u < 4 ensures HasLayer(c, t, s, u) {
      if u == t { FirstHasLayer(c, t, rest); } else { NextHasLayer(c, t, rest, u); }
    }
  }

  lemma FirstHasLayer(c: Chunk, t: nat, rest: seq<Surface>)
    requires c.Valid() && t < 4 && (c.kinds[t] ==> AnnouncedBefore(c, t) < |c.layers|)
    ensures HasLayer(c, t, if c.kinds[t] then [Surface(KINDS[t], c.layers[AnnouncedBefore(c, t)])] + rest else rest, t)
  {
  }

  lemma NextHasLayer(c: Chunk, t: nat, rest: seq<Surface>, u: nat)
    requires c.Valid() && t < u < 4 && HasLayer(c, t + 1, rest, u)
    requires AnnouncedBefore(c, t + 1) == AnnouncedBefore(c, t) + if c.kinds[t] then 1 else 0
    requires c.kinds[t] ==> AnnouncedBefore(c, t) < |c.layers|
    ensures HasLayer(c, t, if c.kinds[t] then [Surface(KINDS[t], c.layers[AnnouncedBefore(c, t)])] + rest else rest, u)
  {
    AnnouncedGrows(c, t + 1, u);
    hide AnnouncedBefore;
  }

  ghost predicate ValidStack(s: seq<Surface>) { forall i :: 0 <= i < |s| ==> s[i].layer.Valid() }

  /** The topmost surface reaching a vertex. */
  function Top(s: seq<Surface>, vy: nat, vx: nat): Option<real>
    requires ValidStack(s) && vy <= 8 && vx <= 8
  {
    if s == [] then None
    else
      var l := s[|s| - 1].layer;
      Over(Top(s[..|s| - 1], vy, vx), Reached(l, 64, vy, vx), l.heights[vy][vx])
  }

  /** Some surface shows the sub cell. */
  ghost predicate Flooded(s: seq<Surface>, y: int, x: int)
    requires ValidStack(s)
  {
    exists i :: 0 <= i < |s| && Shown(s[i].layer, 64, y, x)
  }

  ghost predicate Deep(s: seq<Surface>)
    requires ValidStack(s)
  {
    exists i :: 0 <= i < |s| && DarkWithin(s[i].layer, 64)
  }

  /** The surface that gives the chunk its type: index, size and level. */
  datatype Best = Best(index: Option<nat>, cells: nat, level: real)

  function Choose(s: seq<Surface>): (b: Best)
    requires ValidStack(s)
    ensures b.index.Some? ==> b.index.value < |s|
  {
    if s == [] then Best(None, 0, 0.0)
    else
      var b, l := Choose(s[..|s| - 1]), s[|s| - 1].layer;
      if Cells(l, 64) > b.cells || (Cells(l, 64) == b.cells && Level(l, 64) > b.level)
      then Best(Some(|s| - 1), Cells(l, 64), Level(l, 64)) else b
  }

  /** More sub cells, or as many on a higher level. */
  predicate Larger(cells: nat, level: real, cells': nat, level': real) {
    cells > cells' || (cells == cells' && level > level')
  }

  /**
    The choice is a largest of the surfaces that show anything, the first of them if there are
    several; only if none shows anything there is no choice.
   */
  lemma {:induction false} ChoiceIsLargest(s: seq<Surface>)
    requires ValidStack(s)
    ensures var b := Choose(s);
            && (b.index == None <==> forall i :: 0 <= i < |s| ==> Cells(s[i].layer, 64) == 0)
            && (b.index == None ==> b == Best(None, 0, 0.0))
            && (b.index.Some? ==> b.cells > 0 && b.cells == Cells(s[b.index.value].layer, 64)
                                  && b.level == Level(s[b.index.value].layer, 64))
            && (forall i :: 0 <= i < |s| && Cells(s[i].layer, 64) > 0 ==>
                  && !Larger(Cells(s[i].layer, 64), Level(s[i].layer, 64), b.cells, b.level)
                  && (b.index.Some? && i < b.index.value ==>
                        Larger(b.cells, b.level, Cells(s[i].layer, 64), Level(s[i].layer, 64))))
  {
    if s != [] {
      var s', l := s[..|s| - 1], s[|s| - 1].layer;
      ChoiceIsLargest(s');
      assert forall i :: 0 <= i < |s'| ==> s[i] == s'[i];
      if Cells(l, 64) == 0 { NoCellsNoLevel(l, 64); }
    }
  }

  lemma {:induction false} NoCellsNoLevel(l: Layer, n: nat)
    requires l.Valid() && n <= 64 && Cells(l, n) == 0
    ensures Level(l, n) == -20000.0
  {
    if n > 0 { NoCellsNoLevel(l, n - 1); }
  }

  /** A surface shows something exactly if it has a cell to show. */
  lemma {:induction false} CellsIffShown(l: Layer, n: nat)
    requires l.Valid() && n <= 64
    ensures Cells(l, n) > 0 <==> exists y, x :: Shown(l, n, y, x)
  {
    if n > 0 {
      CellsIffShown(l, n - 1);
      var y, x := (n - 1) / 8, (n - 1) % 8;
      assert 8 * y + x == n - 1;
      if l.flags[n - 1] != HIDDEN {
        assert Shown(l, n, y, x);
      } else {
        var m := n - 1;
        if y', x' :| Shown(l, n, y', x') { assert Shown(l, m, y', x'); }
        if y', x' :| Shown(l, m, y', x') { assert Shown(l, n, y', x'); }
      }
    }
  }

  /** The merged height of a vertex is the highest of all surfaces that reach it, if any does. */
  lemma {:induction false} TopIsHighest(s: seq<Surface>, vy: nat, vx: nat)
    requires ValidStack(s) && vy <= 8 && vx <= 8
    ensures Top(s, vy, vx).Some? <==> exists i :: 0 <= i < |s| && Reached(s[i].layer, 64, vy, vx)
    ensures Top(s, vy, vx).Some? ==>
              && (exists i :: 0 <= i < |s| && Reached(s[i].layer, 64, vy, vx)
                              && s[i].layer.heights[vy][vx] == Top(s, vy, vx).value)
              && (forall i :: 0 <= i < |s| && Reached(s[i].layer, 64, vy, vx) ==>
                    s[i].layer.heights[vy][vx] <= Top(s, vy, vx).value)
  {
    if s != [] {
      var s', l := s[..|s| - 1], s[|s| - 1].layer;
      TopIsHighest(s', vy, vx);
      assert forall i :: 0 <= i < |s'| ==> s[i] == s'[i];
    }
  }

  // ---- Merging a chunk -------------------------------------------------------------------------------

  /** Merges one sub cell of a surface into what is there. */
  method MergeSubCell(l: Layer, y: nat, x: nat, i: nat, j: nat, top: array2<Option<real>>, show: array2<bool>,
                      cells0: nat, level0: real, dark0: bool)
    returns (cells: nat, level: real, dark: bool)
    requires l.Valid() && top.Length0 == top.Length1 == 9 && y < 8 && x < 8
    requires show.Length0 == show.Length1 == GRID && i < CELLS && j < CELLS
    requires cells0 == Cells(l, 8 * y + x) && level0 == Level(l, 8 * y + x)
    modifies top, show
    ensures forall a, b :: 0 <= a <= 8 && 0 <= b <= 8 ==>
              top[a, b] == Over(old(top[a, b]), l.flags[8 * y + x] != HIDDEN && y <= a <= y + 1 && x <= b <= x + 1,
                                l.heights[a][b])
    ensures forall a, b :: 0 <= a < GRID && 0 <= b < GRID ==>
              show[a, b] ==
                (old(show[a, b]) || (l.flags[8 * y + x] != HIDDEN && a - CELL * i == y && b - CELL * j == x))
    ensures cells == Cells(l, 8 * y + x + 1) && level == Level(l, 8 * y + x + 1)
    ensures dark <==> dark0 || IsDark(l, 8 * y + x)
  {
    cells, level, dark := cells0, level0, dark0;
    assert (8 * y + x) / 8 == y && (8 * y + x) % 8 == x;
    if l.flags[8 * y + x] == HIDDEN { return; }
    show[CELL * i + y, CELL * j + x] := true;
    if l.flags[8 * y + x] >= DARK { dark := true; }
    cells := cells + 1;
    level := RaiseCorners(l, y, x, top, level);
  }

  /** What the first n sub cells of a surface make of tops and visibility. */
  predicate Raised(l: Layer, n: nat, a: nat, b: nat, before: Option<real>, after: Option<real>)
    requires l.Valid() && a <= 8 && b <= 8
  {
    after == Over(before, Reached(l, n, a, b), l.heights[a][b])
  }

  lemma RaisedNext(l: Layer, y: nat, x: nat, a: nat, b: nat, t0: Option<real>, t1: Option<real>, t2: Option<real>)
    requires l.Valid() && y < 8 && x < 8 && a <= 8 && b <= 8
    requires Raised(l, 8 * y + x, a, b, t0, t1)
    requires t2 == Over(t1, l.flags[8 * y + x] != HIDDEN && y <= a <= y + 1 && x <= b <= x + 1, l.heights[a][b])
    ensures Raised(l, 8 * y + x + 1, a, b, t0, t2)
  {
  }

  predicate Marked(l: Layer, n: nat, y: int, x: int, before: bool, after: bool)
    requires l.Valid()
  {
    after == (before || Shown(l, n, y, x))
  }

  lemma MarkedNext(l: Layer, y: nat, x: nat, y': int, x': int, s0: bool, s1: bool, s2: bool)
    requires l.Valid() && y < 8 && x < 8
    requires Marked(l, 8 * y + x, y', x', s0, s1)
    requires s2 == (s1 || (l.flags[8 * y + x] != HIDDEN && y' == y && x' == x))
    ensures Marked(l, 8 * y + x + 1, y', x', s0, s2)
  {
  }

  /** The contents of an array, to compare with later. */
  ghost function Snapshot<T>(a: array2<T>): (s: seq<seq<T>>)
    reads a
    ensures |s| == a.Length0
    ensures forall y, x :: 0 <= y < a.Length0 && 0 <= x < a.Length1 ==> |s[y]| == a.Length1 && s[y][x] == a[y, x]
  {
    seq(a.Length0, y requires 0 <= y < a.Length0 reads a =>
      seq(a.Length1, x requires 0 <= x < a.Length1 reads a => a[y, x]))
  }

  ghost predicate Square<T>(s: seq<seq<T>>, n: nat) { |s| == n && forall y :: 0 <= y < n ==> |s[y]| == n }

  ghost predicate Tops(l: Layer, n: nat, top0: seq<seq<Option<real>>>, top: array2<Option<real>>)
    requires l.Valid() && Square(top0, 9) && top.Length0 == top.Length1 == 9
    reads top
  {
    forall a, b :: 0 <= a <= 8 && 0 <= b <= 8 ==> Raised(l, n, a, b, top0[a][b], top[a, b])
  }

  ghost predicate Marks(l: Layer, n: nat, i: nat, j: nat, show0: seq<seq<bool>>, show: array2<bool>)
    requires l.Valid() && Square(show0, GRID) && show.Length0 == show.Length1 == GRID
    reads show
  {
    forall a, b :: 0 <= a < GRID && 0 <= b < GRID ==> Marked(l, n, a - CELL * i, b - CELL * j, show0[a][b], show[a, b])
  }

  ghost predicate DarkWithin(l: Layer, n: nat)
    requires l.Valid() && n <= 64
  {
    exists k :: 0 <= k < n && IsDark(l, k)
  }

  lemma DarkNext(l: Layer, n: nat)
    requires l.Valid() && n < 64
    ensures DarkWithin(l, n + 1) <==> DarkWithin(l, n) || IsDark(l, n)
  {
  }

  /** The state after the first n sub cells of a surface. */
  ghost predicate Merged(l: Layer, n: nat, i: nat, j: nat, top0: seq<seq<Option<real>>>, top: array2<Option<real>>,
                         show0: seq<seq<bool>>, show: array2<bool>, cells: nat, level: real, dark: bool)
    requires l.Valid() && n <= 64 && Square(top0, 9) && top.Length0 == top.Length1 == 9
    requires Square(show0, GRID) && show.Length0 == show.Length1 == GRID
    reads top, show
  {
    && Tops(l, n, top0, top) && Marks(l, n, i, j, show0, show)
    && cells == Cells(l, n) && level == Level(l, n)
    && (dark <==> DarkWithin(l, n))
  }

  method MergeNext(l: Layer, y: nat, x: nat, i: nat, j: nat, ghost top0: seq<seq<Option<real>>>,
                   top: array2<Option<real>>,
                   ghost show0: seq<seq<bool>>, show: array2<bool>, cells0: nat, level0: real, dark0: bool)
    returns (cells: nat, level: real, dark: bool)
    requires l.Valid() && y < 8 && x < 8 && i < CELLS && j < CELLS && Square(top0, 9) && top.Length0 == top.Length1 == 9
    requires Square(show0, GRID) && show.Length0 == show.Length1 == GRID
    requires Merged(l, 8 * y + x, i, j, top0, top, show0, show, cells0, level0, dark0)
    modifies top, show
    ensures Merged(l, 8 * y + x + 1, i, j, top0, top, show0, show, cells, level, dark)
  {
    hide Raised, Marked;
    cells, level, dark := MergeSubCell(l, y, x, i, j, top, show, cells0, level0, dark0);
    DarkNext(l, 8 * y + x);
    assert Tops(l, 8 * y + x + 1, top0, top) by {
      forall a, b | 0 <= a <= 8 && 0 <= b <= 8
        ensures Raised(l, 8 * y + x + 1, a, b, top0[a][b], top[a, b])
      {
        RaisedNext(l, y, x, a, b, top0[a][b], old(top[a, b]), top[a, b]);
      }
    }
    assert Marks(l, 8 * y + x + 1, i, j, show0, show) by {
      forall a, b | 0 <= a < GRID && 0 <= b < GRID
        ensures Marked(l, 8 * y + x + 1, a - CELL * i, b - CELL * j, show0[a][b], show[a, b])
      {
        MarkedNext(l, y, x, a - CELL * i, b - CELL * j, show0[a][b], old(show[a, b]), show[a, b]);
      }
    }
  }

  /** Merges one surface into what is there. */
  method MergeLayer(l: Layer, i: nat, j: nat, top: array2<Option<real>>, show: array2<bool>)
    returns (cells: nat, level: real, dark: bool)
    requires l.Valid() && top.Length0 == top.Length1 == 9
    requires show.Length0 == show.Length1 == GRID && i < CELLS && j < CELLS
    modifies top, show
    ensures Merged(l, 64, i, j, old(Snapshot(top)), top, old(Snapshot(show)), show, cells, level, dark)
  {
    ghost var top0, show0 := Snapshot(top), Snapshot(show);
    cells, level, dark := 0, -20000.0, false;
    assert Merged(l, 0, i, j, top0, top, show0, show, cells, level, dark);
    hide Merged;
    for y := 0 to CELL
      invariant Merged(l, 8 * y, i, j, top0, top, show0, show, cells, level, dark)
    {
      for x := 0 to CELL
        invariant Merged(l, 8 * y + x, i, j, top0, top, show0, show, cells, level, dark)
      {
        cells, level, dark := MergeNext(l, y, x, i, j, top0, top, show0, show, cells, level, dark);
      }
    }
  }

  predicate IsDark(l: Layer, k: nat)
    requires |l.flags| == 64 && k < 64
  {
    l.flags[k] != HIDDEN && l.flags[k] >= DARK
  }

  /** A sub cell is dark if it is shown and its highest bit is set. */
  lemma DarkIsBit(l: Layer, k: nat)
    requires l.Valid() && k < 64
    ensures IsDark(l, k) <==> l.flags[k] != 15 && l.flags[k] / 128 % 2 == 1
  {
  }

  /** The type of a chunk is that of the chosen surface, with bit 4 set if any surface is dark. */
  lemma TypeIsChosen(s: seq<Surface>, b: nat)
    requires ValidStack(s) && KnownKinds(s) && Choose(s).index == Some(b)
    ensures TypeEntry(s) == s[b].kind.entry
    ensures TypeFlags(s) == s[b].kind.flag + if Deep(s) then 16 else 0
  {
  }

  lemma DeepIfDark(s: seq<Surface>, i: nat, k: nat)
    requires ValidStack(s) && i < |s| && k < 64 && IsDark(s[i].layer, k)
    ensures Deep(s)
  {
  }

  lemma DarkIfDeep(s: seq<Surface>) returns (i: nat, k: nat)
    requires ValidStack(s) && Deep(s)
    ensures i < |s| && k < 64 && IsDark(s[i].layer, k)
  {
    i :| 0 <= i < |s| && DarkWithin(s[i].layer, 64);
    k :| 0 <= k < 64 && IsDark(s[i].layer, k);
  }

  /** The flags of a chunk: bit 4 for deep water, and the kind of the surface that was chosen. */
  ghost function TypeFlags(s: seq<Surface>): nat
    requires ValidStack(s)
  {
    (if Deep(s) then DEEP else 0) + if Choose(s).index.Some? then s[Choose(s).index.value].kind.flag else 0
  }

  function TypeEntry(s: seq<Surface>): nat
    requires ValidStack(s)
  {
    if Choose(s).index.Some? then s[Choose(s).index.value].kind.entry else 0
  }

  function Total(s: seq<Surface>): nat
    requires ValidStack(s)
  {
    if s == [] then 0 else Total(s[..|s| - 1]) + Cells(s[|s| - 1].layer, 64)
  }

  ghost predicate ChunkTops(s: seq<Surface>, top: array2<Option<real>>)
    requires ValidStack(s) && top.Length0 == top.Length1 == 9
    reads top
  {
    forall a, b :: 0 <= a <= 8 && 0 <= b <= 8 ==> top[a, b] == Top(s, a, b)
  }

  ghost predicate ChunkShow(s: seq<Surface>, i: nat, j: nat, show0: seq<seq<bool>>, show: array2<bool>)
    requires ValidStack(s) && Square(show0, GRID) && show.Length0 == show.Length1 == GRID
    reads show
  {
    forall a, b :: 0 <= a < GRID && 0 <= b < GRID ==>
      show[a, b] == (show0[a][b] || Flooded(s, a - CELL * i, b - CELL * j))
  }

  ghost predicate ChunkType(s: seq<Surface>, flags: nat, entry: nat, bestCells: nat, bestHeight: real, count: nat)
    requires ValidStack(s)
  {
    && KnownKinds(s) && flags == TypeFlags(s) && entry == TypeEntry(s)
    && bestCells == Choose(s).cells && bestHeight == Choose(s).level && count == Total(s)
  }

  lemma TopNext(s: seq<Surface>, f: Surface, a: nat, b: nat)
    requires ValidStack(s) && f.layer.Valid() && a <= 8 && b <= 8
    ensures ValidStack(s + [f]) && Raised(f.layer, 64, a, b, Top(s, a, b), Top(s + [f], a, b))
  {
  }

  lemma FloodedNext(s: seq<Surface>, f: Surface, y: int, x: int)
    requires ValidStack(s) && f.layer.Valid()
    ensures ValidStack(s + [f]) && Marked(f.layer, 64, y, x, Flooded(s, y, x), Flooded(s + [f], y, x))
  {
    var s' := s + [f];
    if Flooded(s, y, x) {
      var k :| 0 <= k < |s| && Shown(s[k].layer, 64, y, x);
      assert s'[k] == s[k];
    }
    assert s'[|s|] == f;
  }

  lemma DeepNext(s: seq<Surface>, f: Surface)
    requires ValidStack(s) && f.layer.Valid()
    ensures ValidStack(s + [f]) && (Deep(s + [f]) <==> Deep(s) || DarkWithin(f.layer, 64))
  {
    var s' := s + [f];
    if Deep(s) {
      var k :| 0 <= k < |s| && DarkWithin(s[k].layer, 64);
      assert s'[k] == s[k];
    }
    assert s'[|s|] == f;
  }

  lemma ChooseNext(s: seq<Surface>, f: Surface)
    requires ValidStack(s) && f.layer.Valid()
    ensures ValidStack(s + [f]) && Total(s + [f]) == Total(s) + Cells(f.layer, 64)
    ensures Choose(s + [f]) == if Larger(Cells(f.layer, 64), Level(f.layer, 64), Choose(s).cells, Choose(s).level)
                               then Best(Some(|s|), Cells(f.layer, 64), Level(f.layer, 64)) else Choose(s)
  {
  }

  function SetDeep(flags: nat): nat { if flags < DEEP then flags + DEEP else flags }

  function OnlyDeep(flags: nat): nat { if flags < DEEP then 0 else DEEP }

  ghost predicate KnownKinds(s: seq<Surface>) { forall i :: 0 <= i < |s| ==> s[i].kind in KINDS }

  lemma TypeNext(s: seq<Surface>, f: Surface, flags: nat)
    requires ValidStack(s) && KnownKinds(s) && f.layer.Valid() && f.kind in KINDS && flags == TypeFlags(s)
    ensures var s' := s + [f];
            var flags' := if DarkWithin(f.layer, 64) then SetDeep(flags) else flags;
            && ValidStack(s') && KnownKinds(s')
            && if Larger(Cells(f.layer, 64), Level(f.layer, 64), Choose(s).cells, Choose(s).level)
               then TypeFlags(s') == OnlyDeep(flags') + f.kind.flag && TypeEntry(s') == f.kind.entry
               else TypeFlags(s') == flags' && TypeEntry(s') == TypeEntry(s)
  {
    ChooseNext(s, f);
    DeepNext(s, f);
    assert forall k: Kind :: k in KINDS ==> k.flag < DEEP;
  }

  /** Merges a further surface into the chunk, and lets it decide the type if it is larger than those before. */
  method MergeSurface(f: Surface, ghost s: seq<Surface>, i: nat, j: nat, top: array2<Option<real>>,
                      ghost show0: seq<seq<bool>>, show: array2<bool>,
                      flags0: nat, entry0: nat, bestCells0: nat, bestHeight0: real, count0: nat)
    returns (flags: nat, entry: nat, bestCells: nat, bestHeight: real, count: nat)
    requires ValidStack(s) && f.layer.Valid() && f.kind in KINDS && i < CELLS && j < CELLS
    requires top.Length0 == top.Length1 == 9 && Square(show0, GRID) && show.Length0 == show.Length1 == GRID
    requires ChunkTops(s, top) && ChunkShow(s, i, j, show0, show) &&
             ChunkType(s, flags0, entry0, bestCells0, bestHeight0, count0)
    modifies top, show
    ensures ValidStack(s + [f])
    ensures ChunkTops(s + [f], top) && ChunkShow(s + [f], i, j, show0, show)
    ensures ChunkType(s + [f], flags, entry, bestCells, bestHeight, count)
  {
    ghost var top1, show1 := Snapshot(top), Snapshot(show);
    assert forall a, b :: 0 <= a <= 8 && 0 <= b <= 8 ==> top1[a][b] == Top(s, a, b);
    assert forall a, b :: 0 <= a < GRID && 0 <= b < GRID ==>
             show1[a][b] == (show0[a][b] || Flooded(s, a - CELL * i, b - CELL * j));
    var cells, level, dark := MergeLayer(f.layer, i, j, top, show);
    assert ValidStack(s + [f]) by { TopNext(s, f, 0, 0); }
    TopsNext(s, f, top1, top);
    ShowNext(s, f, i, j, show0, show1, show);
    flags, entry, bestCells, bestHeight, count := flags0, entry0, bestCells0, bestHeight0, count0 + cells;
    if dark { flags := SetDeep(flags); }
    if cells > bestCells || (cells == bestCells && level > bestHeight) {
      bestCells, bestHeight := cells, level;
      entry, flags := f.kind.entry, OnlyDeep(flags) + f.kind.flag;
    }
    TypeNext(s, f, flags0);
    ChooseNext(s, f);
  }

  lemma TopsNext(s: seq<Surface>, f: Surface, top1: seq<seq<Option<real>>>, top: array2<Option<real>>)
    requires ValidStack(s) && f.layer.Valid() && ValidStack(s + [f])
    requires Square(top1, 9) && top.Length0 == top.Length1 == 9
    requires forall a, b :: 0 <= a <= 8 && 0 <= b <= 8 ==> top1[a][b] == Top(s, a, b)
    requires Tops(f.layer, 64, top1, top)
    ensures ChunkTops(s + [f], top)
  {
  }

  lemma ShowNext(s: seq<Surface>, f: Surface, i: nat, j: nat, show0: seq<seq<bool>>, show1: seq<seq<bool>>,
                 show: array2<bool>)
    requires ValidStack(s) && f.layer.Valid() && ValidStack(s + [f])
    requires Square(show0, GRID) && Square(show1, GRID) && show.Length0 == show.Length1 == GRID
    requires forall a, b :: 0 <= a < GRID && 0 <= b < GRID ==>
             show1[a][b] == (show0[a][b] || Flooded(s, a - CELL * i, b - CELL * j))
    requires Marks(f.layer, 64, i, j, show1, show)
    ensures ChunkShow(s + [f], i, j, show0, show)
  {
    hide Flooded, Shown;
    forall a, b | 0 <= a < GRID && 0 <= b < GRID
      ensures show[a, b] == (show0[a][b] || Flooded(s + [f], a - CELL * i, b - CELL * j))
    {
      FloodedNext(s, f, a - CELL * i, b - CELL * j);
      assert Marked(f.layer, 64, a - CELL * i, b - CELL * j, show1[a][b], show[a, b]);
    }
  }

  lemma NoSurfaces(show0: seq<seq<bool>>, show: array2<bool>, top: array2<Option<real>>, i: nat, j: nat)
    requires Square(show0, GRID) && show.Length0 == show.Length1 == GRID && top.Length0 == top.Length1 == 9
    requires show0 == Snapshot(show)
    requires forall a, b :: 0 <= a <= 8 && 0 <= b <= 8 ==> top[a, b] == None
    ensures Progress([], i, j, top, show0, show, Merge(0, 0, 0, 0.0, 0))
  {
  }

  /** The surfaces that have been dealt with when kind t and layer k are next. */
  ghost predicate Done(s: seq<Surface>, c: Chunk, t: nat, k: nat)
    requires c.Valid() && t <= |KINDS|
  {
    s + StackFrom(c, t, k) == StackFrom(c, 0, 0)
  }

  lemma DoneNext(s: seq<Surface>, c: Chunk, t: nat, k: nat)
    requires c.Valid() && t < |KINDS| && Done(s, c, t, k)
    ensures !c.kinds[t] ==> Done(s, c, t + 1, k)
    ensures c.kinds[t] && k < |c.layers| ==> Done(s + [Surface(KINDS[t], c.layers[k])], c, t + 1, k + 1)
    ensures c.kinds[t] && k >= |c.layers| ==> s == StackFrom(c, 0, 0)
  {
    if c.kinds[t] && k < |c.layers| {
      var f := Surface(KINDS[t], c.layers[k]);
      assert s + ([f] + StackFrom(c, t + 1, k + 1)) == (s + [f]) + StackFrom(c, t + 1, k + 1);
    }
  }

  lemma DoneFirst(c: Chunk)
    requires c.Valid()
    ensures Done([], c, 0, 0)
  {
  }

  lemma DoneLast(s: seq<Surface>, c: Chunk, k: nat)
    requires c.Valid() && Done(s, c, |KINDS|, k)
    ensures s == StackFrom(c, 0, 0)
  {
  }

  /** The state of the merge once some surfaces of the chunk have been dealt with. */
  ghost predicate Progress(s: seq<Surface>, i: nat, j: nat, top: array2<Option<real>>, show0: seq<seq<bool>>,
                           show: array2<bool>, m: Merge)
    requires top.Length0 == top.Length1 == 9 && Square(show0, GRID) && show.Length0 == show.Length1 == GRID
    reads top, show
  {
    && ValidStack(s) && ChunkTops(s, top) && ChunkShow(s, i, j, show0, show)
    && ChunkType(s, m.flags, m.entry, m.bestCells, m.bestHeight, m.count)
  }

  /** The variables of the merge of a chunk. */
  datatype Merge = Merge(flags: nat, entry: nat, bestCells: nat, bestHeight: real, count: nat)

  /** Merges all surfaces of a chunk. */
  method MergeSurfaces(c: Chunk, i: nat, j: nat, top: array2<Option<real>>, show: array2<bool>) returns (m: Merge)
    requires c.Valid() && i < CELLS && j < CELLS
    requires top.Length0 == top.Length1 == 9 && show.Length0 == show.Length1 == GRID
    requires forall a, b :: 0 <= a <= 8 && 0 <= b <= 8 ==> top[a, b] == None
    modifies top, show
    ensures Progress(StackFrom(c, 0, 0), i, j, top, old(Snapshot(show)), show, m)
  {
    hide Progress, Done, StackFrom, ValidStack;
    ghost var show0, s := Snapshot(show), [];
    var layer, t := 0, 0;
    m := Merge(0, 0, 0, 0.0, 0);
    NoSurfaces(show0, show, top, i, j);
    DoneFirst(c);
    while t < |KINDS|
      invariant t <= |KINDS| && Done(s, c, t, layer) && Progress(s, i, j, top, show0, show, m)
    {
      if c.kinds[t] {
        if layer >= |c.layers| {
          DoneNext(s, c, t, layer);
          break;
        }
        m, s := MergeAnnounced(c, t, layer, s, i, j, top, show0, show, m);
        layer := layer + 1;
      } else {
        DoneNext(s, c, t, layer);
      }
      t := t + 1;
    }
    if t == |KINDS| { DoneLast(s, c, layer); }
  }

  /** Merges the layer of an announced kind. */
  method MergeAnnounced(c: Chunk, t: nat, layer: nat, ghost s: seq<Surface>, i: nat, j: nat, top: array2<Option<real>>,
                        ghost show0: seq<seq<bool>>, show: array2<bool>, m: Merge)
    returns (m': Merge, ghost s': seq<Surface>)
    requires c.Valid() && t < |KINDS| && c.kinds[t] && layer < |c.layers| && Done(s, c, t, layer)
    requires i < CELLS && j < CELLS
    requires top.Length0 == top.Length1 == 9 && Square(show0, GRID) && show.Length0 == show.Length1 == GRID
    requires Progress(s, i, j, top, show0, show, m)
    modifies top, show
    ensures Done(s', c, t + 1, layer + 1) && Progress(s', i, j, top, show0, show, m')
  {
    hide Progress, Done, StackFrom;
    DoneNext(s, c, t, layer);
    m' := MergeKind(Surface(KINDS[t], c.layers[layer]), s, i, j, top, show0, show, m);
    s' := s + [Surface(KINDS[t], c.layers[layer])];
  }

  method MergeKind(f: Surface, ghost s: seq<Surface>, i: nat, j: nat, top: array2<Option<real>>,
                   ghost show0: seq<seq<bool>>, show: array2<bool>, m: Merge) returns (m': Merge)
    requires f.layer.Valid() && f.kind in KINDS && i < CELLS && j < CELLS
    requires top.Length0 == top.Length1 == 9 && Square(show0, GRID) && show.Length0 == show.Length1 == GRID
    requires Progress(s, i, j, top, show0, show, m)
    modifies top, show
    ensures Progress(s + [f], i, j, top, show0, show, m')
  {
    var flags, entry, bestCells, bestHeight, count :=
      MergeSurface(f, s, i, j, top, show0, show, m.flags, m.entry, m.bestCells, m.bestHeight, m.count);
    m' := Merge(flags, entry, bestCells, bestHeight, count);
  }

  predicate InBlock(i: nat, j: nat, a: int, b: int) {
    CELL * i <= a <= CELL * i + CELL && CELL * j <= b <= CELL * j + CELL
  }

  /** The height of a vertex of the grid once a chunk has been written. */
  function Written(s: seq<Surface>, i: nat, j: nat, a: int, b: int, h: real): real
    requires ValidStack(s)
  {
    if InBlock(i, j, a, b) && Top(s, a - CELL * i, b - CELL * j).Some?
    then Top(s, a - CELL * i, b - CELL * j).value else h
  }

  /** With no cell shown there is no vertex to write. */
  lemma {:induction false} NothingToWrite(s: seq<Surface>, a: nat, b: nat)
    requires ValidStack(s) && a <= 8 && b <= 8 && Total(s) == 0
    ensures Top(s, a, b) == None
  {
    if s != [] {
      NothingToWrite(s[..|s| - 1], a, b);
      CellsIffShown(s[|s| - 1].layer, 64);
    }
  }

  /** Writes the merged heights of a chunk into the grid. */
  method WriteHeights(ghost s: seq<Surface>, i: nat, j: nat, top: array2<Option<real>>, height: array2<real>)
    requires ValidStack(s) && i < CELLS && j < CELLS
    requires top.Length0 == top.Length1 == 9 && height.Length0 == height.Length1 == GRID + 1
    requires ChunkTops(s, top)
    modifies height
    ensures forall a, b :: 0 <= a <= GRID && 0 <= b <= GRID ==>
            height[a, b] == Written(s, i, j, a, b, old(height[a, b]))
  {
    for y := 0 to CELL + 1
      invariant forall a, b :: 0 <= a <= GRID && 0 <= b <= GRID ==>
                  height[a, b] == if a < CELL * i + y then Written(s, i, j, a, b, old(height[a, b]))
                    else old(height[a, b])
    {
      for x := 0 to CELL + 1
        invariant forall a, b :: 0 <= a <= GRID && 0 <= b <= GRID ==>
                    height[a, b] == if a < CELL * i + y || (a == CELL * i + y && b < CELL * j + x)
                                    then Written(s, i, j, a, b, old(height[a, b])) else old(height[a, b])
      {
        assert top[y, x] == Top(s, y, x);
        if top[y, x].Some? { height[CELL * i + y, CELL * j + x] := top[y, x].value; }
      }
    }
  }

  /** What one chunk contributes to the grid. */
  method MergeChunk(c: Chunk, i: nat, j: nat, show: array2<bool>, height: array2<real>, entry: array2<nat>,
                    flags: array2<nat>)
    requires c.Valid() && i < CELLS && j < CELLS && Arrays(show, height, entry, flags)
    requires entry[i, j] == flags[i, j] == 0
    modifies show, height, entry, flags
    ensures var s := StackFrom(c, 0, 0);
            && ChunkShow(s, i, j, old(Snapshot(show)), show)
            && (forall a, b :: 0 <= a <= GRID && 0 <= b <= GRID ==>
                height[a, b] == Written(s, i, j, a, b, old(height[a, b])))
            && (forall a, b :: 0 <= a < CELLS && 0 <= b < CELLS ==>
                  && entry[a, b] == (if a == i && b == j then TypeEntry(s) else old(entry[a, b]))
                  && flags[a, b] == (if a == i && b == j then TypeFlags(s) else old(flags[a, b])))
  {
    var top := new Option<real>[9, 9]((_, _) => None);
    ghost var s := StackFrom(c, 0, 0);
    var m := MergeSurfaces(c, i, j, top, show);
    flags[i, j], entry[i, j] := m.flags, m.entry;
    if m.count == 0 {
      forall a, b | 0 <= a <= GRID && 0 <= b <= GRID && InBlock(i, j, a, b)
        ensures Top(s, a - CELL * i, b - CELL * j) == None
      {
        NothingToWrite(s, a - CELL * i, b - CELL * j);
      }
      return;
    }
    WriteHeights(s, i, j, top, height);
  }

  ghost predicate Arrays(show: array2<bool>, height: array2<real>, entry: array2<nat>, flags: array2<nat>) {
    && show.Length0 == show.Length1 == GRID && height.Length0 == height.Length1 == GRID + 1
    && entry.Length0 == entry.Length1 == CELLS && flags.Length0 == flags.Length1 == CELLS && entry != flags
  }

  // ---- Merging the grid ------------------------------------------------------------------------------

  ghost predicate ValidChunks(cells: seq<seq<Chunk>>) {
    && |cells| == CELLS
    && (forall i :: 0 <= i < CELLS ==> |cells[i]| == CELLS)
    && forall i, j :: 0 <= i < CELLS && 0 <= j < CELLS ==> cells[i][j].Valid()
  }

  function Stack(cells: seq<seq<Chunk>>, i: nat, j: nat): (s: seq<Surface>)
    requires ValidChunks(cells) && i < CELLS && j < CELLS
    ensures ValidStack(s)
  {
    StackFrom(cells[i][j], 0, 0)
  }

  /** The surfaces over a sub cell of the grid. */
  function StackAt(cells: seq<seq<Chunk>>, y: nat, x: nat): (s: seq<Surface>)
    requires ValidChunks(cells) && y < GRID && x < GRID
    ensures ValidStack(s)
  {
    Stack(cells, Owner(y), Owner(x))
  }

  ghost predicate Wet(cells: seq<seq<Chunk>>, y: nat, x: nat)
    requires ValidChunks(cells) && y < GRID && x < GRID
  {
    Flooded(StackAt(cells, y, x), y - CELL * Owner(y), x - CELL * Owner(x))
  }

  /** The topmost surface at the first corner of a sub cell. */
  function TopAt(cells: seq<seq<Chunk>>, y: nat, x: nat): Option<real>
    requires ValidChunks(cells) && y < GRID && x < GRID
  {
    Top(StackAt(cells, y, x), y - CELL * Owner(y), x - CELL * Owner(x))
  }

  /** A flooded sub cell has a surface at its first corner. */
  lemma FloodedHasTop(s: seq<Surface>, y: nat, x: nat)
    requires ValidStack(s) && y < 8 && x < 8 && Flooded(s, y, x)
    ensures Top(s, y, x).Some?
  {
  }

  /** What the merge has made of a sub cell when chunk (i, j) is next. */
  ghost predicate CellDone(cells: seq<seq<Chunk>>, y: nat, x: nat, i: nat, j: nat, shown: bool, h: real)
    requires ValidChunks(cells) && y < GRID && x < GRID
  {
    if Earlier(y, x, i, j) then shown == Wet(cells, y, x) && (shown ==> TopAt(cells, y, x) == Some(h)) else !shown
  }

  ghost predicate GridDone(cells: seq<seq<Chunk>>, i: nat, j: nat, show: array2<bool>, height: array2<real>,
                           entry: array2<nat>, flags: array2<nat>)
    requires ValidChunks(cells) && Arrays(show, height, entry, flags)
    reads show, height, entry, flags
  {
    && (forall y, x :: 0 <= y < GRID && 0 <= x < GRID ==> CellDone(cells, y, x, i, j, show[y, x], height[y, x]))
    && forall a, b :: 0 <= a < CELLS && 0 <= b < CELLS ==>
         if a < i || (a == i && b < j)
         then entry[a, b] == TypeEntry(Stack(cells, a, b)) && flags[a, b] == TypeFlags(Stack(cells, a, b))
         else entry[a, b] == flags[a, b] == 0
  }

  lemma CellNext(cells: seq<seq<Chunk>>, y: nat, x: nat, i: nat, j: nat, shown: bool, h: real, shown': bool, h': real)
    requires ValidChunks(cells) && y < GRID && x < GRID && i < CELLS && j < CELLS
    requires CellDone(cells, y, x, i, j, shown, h)
    requires shown' == (shown || Flooded(Stack(cells, i, j), y - CELL * i, x - CELL * j))
    requires h' == Written(Stack(cells, i, j), i, j, y, x, h)
    ensures CellDone(cells, y, x, i, j + 1, shown', h')
  {
    EarlierIsOutside(y, x, i, j);
    if Owner(y) == i && Owner(x) == j {
      if shown' { FloodedHasTop(Stack(cells, i, j), y - CELL * i, x - CELL * j); }
    } else {
      assert !Flooded(Stack(cells, i, j), y - CELL * i, x - CELL * j);
    }
  }

  method MergeNextChunk(cells: seq<seq<Chunk>>, i: nat, j: nat, show: array2<bool>, height: array2<real>,
                        entry: array2<nat>, flags: array2<nat>)
    requires ValidChunks(cells) && i < CELLS && j < CELLS && Arrays(show, height, entry, flags)
    requires GridDone(cells, i, j, show, height, entry, flags)
    modifies show, height, entry, flags
    ensures GridDone(cells, i, j + 1, show, height, entry, flags)
  {
    hide CellDone, Flooded, Written, TypeEntry, TypeFlags;
    MergeChunk(cells[i][j], i, j, show, height, entry, flags);
    forall y, x | 0 <= y < GRID && 0 <= x < GRID
      ensures CellDone(cells, y, x, i, j + 1, show[y, x], height[y, x])
    {
      CellNext(cells, y, x, i, j, old(show[y, x]), old(height[y, x]), show[y, x], height[y, x]);
    }
  }

  /**
    Merges the whole grid: a sub cell is shown exactly if one of its surfaces shows it, and then
    its first corner has the height of the topmost one, although chunks overwrite common vertices.
   */
  method MergeGrid(cells: seq<seq<Chunk>>, show: array2<bool>, height: array2<real>, entry: array2<nat>,
                   flags: array2<nat>)
    requires ValidChunks(cells) && Arrays(show, height, entry, flags)
    requires forall y, x :: 0 <= y < GRID && 0 <= x < GRID ==> !show[y, x]
    requires forall a, b :: 0 <= a < CELLS && 0 <= b < CELLS ==> entry[a, b] == flags[a, b] == 0
    modifies show, height, entry, flags
    ensures GridDone(cells, CELLS, 0, show, height, entry, flags)
  {
    for i := 0 to CELLS
      invariant GridDone(cells, i, 0, show, height, entry, flags)
    {
      for j := 0 to CELLS
        invariant GridDone(cells, i, j, show, height, entry, flags)
      {
        MergeNextChunk(cells, i, j, show, height, entry, flags);
      }
    }
  }

  ghost predicate ShowsAny(s: seq<Surface>)
    requires ValidStack(s)
  {
    exists y, x :: Flooded(s, y, x)
  }

  lemma ShowsIffChosen(s: seq<Surface>)
    requires ValidStack(s)
    ensures ShowsAny(s) <==> Choose(s).index.Some?
  {
    ChoiceIsLargest(s);
    if y, x :| Flooded(s, y, x) {
      var k :| 0 <= k < |s| && Shown(s[k].layer, 64, y, x);
      CellsIffShown(s[k].layer, 64);
    }
    if Choose(s).index.Some? {
      var l := s[Choose(s).index.value].layer;
      CellsIffShown(l, 64);
      var y, x :| Shown(l, 64, y, x);
      assert Flooded(s, y, x);
    }
  }

  lemma DeepShows(s: seq<Surface>)
    requires ValidStack(s) && Deep(s)
    ensures ShowsAny(s)
  {
    var i :| 0 <= i < |s| && DarkWithin(s[i].layer, 64);
    var k :| 0 <= k < 64 && IsDark(s[i].layer, k);
    assert Shown(s[i].layer, 64, k / 8, k % 8);
    assert Flooded(s, k / 8, k % 8);
  }

  /** A chunk has a type exactly if some sub cell of it is shown. */
  lemma TypedIffShown(s: seq<Surface>)
    requires ValidStack(s) && KnownKinds(s)
    ensures TypeFlags(s) != 0 <==> ShowsAny(s)
    ensures TypeEntry(s) != 0 <==> ShowsAny(s)
  {
    ShowsIffChosen(s);
    if Deep(s) { DeepShows(s); }
    assert forall k: Kind :: k in KINDS ==> k.flag > 0 && k.entry > 0;
  }

  lemma {:induction false} StackIsKnown(c: Chunk, t: nat, k: nat)
    requires c.Valid() && t <= |KINDS|
    ensures KnownKinds(StackFrom(c, t, k))
    decreases |KINDS| - t
  {
    if t < |KINDS| {
      StackIsKnown(c, t + 1, k);
      StackIsKnown(c, t + 1, k + 1);
    }
  }

  // ---- Packing ---------------------------------------------------------------------------------------

  /** Packing options, as far as liquid goes. */
  datatype Config = Config(minHeight: real, toInt: bool, flatDelta: real)

  datatype Header = Header(noType: bool, noHeight: bool, flags: nat, entry: nat,
                           offsetX: nat, offsetY: nat, width: nat, height: nat, level: real)

  predicate Differs(entry: array2<nat>, flags: array2<nat>, a: nat, b: nat)
    requires entry.Length0 == entry.Length1 == CELLS && flags.Length0 == flags.Length1 == CELLS && a < CELLS &&
             b < CELLS
    reads entry, flags
  {
    entry[a, b] != entry[0, 0] || flags[a, b] != flags[0, 0]
  }

  ghost predicate OneType(entry: array2<nat>, flags: array2<nat>)
    requires entry.Length0 == entry.Length1 == CELLS && flags.Length0 == flags.Length1 == CELLS
    reads entry, flags
  {
    forall a, b :: 0 <= a < CELLS && 0 <= b < CELLS ==> !Differs(entry, flags, a, b)
  }

  /** Whether the chunks are of more than one type. */
  method HasFullType(entry: array2<nat>, flags: array2<nat>) returns (full: bool)
    requires entry.Length0 == entry.Length1 == CELLS && flags.Length0 == flags.Length1 == CELLS
    ensures full <==> !OneType(entry, flags)
  {
    var y := 0;
    while y < CELLS
      invariant y <= CELLS && forall a, b :: 0 <= a < y && 0 <= b < CELLS ==> !Differs(entry, flags, a, b)
    {
      for x := 0 to CELLS
        invariant forall b :: 0 <= b < x ==> !Differs(entry, flags, y, b)
      {
        if Differs(entry, flags, y, x) { return true; }
      }
      y := y + 1;
    }
    return false;
  }

  /** The smallest box of sub cells, and the range of heights, met on the way through the grid. */
  datatype Box = Box(minX: nat, minY: nat, maxX: nat, maxY: nat, lo: real, hi: real)

  /** What the box must be for a sub cell: around it, if it is shown, and its height must be in the range. */
  predicate Fits(b: Box, v: nat, u: nat, shown: bool, h: real, minHeight: real) {
    if shown then b.minX <= u <= b.maxX && b.minY <= v <= b.maxY && b.lo <= h <= b.hi
    else b.lo <= minHeight && h == minHeight
  }

  predicate Wider(b: Box, b': Box) {
    b'.minX <= b.minX && b'.minY <= b.minY && b.maxX <= b'.maxX && b.maxY <= b'.maxY && b'.lo <= b.lo && b.hi <= b'.hi
  }

  /** The box fits all sub cells up to a point. */
  ghost predicate Covers(b: Box, show: array2<bool>, height: array2<real>, minHeight: real, y: nat, x: nat)
    requires show.Length0 == show.Length1 == GRID && height.Length0 == height.Length1 == GRID + 1
    reads show, height
  {
    forall v, u :: 0 <= v < GRID && 0 <= u < GRID && (v < y || (v == y && u < x)) ==>
      Fits(b, v, u, show[v, u], height[v, u], minHeight)
  }

  /** Every side of the box touches a shown sub cell. */
  ghost predicate Tight(b: Box, show: array2<bool>)
    requires show.Length0 == show.Length1 == GRID
    reads show
  {
    ShownColumn(show, b.minX) && ShownColumn(show, b.maxX) && ShownRow(show, b.minY) && ShownRow(show, b.maxY)
  }

  ghost predicate ShownColumn(show: array2<bool>, u: nat)
    requires show.Length0 == show.Length1 == GRID
    reads show
  {
    u < GRID && exists v :: 0 <= v < GRID && show[v, u]
  }

  ghost predicate ShownRow(show: array2<bool>, v: nat)
    requires show.Length0 == show.Length1 == GRID
    reads show
  {
    v < GRID && exists u :: 0 <= u < GRID && show[v, u]
  }

  ghost predicate AnyShown(show: array2<bool>, y: nat, x: nat)
    requires show.Length0 == show.Length1 == GRID
    reads show
  {
    exists v, u :: 0 <= v < GRID && 0 <= u < GRID && (v < y || (v == y && u < x)) && show[v, u]
  }

  /** The box that is the outcome of taking one more sub cell into account. */
  function Including(b: Box, shown: bool, h: real, minHeight: real, y: nat, x: nat): (b': Box)
    ensures Wider(b, b')
    ensures Fits(b', y, x, shown, if shown then h else minHeight, minHeight)
  {
    if shown then
      Box(if b.minX > x then x else b.minX, if b.minY > y then y else b.minY,
          if b.maxX < x then x else b.maxX, if b.maxY < y then y else b.maxY,
          if b.lo > h then h else b.lo, if b.hi < h then h else b.hi)
    else b.(lo := if b.lo > minHeight then minHeight else b.lo)
  }

  /** The height is that of a shown sub cell up to a point. */
  ghost predicate HighestAt(h: real, show: array2<bool>, height: array2<real>, y: nat, x: nat)
    requires show.Length0 == show.Length1 == GRID && height.Length0 == height.Length1 == GRID + 1
    reads show, height
  {
    exists v, u :: 0 <= v < GRID && 0 <= u < GRID && (v < y || (v == y && u < x)) && show[v, u] && height[v, u] == h
  }

  /** Takes one sub cell into account; one that is not shown gets the height of no liquid. */
  method Include(b0: Box, show: array2<bool>, height: array2<real>, minHeight: real, y: nat, x: nat) returns (b: Box)
    requires show.Length0 == show.Length1 == GRID && height.Length0 == height.Length1 == GRID + 1 && y < GRID &&
             x < GRID
    requires b0.hi == -20000.0 || HighestAt(b0.hi, show, height, y, x)
    modifies height
    ensures b.hi == -20000.0 || HighestAt(b.hi, show, height, y, x + 1)
    ensures b == Including(b0, show[y, x], old(height[y, x]), minHeight, y, x)
    ensures forall v, u :: 0 <= v <= GRID && 0 <= u <= GRID ==>
              height[v, u] == if v == y && u == x && !show[y, x] then minHeight else old(height[v, u])
  {
    b := b0;
    if show[y, x] {
      if b.minX > x { b := b.(minX := x); }
      if b.maxX < x { b := b.(maxX := x); }
      if b.minY > y { b := b.(minY := y); }
      if b.maxY < y { b := b.(maxY := y); }
      var h := height[y, x];
      if b.hi < h { b := b.(hi := h); }
      if b.lo > h { b := b.(lo := h); }
    } else {
      height[y, x] := minHeight;
      if b.lo > minHeight { b := b.(lo := minHeight); }
    }
    if b.hi == b0.hi != -20000.0 {
      ghost var v, u :| 0 <= v < GRID && 0 <= u < GRID && (v < y || (v == y && u < x)) && show[v, u] &&
        old(height[v, u]) == b0.hi;
      assert height[v, u] == b.hi;
    }
  }

  /** The box on the way through the grid: as wide as needed, and no wider. */
  ghost predicate Boxed(b: Box, show: array2<bool>, height: array2<real>, minHeight: real, y: nat, x: nat)
    requires show.Length0 == show.Length1 == GRID && height.Length0 == height.Length1 == GRID + 1
    reads show, height
  {
    && Covers(b, show, height, minHeight, y, x)
    && (b.hi == -20000.0 || HighestAt(b.hi, show, height, y, x))
    && if AnyShown(show, y, x) then Tight(b, show) else b.minX == b.minY == 255 && b.maxX == b.maxY == 0
  }

  lemma TightNext(b: Box, show: array2<bool>, y: nat, x: nat, h: real, minHeight: real)
    requires show.Length0 == show.Length1 == GRID && y < GRID && x < GRID
    requires if AnyShown(show, y, x) then Tight(b, show) else b.minX == b.minY == 255 && b.maxX == b.maxY == 0
    ensures var b' := Including(b, show[y, x], h, minHeight, y, x);
            if AnyShown(show, y, x + 1) then Tight(b', show) else b'.minX == b'.minY == 255 && b'.maxX == b'.maxY == 0
  {
  }

  lemma FitsWider(b: Box, b': Box, v: nat, u: nat, shown: bool, h: real, minHeight: real)
    requires Wider(b, b') && Fits(b, v, u, shown, h, minHeight)
    ensures Fits(b', v, u, shown, h, minHeight)
  {
  }

  method IncludeNext(b0: Box, show: array2<bool>, height: array2<real>, minHeight: real, y: nat, x: nat)
    returns (b: Box)
    requires show.Length0 == show.Length1 == GRID && height.Length0 == height.Length1 == GRID + 1 && y < GRID &&
             x < GRID
    requires Boxed(b0, show, height, minHeight, y, x)
    modifies height
    ensures Boxed(b, show, height, minHeight, y, x + 1)
    ensures forall v, u :: 0 <= v <= GRID && 0 <= u <= GRID ==>
              height[v, u] == if v == y && u == x && !show[y, x] then minHeight else old(height[v, u])
  {
    hide Fits, Wider, Including, Tight, AnyShown, HighestAt;
    TightNext(b0, show, y, x, height[y, x], minHeight);
    b := Include(b0, show, height, minHeight, y, x);
    forall v, u | 0 <= v < GRID && 0 <= u < GRID && (v < y || (v == y && u < x + 1))
      ensures Fits(b, v, u, show[v, u], height[v, u], minHeight)
    {
      if v != y || u != x { FitsWider(b0, b, v, u, show[v, u], height[v, u], minHeight); }
    }
  }

  /** Walks through the grid for the box, and clears the heights of sub cells that are not shown. */
  method FindBox(show: array2<bool>, height: array2<real>, minHeight: real) returns (b: Box)
    requires show.Length0 == show.Length1 == GRID && height.Length0 == height.Length1 == GRID + 1
    modifies height
    ensures Boxed(b, show, height, minHeight, GRID, 0)
    ensures forall v, u :: 0 <= v <= GRID && 0 <= u <= GRID ==>
              height[v, u] == if v < GRID && u < GRID && !show[v, u] then minHeight else old(height[v, u])
  {
    b := Box(255, 255, 0, 0, 20000.0, -20000.0);
    for y := 0 to GRID
      invariant Boxed(b, show, height, minHeight, y, 0)
      invariant forall v, u :: 0 <= v <= GRID && 0 <= u <= GRID ==>
                  height[v, u] == if v < y && u < GRID && !show[v, u] then minHeight else old(height[v, u])
    {
      for x := 0 to GRID
        invariant Boxed(b, show, height, minHeight, y, x)
        invariant forall v, u :: 0 <= v <= GRID && 0 <= u <= GRID ==>
                    height[v, u] == if ((v < y && u < GRID) || (v == y && u < x)) && !show[v, u]
                                    then minHeight else old(height[v, u])
      {
        b := IncludeNext(b, show, height, minHeight, y, x);
      }
      RowBoxed(b, show, height, minHeight, y);
    }
  }

  lemma RowBoxed(b: Box, show: array2<bool>, height: array2<real>, minHeight: real, y: nat)
    requires show.Length0 == show.Length1 == GRID && height.Length0 == height.Length1 == GRID + 1 && y < GRID
    requires Boxed(b, show, height, minHeight, y, GRID)
    ensures Boxed(b, show, height, minHeight, y + 1, 0)
  {
  }

  ghost predicate AllDry(cells: seq<seq<Chunk>>)
    requires ValidChunks(cells)
  {
    forall y, x :: 0 <= y < GRID && 0 <= x < GRID ==> !Wet(cells, y, x)
  }

  lemma WetIffTyped(cells: seq<seq<Chunk>>, a: nat, b: nat)
    requires ValidChunks(cells) && a < CELLS && b < CELLS
    ensures TypeFlags(Stack(cells, a, b)) == 0 <==> TypeEntry(Stack(cells, a, b)) == 0
    ensures TypeFlags(Stack(cells, a, b)) == 0 ==>
              forall y, x :: 0 <= y < GRID && 0 <= x < GRID && Owner(y) == a && Owner(x) == b ==> !Wet(cells, y, x)
    ensures TypeFlags(Stack(cells, a, b)) != 0 ==> !AllDry(cells)
  {
    var s := Stack(cells, a, b);
    StackIsKnown(cells[a][b], 0, 0);
    TypedIffShown(s);
    if ShowsAny(s) {
      var y, x :| Flooded(s, y, x);
      assert Owner(CELL * a + y) == a && Owner(CELL * b + x) == b;
      assert Wet(cells, CELL * a + y, CELL * b + x);
    } else {
      forall y, x | 0 <= y < GRID && 0 <= x < GRID && Owner(y) == a && Owner(x) == b ensures !Wet(cells, y, x) {
        assert !Flooded(s, y - CELL * a, x - CELL * b);
      }
    }
  }

  /** The header of the liquid section: a box of vertices around everything shown, no larger than needed. */
  ghost predicate HeaderFits(h: Header, cells: seq<seq<Chunk>>)
    requires ValidChunks(cells)
  {
    && 2 <= h.width && h.offsetX + h.width <= GRID + 1 && 2 <= h.height && h.offsetY + h.height <= GRID + 1
    && (forall y, x :: 0 <= y < GRID && 0 <= x < GRID && Wet(cells, y, x) ==>
          h.offsetX <= x && x + 2 <= h.offsetX + h.width && h.offsetY <= y && y + 2 <= h.offsetY + h.height)
    && WetColumn(cells, h.offsetX) && WetColumn(cells, h.offsetX + h.width - 2)
    && WetRow(cells, h.offsetY) && WetRow(cells, h.offsetY + h.height - 2)
  }

  ghost predicate WetColumn(cells: seq<seq<Chunk>>, u: nat)
    requires ValidChunks(cells)
  {
    u < GRID && exists v :: 0 <= v < GRID && Wet(cells, v, u)
  }

  ghost predicate WetRow(cells: seq<seq<Chunk>>, v: nat)
    requires ValidChunks(cells)
  {
    v < GRID && exists u :: 0 <= u < GRID && Wet(cells, v, u)
  }

  ghost predicate Uniform(cells: seq<seq<Chunk>>)
    requires ValidChunks(cells)
  {
    forall a, b :: 0 <= a < CELLS && 0 <= b < CELLS ==>
      TypeEntry(Stack(cells, a, b)) == TypeEntry(Stack(cells, 0, 0)) &&
        TypeFlags(Stack(cells, a, b)) == TypeFlags(Stack(cells, 0, 0))
  }

  /** Packs the liquid of the grid: there is a section exactly if anything is shown. */
  method PackLiquid(ghost cells: seq<seq<Chunk>>, show: array2<bool>, height: array2<real>, entry: array2<nat>,
                    flags: array2<nat>, c: Config) returns (header: Option<Header>)
    requires ValidChunks(cells) && Arrays(show, height, entry, flags)
    requires GridDone(cells, CELLS, 0, show, height, entry, flags)
    modifies height
    ensures header == None <==> AllDry(cells)
    ensures header.Some? ==> HeaderFits(header.value, cells) && TypeFits(header.value, cells)
    ensures header.Some? ==> forall y, x :: 0 <= y < GRID && 0 <= x < GRID ==>
              if Wet(cells, y, x)
              then TopAt(cells, y, x) == Some(height[y, x]) && LevelFits(header.value, height[y, x], c)
              else height[y, x] == c.minHeight
    ensures header.Some? && !header.value.noHeight ==> LevelsDiffer(header.value, cells, c)
  {
    hide Wet, TopAt, Uniform, AllDry, HeaderFits, Boxed, TypeEntry, TypeFlags, OneType, IsFar;
    UniformIff(cells, show, height, entry, flags);
    AllDryIff(cells, show, height, entry, flags);
    ShownIffWet(cells, show, height, entry, flags);
    var full := HasFullType(entry, flags);
    if flags[0, 0] == 0 && !full { return None; }
    var b := FindBox(show, height, c.minHeight);
    BoxIsHeader(cells, b, show, height, c.minHeight);
    HighestIsFar(cells, b, show, height, c);
    header := Some(Header(!full, b.hi == b.lo || (c.toInt && b.hi - b.lo < c.flatDelta),
                          if full then 0 else flags[0, 0], if full then 0 else entry[0, 0],
                          b.minX, b.minY, b.maxX - b.minX + 2, b.maxY - b.minY + 2, b.lo));
    HeaderOfBox(cells, b, header.value);
  }

  /** A level for all, only if no shown height is far from it. */
  predicate LevelFits(h: Header, height: real, c: Config) {
    h.noHeight ==> h.level <= height && (height == h.level || (c.toInt && height - h.level < c.flatDelta))
  }

  /** Some surface is too far from the common level for it to do, unless all of them lie at the bottom of the world. */
  ghost predicate LevelsDiffer(h: Header, cells: seq<seq<Chunk>>, c: Config)
    requires ValidChunks(cells)
  {
    exists y, x :: 0 <= y < GRID && 0 <= x < GRID && Wet(cells, y, x) && IsFar(TopAt(cells, y, x), h.level, c)
  }

  predicate IsFar(top: Option<real>, level: real, c: Config) {
    top.Some? && (top.value <= -20000.0 || (top.value != level && !(c.toInt && top.value - level < c.flatDelta)))
  }

  ghost predicate TypeFits(h: Header, cells: seq<seq<Chunk>>)
    requires ValidChunks(cells)
  {
    && (h.noType <==> Uniform(cells))
    && (h.noType ==> h.flags == TypeFlags(Stack(cells, 0, 0)) && h.entry == TypeEntry(Stack(cells, 0, 0)))
  }

  lemma UniformIff(cells: seq<seq<Chunk>>, show: array2<bool>, height: array2<real>, entry: array2<nat>,
                   flags: array2<nat>)
    requires ValidChunks(cells) && Arrays(show, height, entry, flags)
    requires GridDone(cells, CELLS, 0, show, height, entry, flags)
    ensures Uniform(cells) <==> OneType(entry, flags)
    ensures flags[0, 0] == TypeFlags(Stack(cells, 0, 0)) && entry[0, 0] == TypeEntry(Stack(cells, 0, 0))
  {
    hide TypeEntry, TypeFlags, Stack, CellDone;
    forall a, b | 0 <= a < CELLS && 0 <= b < CELLS
      ensures Differs(entry, flags, a, b) <==>
              TypeEntry(Stack(cells, a, b)) != TypeEntry(Stack(cells, 0, 0)) ||
                TypeFlags(Stack(cells, a, b)) != TypeFlags(Stack(cells, 0, 0))
    {
      assert entry[a, b] == TypeEntry(Stack(cells, a, b)) && flags[a, b] == TypeFlags(Stack(cells, a, b));
    }
  }

  lemma AllDryIff(cells: seq<seq<Chunk>>, show: array2<bool>, height: array2<real>, entry: array2<nat>,
                  flags: array2<nat>)
    requires ValidChunks(cells) && Arrays(show, height, entry, flags)
    requires GridDone(cells, CELLS, 0, show, height, entry, flags)
    ensures AllDry(cells) <==> Uniform(cells) && flags[0, 0] == 0
  {
    hide TypeEntry, TypeFlags, Stack, CellDone, Wet;
    assert flags[0, 0] == TypeFlags(Stack(cells, 0, 0));
    forall a, b | 0 <= a < CELLS && 0 <= b < CELLS
      ensures TypeFlags(Stack(cells, a, b)) == 0 <==> TypeEntry(Stack(cells, a, b)) == 0
      ensures TypeFlags(Stack(cells, a, b)) != 0 ==> !AllDry(cells)
    {
      WetIffTyped(cells, a, b);
    }
    if Uniform(cells) && flags[0, 0] == 0 {
      forall y, x | 0 <= y < GRID && 0 <= x < GRID ensures !Wet(cells, y, x) {
        WetIffTyped(cells, Owner(y), Owner(x));
      }
    }
  }

  lemma ShownIffWet(cells: seq<seq<Chunk>>, show: array2<bool>, height: array2<real>, entry: array2<nat>,
                    flags: array2<nat>)
    requires ValidChunks(cells) && Arrays(show, height, entry, flags)
    requires GridDone(cells, CELLS, 0, show, height, entry, flags)
    ensures forall y, x :: 0 <= y < GRID && 0 <= x < GRID ==>
              show[y, x] == Wet(cells, y, x) && (show[y, x] ==> TopAt(cells, y, x) == Some(height[y, x]))
  {
  }

  /** The box of everything that is wet. */
  ghost predicate BoxOf(cells: seq<seq<Chunk>>, b: Box)
    requires ValidChunks(cells)
  {
    && WetColumn(cells, b.minX) && WetColumn(cells, b.maxX) && WetRow(cells, b.minY) && WetRow(cells, b.maxY)
    && forall y, x :: 0 <= y < GRID && 0 <= x < GRID && Wet(cells, y, x) ==>
         b.minX <= x <= b.maxX && b.minY <= y <= b.maxY
  }

  lemma BoxIsHeader(cells: seq<seq<Chunk>>, b: Box, show: array2<bool>, height: array2<real>, minHeight: real)
    requires ValidChunks(cells) && show.Length0 == show.Length1 == GRID && height.Length0 == height.Length1 == GRID + 1
    requires forall y, x :: 0 <= y < GRID && 0 <= x < GRID ==> show[y, x] == Wet(cells, y, x)
    requires !AllDry(cells) && Boxed(b, show, height, minHeight, GRID, 0)
    ensures BoxOf(cells, b) && b.minX <= b.maxX && b.minY <= b.maxY
    ensures forall y, x :: 0 <= y < GRID && 0 <= x < GRID && Wet(cells, y, x) ==> b.lo <= height[y, x] <= b.hi
  {
    hide Wet;
    var v, u :| 0 <= v < GRID && 0 <= u < GRID && Wet(cells, v, u);
    assert show[v, u];
    assert AnyShown(show, GRID, 0) && Tight(b, show);
    forall y, x | 0 <= y < GRID && 0 <= x < GRID && Wet(cells, y, x)
      ensures b.minX <= x <= b.maxX && b.minY <= y <= b.maxY && b.lo <= height[y, x] <= b.hi
    {
      assert Fits(b, y, x, show[y, x], height[y, x], minHeight);
    }
  }

  /** The highest surface is far from the lowest height if the range is wide. */
  lemma HighestIsFar(cells: seq<seq<Chunk>>, b: Box, show: array2<bool>, height: array2<real>, c: Config)
    requires ValidChunks(cells) && show.Length0 == show.Length1 == GRID && height.Length0 == height.Length1 == GRID + 1
    requires forall y, x :: 0 <= y < GRID && 0 <= x < GRID ==> show[y, x] == Wet(cells, y, x)
    requires forall y, x :: 0 <= y < GRID && 0 <= x < GRID && show[y, x] ==> TopAt(cells, y, x) == Some(height[y, x])
    requires !AllDry(cells) && Boxed(b, show, height, c.minHeight, GRID, 0)
    ensures b.hi != b.lo && !(c.toInt && b.hi - b.lo < c.flatDelta) ==>
              exists y, x :: 0 <= y < GRID && 0 <= x < GRID && Wet(cells, y, x) && IsFar(TopAt(cells, y, x), b.lo, c)
  {
    hide Wet, TopAt, Tight;
    var v, u :| 0 <= v < GRID && 0 <= u < GRID && Wet(cells, v, u);
    assert Fits(b, v, u, show[v, u], height[v, u], c.minHeight);
    if b.hi == -20000.0 {
      assert IsFar(TopAt(cells, v, u), b.lo, c);
    } else {
      var v', u' :| 0 <= v' < GRID && 0 <= u' < GRID && show[v', u'] && height[v', u'] == b.hi;
      assert Wet(cells, v', u') && TopAt(cells, v', u') == Some(b.hi);
    }
  }

  lemma HeaderOfBox(cells: seq<seq<Chunk>>, b: Box, h: Header)
    requires ValidChunks(cells) && BoxOf(cells, b) && b.minX <= b.maxX && b.minY <= b.maxY
    requires h.offsetX == b.minX && h.offsetY == b.minY && h.width == b.maxX - b.minX + 2 &&
             h.height == b.maxY - b.minY + 2
    ensures HeaderFits(h, cells)
  {
    hide Wet;
  }
}
