/**
  The map file: how the extractor lays it out and writes it, and how the server reads it back.

  A file is a sequence of bytes, but what the bytes of a number are does not matter here: a byte
  is the k-th piece of a value, and a value can be read only where all its pieces are in place.
 */
module MapFile {
  import opened Basics
  import opened MapGrid
  import H = MapHeights
  import L = MapLiquid

  datatype Value = Int(n: int) | Real(r: real)

  datatype Piece = Piece(v: Value, k: nat)

  type File = seq<Piece>

  // ---- Values in a file ----------------------------------------------------------------------------

  function ValueBytes(w: nat, v: Value): (b: File)
    ensures |b| == w
  {
    seq(w, (k: nat) => Piece(v, k))
  }

  /** An array of values of w bytes each. */
  function Bytes(w: nat, vs: seq<Value>): File {
    if vs == [] then [] else ValueBytes(w, vs[0]) + Bytes(w, vs[1..])
  }

  function ReadValue(f: File, pos: nat, w: nat): Option<Value> {
    if w > 0 && pos + w <= |f| && forall k :: 0 <= k < w ==> f[pos + k] == Piece(f[pos].v, k)
    then Some(f[pos].v) else None
  }

  function Read(f: File, pos: nat, w: nat, n: nat): Option<seq<Value>>
    decreases n
  {
    if n == 0 then Some([])
    else
      var v, rest := ReadValue(f, pos, w), Read(f, pos + w, w, n - 1);
      if v.Some? && rest.Some? then Some([v.value] + rest.value) else None
  }

  /** The bytes b stand at a position of the file. */
  predicate At(f: File, pos: nat, b: File) {
    pos + |b| <= |f| && f[pos..pos + |b|] == b
  }

  lemma {:induction false} BytesLength(w: nat, vs: seq<Value>)
    ensures |Bytes(w, vs)| == w * |vs|
  {
    if vs != [] {
      BytesLength(w, vs[1..]);
      assert w * |vs| == w + w * (|vs| - 1);
    }
  }

  lemma AtSplit(f: File, pos: nat, a: File, b: File)
    ensures At(f, pos, a + b) <==> At(f, pos, a) && At(f, pos + |a|, b)
  {
    if At(f, pos, a + b) {
      assert f[pos..pos + |a|] == f[pos..pos + |a + b|][..|a|];
      assert f[pos + |a|..pos + |a| + |b|] == f[pos..pos + |a + b|][|a|..];
    }
    if At(f, pos, a) && At(f, pos + |a|, b) {
      assert f[pos..pos + |a + b|] == f[pos..pos + |a|] + f[pos + |a|..pos + |a| + |b|];
    }
  }

  /** What has been written can be read. */
  lemma {:induction false} ReadWritten(f: File, pos: nat, w: nat, vs: seq<Value>)
    requires w > 0 && At(f, pos, Bytes(w, vs))
    decreases |vs|
    ensures Read(f, pos, w, |vs|) == Some(vs)
  {
    if vs != [] {
      AtSplit(f, pos, ValueBytes(w, vs[0]), Bytes(w, vs[1..]));
      ReadWritten(f, pos + w, w, vs[1..]);
      forall k | 0 <= k < w ensures f[pos + k] == Piece(vs[0], k) {
        assert f[pos + k] == f[pos..pos + w][k];
      }
      assert ReadValue(f, pos, w) == Some(vs[0]);
      assert [vs[0]] + vs[1..] == vs;
    }
  }

  lemma {:induction false} BytesJoin(w: nat, a: seq<Value>, b: seq<Value>)
    ensures Bytes(w, a + b) == Bytes(w, a) + Bytes(w, b)
  {
    if a == [] {
      assert a + b == b;
    } else {
      assert (a + b)[1..] == a[1..] + b;
      BytesJoin(w, a[1..], b);
    }
  }

  // ---- What is stored --------------------------------------------------------------------------------

  const AREAS: nat := 256
  const V9_SIZE: nat := 129 * 129
  const V8_SIZE: nat := 128 * 128

  datatype HeightData = HeightData(lo: real, hi: real, format: H.Format, v9: seq<Value>, v8: seq<Value>)

  datatype LiquidData = LiquidData(header: L.Header, entry: seq<int>, flags: seq<int>, rows: seq<seq<real>>)
  {
    ghost predicate Valid() {
      && |entry| == AREAS && |flags| == AREAS
      && |rows| == GRID + 1 && (forall y :: 0 <= y <= GRID ==> |rows[y]| == GRID + 1)
      && header.offsetX + header.width <= GRID + 1 && header.offsetY + header.height <= GRID + 1
    }
  }

  datatype Grid = Grid(area: seq<int>, height: HeightData, liquid: Option<LiquidData>, holes: seq<int>)
  {
    ghost predicate Valid() {
      && |area| == AREAS && |holes| == AREAS && |height.v9| == V9_SIZE && |height.v8| == V8_SIZE
      && (liquid.Some? ==> liquid.value.Valid())
    }
  }

  function Ints(s: seq<int>): (vs: seq<Value>)
    ensures |vs| == |s| && forall k :: 0 <= k < |s| ==> vs[k] == Int(s[k])
  {
    seq(|s|, k requires 0 <= k < |s| => Int(s[k]))
  }

  predicate Bit(n: int, b: nat)
    requires b > 0
  {
    n / b % 2 == 1
  }

  const MAP_MAGIC: Value := Int(0x5350414D)
  const VERSION_MAGIC: Value := Int(0x342E317A)
  const AREA_MAGIC: Value := Int(0x41455241)
  const HEIGHT_MAGIC: Value := Int(0x5447484D)
  const LIQUID_MAGIC: Value := Int(0x51494C4D)

  predicate Mixed(area: seq<int>)
    requires |area| == AREAS
  {
    exists k :: 0 <= k < AREAS && area[k] != area[0]
  }

  // ---- Layout ------------------------------------------------------------------------------------------

  datatype Layout = Layout(areaOffset: nat, areaSize: nat, heightOffset: nat, heightSize: nat,
                           liquidOffset: nat, liquidSize: nat, holesOffset: nat, holesSize: nat)

  /** The number of bytes of a stored height. */
  function HeightWidth(f: H.Format): nat {
    match f
    case AsInt8 => 1
    case AsInt16 => 2
    case _ => 4
  }

  /** The integers of a format are those that its bytes can hold; what is no integer takes four bytes. */
  lemma WidthFits(f: H.Format)
    ensures f == H.AsInt8 ==> H.Levels(f) == 255 && HeightWidth(f) == 1
    ensures f == H.AsInt16 ==> H.Levels(f) == 65535 && HeightWidth(f) == 2
    ensures f == H.AsFloat ==> HeightWidth(f) == 4
  {
  }

  function LiquidSize(l: LiquidData): nat {
    16 + (if l.header.noType then 0 else 2 * AREAS + AREAS)
    + (if l.header.noHeight then 0 else 4 * (l.header.height * l.header.width))
  }

  /** The offsets and sizes that the header announces. */
  function Announced(d: Grid): Layout
    requires d.Valid()
  {
    var areaSize := 8 + if Mixed(d.area) then 2 * AREAS else 0;
    var heightOffset := 40 + areaSize;
    var heightSize :=
      16 + if d.height.format == H.NoHeight then 0
           else HeightWidth(d.height.format) * V9_SIZE + HeightWidth(d.height.format) * V8_SIZE;
    var end := heightOffset + heightSize;
    if d.liquid == None then Layout(40, areaSize, heightOffset, heightSize, 0, 0, end, 2 * AREAS)
    else Layout(40, areaSize, heightOffset, heightSize, end, LiquidSize(d.liquid.value),
                end + LiquidSize(d.liquid.value), 2 * AREAS)
  }

  function HeaderValues(l: Layout): seq<Value> {
    [MAP_MAGIC, VERSION_MAGIC, Int(l.areaOffset), Int(l.areaSize), Int(l.heightOffset), Int(l.heightSize),
     Int(l.liquidOffset), Int(l.liquidSize), Int(l.holesOffset), Int(l.holesSize)]
  }

  function AreaHeader(area: seq<int>, full: bool): seq<Value>
    requires |area| == AREAS
  {
    [Int(if full then 0 else 1), Int(if full then 0 else area[0])]
  }

  function AreaArray(area: seq<int>, full: bool): seq<Value> { if full then Ints(area) else [] }

  function AreaBytes(area: seq<int>, full: bool): File
    requires |area| == AREAS
  {
    Bytes(4, [AREA_MAGIC]) + Bytes(2, AreaHeader(area, full)) + Bytes(2, AreaArray(area, full))
  }

  function HeightFlags(f: H.Format): int {
    match f
    case NoHeight => 1
    case AsInt16 => 2
    case AsInt8 => 4
    case AsFloat => 0
  }

  /** The two arrays, or nothing in their place. */
  function Stored9(h: HeightData): seq<Value> { if h.format == H.NoHeight then [] else h.v9 }

  function Stored8(h: HeightData): seq<Value> { if h.format == H.NoHeight then [] else h.v8 }

  function HeightHeader(h: HeightData): seq<Value> {
    [HEIGHT_MAGIC, Int(HeightFlags(h.format)), Real(h.lo), Real(h.hi)]
  }

  function HeightBytes(h: HeightData): File {
    Bytes(4, HeightHeader(h)) + Bytes(HeightWidth(h.format), Stored9(h)) + Bytes(HeightWidth(h.format), Stored8(h))
  }

  /** Row r of the liquid box. */
  function Row(l: LiquidData, r: nat): (vs: seq<Value>)
    requires l.Valid() && r < l.header.height
    ensures |vs| == l.header.width
  {
    seq(l.header.width, x requires 0 <= x < l.header.width => Real(l.rows[r + l.header.offsetY][x + l.header.offsetX]))
  }

  /** The first n rows of the liquid box, one after the other. */
  function Crop(l: LiquidData, n: nat): seq<Value>
    requires l.Valid() && n <= l.header.height
  {
    if n == 0 then [] else Crop(l, n - 1) + Row(l, n - 1)
  }

  function Entries(l: LiquidData): seq<Value> { if l.header.noType then [] else Ints(l.entry) }

  function Kinds(l: LiquidData): seq<Value> { if l.header.noType then [] else Ints(l.flags) }

  function Levels(l: LiquidData): seq<Value>
    requires l.Valid()
  {
    if l.header.noHeight then [] else Crop(l, l.header.height)
  }

  function LiquidHead(h: L.Header): File {
    Bytes(4, [LIQUID_MAGIC]) + Bytes(1, [Int((if h.noType then 1 else 0) + if h.noHeight then 2 else 0), Int(h.flags)])
    + Bytes(2, [Int(h.entry)]) + Bytes(1, [Int(h.offsetX), Int(h.offsetY), Int(h.width), Int(h.height)])
    + Bytes(4, [Real(h.level)])
  }

  function LiquidBytes(l: LiquidData): File
    requires l.Valid()
  {
    LiquidHead(l.header) + Bytes(2, Entries(l)) + Bytes(1, Kinds(l)) + Bytes(4, Levels(l))
  }

  /** The whole file, section by section. */
  function Image(d: Grid): File
    requires d.Valid()
  {
    Bytes(4, HeaderValues(Announced(d))) + AreaBytes(d.area, Mixed(d.area)) + HeightBytes(d.height)
    + (if d.liquid.Some? then LiquidBytes(d.liquid.value) else []) + Bytes(2, Ints(d.holes))
  }

  // ---- Writing -------------------------------------------------------------------------------------------

  method HasFullArea(area: seq<int>) returns (full: bool)
    requires |area| == AREAS
    ensures full <==> Mixed(area)
  {
    full := false;
    for y := 0 to CELLS
      invariant full <==> exists k :: 0 <= k < CELLS * y && area[k] != area[0]
    {
      for x := 0 to CELLS
        invariant full <==> exists k :: 0 <= k < CELLS * y + x && area[k] != area[0]
      {
        if area[CELLS * y + x] != area[0] { full := true; }
      }
    }
  }

  lemma AppendTwice(a: File, b: File, c: File)
    ensures a + b + c == a + (b + c)
  {
  }

  /** Appends the rows of the liquid box. */
  method WriteRows(file0: File, l: LiquidData) returns (file: File)
    requires l.Valid()
    ensures file == file0 + Bytes(4, Crop(l, l.header.height))
  {
    file := file0;
    assert file == file0 + Bytes(4, Crop(l, 0));
    hide Bytes, Row;
    for y := 0 to l.header.height
      invariant file == file0 + Bytes(4, Crop(l, y))
    {
      BytesJoin(4, Crop(l, y), Row(l, y));
      AppendTwice(file0, Bytes(4, Crop(l, y)), Bytes(4, Row(l, y)));
      file := file + Bytes(4, Row(l, y));
    }
  }

  /** Works out where the sections will stand, as they are decided upon one after the other. */
  method LayOut(d: Grid, full: bool) returns (layout: Layout)
    requires d.Valid() && full == Mixed(d.area)
    ensures layout == Announced(d)
  {
    hide Mixed, HeightWidth;
    var areaOffset, areaSize := 40, 8;
    if full { areaSize := areaSize + 2 * AREAS; }
    var heightOffset, heightSize := areaOffset + areaSize, 16;
    if d.height.format != H.NoHeight {
      heightSize := heightSize + HeightWidth(d.height.format) * V9_SIZE + HeightWidth(d.height.format) * V8_SIZE;
    }
    var liquidOffset, liquidSize := 0, 0;
    if d.liquid.Some? {
      liquidOffset, liquidSize := heightOffset + heightSize, 16;
      var h := d.liquid.value.header;
      if !h.noType { liquidSize := liquidSize + 2 * AREAS + AREAS; }
      if !h.noHeight { liquidSize := liquidSize + 4 * (h.height * h.width); }
    }
    var holesOffset := if liquidOffset != 0 then liquidOffset + liquidSize else heightOffset + heightSize;
    layout := Layout(areaOffset, areaSize, heightOffset, heightSize, liquidOffset, liquidSize, holesOffset, 2 * AREAS);
  }

  /** Announces the sections and writes them. */
  method WriteMap(d: Grid) returns (file: File)
    requires d.Valid()
    ensures file == Image(d)
  {
    hide Bytes, AreaBytes, HeightBytes, LiquidBytes, HeaderValues, Mixed;
    var full := HasFullArea(d.area);
    var layout := LayOut(d, full);
    file := Bytes(4, HeaderValues(layout)) + AreaBytes(d.area, full) + HeightBytes(d.height);
    if layout.liquidOffset != 0 { file := WriteLiquid(file, d.liquid.value); }
    file := file + Bytes(2, Ints(d.holes));
  }

  method WriteLiquid(file0: File, l: LiquidData) returns (file: File)
    requires l.Valid()
    ensures file == file0 + LiquidBytes(l)
  {
    hide LiquidHead, Crop, Ints;
    file := file0 + LiquidHead(l.header);
    var types := if l.header.noType then [] else Bytes(2, Ints(l.entry)) + Bytes(1, Ints(l.flags));
    file := file + types;
    assert types == Bytes(2, Entries(l)) + Bytes(1, Kinds(l));
    if !l.header.noHeight { file := WriteRows(file, l); }
  }

  // ---- Sections ------------------------------------------------------------------------------------------

  lemma {:induction false} CropLength(l: LiquidData, n: nat)
    requires l.Valid() && n <= l.header.height
    ensures |Crop(l, n)| == n * l.header.width
  {
    if n > 0 {
      CropLength(l, n - 1);
      assert n * l.header.width == (n - 1) * l.header.width + l.header.width;
    }
  }

  /** Every section is as long as announced. */
  lemma SectionSizes(d: Grid)
    requires d.Valid()
    ensures var a := Announced(d);
            && |Bytes(4, HeaderValues(a))| == 40 && |AreaBytes(d.area, Mixed(d.area))| == a.areaSize
            && |HeightBytes(d.height)| == a.heightSize && |Bytes(2, Ints(d.holes))| == a.holesSize
            && (d.liquid.Some? ==> |LiquidBytes(d.liquid.value)| == a.liquidSize)
  {
    var a := Announced(d);
    BytesLength(4, HeaderValues(a));
    BytesLength(4, [AREA_MAGIC]);
    BytesLength(2, AreaHeader(d.area, Mixed(d.area)));
    BytesLength(2, AreaArray(d.area, Mixed(d.area)));
    BytesLength(2, Ints(d.holes));
    HeightSectionSize(d.height);
    if d.liquid.Some? { LiquidSectionSize(d.liquid.value); }
  }

  lemma HeightSectionSize(h: HeightData)
    requires |h.v9| == V9_SIZE && |h.v8| == V8_SIZE
    ensures |HeightBytes(h)| == 16 + if h.format == H.NoHeight then 0
            else HeightWidth(h.format) * V9_SIZE + HeightWidth(h.format) * V8_SIZE
  {
    BytesLength(4, [HEIGHT_MAGIC, Int(HeightFlags(h.format)), Real(h.lo), Real(h.hi)]);
    BytesLength(HeightWidth(h.format), h.v9);
    BytesLength(HeightWidth(h.format), h.v8);
  }

  lemma LiquidHeadSize(h: L.Header)
    ensures |LiquidHead(h)| == 16
  {
    BytesLength(4, [LIQUID_MAGIC]);
    BytesLength(1, [Int((if h.noType then 1 else 0) + if h.noHeight then 2 else 0), Int(h.flags)]);
    BytesLength(2, [Int(h.entry)]);
    BytesLength(1, [Int(h.offsetX), Int(h.offsetY), Int(h.width), Int(h.height)]);
    BytesLength(4, [Real(h.level)]);
  }

  lemma LiquidSectionSize(l: LiquidData)
    requires l.Valid()
    ensures |LiquidBytes(l)| == LiquidSize(l)
  {
    LiquidHeadSize(l.header);
    BytesLength(2, Ints(l.entry));
    BytesLength(1, Ints(l.flags));
    BytesLength(4, Crop(l, l.header.height));
    CropLength(l, l.header.height);
  }

  /** Sections stand where the header says they do, one right after the other, up to the end of the file. */
  lemma SectionsTile(d: Grid)
    requires d.Valid()
    ensures var a, f := Announced(d), Image(d);
            && At(f, 0, Bytes(4, HeaderValues(a))) && a.areaOffset == 40
            && At(f, a.areaOffset, AreaBytes(d.area, Mixed(d.area))) && a.heightOffset == a.areaOffset + a.areaSize
            && At(f, a.heightOffset, HeightBytes(d.height))
            && (d.liquid == None ==> a.liquidOffset == 0 && a.holesOffset == a.heightOffset + a.heightSize)
            && (d.liquid.Some? ==> && a.liquidOffset == a.heightOffset + a.heightSize
                                   && At(f, a.liquidOffset, LiquidBytes(d.liquid.value))
                                   && a.holesOffset == a.liquidOffset + a.liquidSize)
            && At(f, a.holesOffset, Bytes(2, Ints(d.holes))) && |f| == a.holesOffset + a.holesSize
  {
    hide LiquidBytes, HeightBytes, AreaBytes, Bytes;
    SectionSizes(d);
    var a, f := Announced(d), Image(d);
    var s1, s2, s3 := Bytes(4, HeaderValues(a)), AreaBytes(d.area, Mixed(d.area)), HeightBytes(d.height);
    var s4, s5 := if d.liquid.Some? then LiquidBytes(d.liquid.value) else [], Bytes(2, Ints(d.holes));
    assert f == s1 + s2 + s3 + s4 + s5;
    assert At(f, 0, s1 + s2 + s3 + s4 + s5);
    AtSplit(f, 0, s1 + s2 + s3 + s4, s5);
    AtSplit(f, 0, s1 + s2 + s3, s4);
    AtSplit(f, 0, s1 + s2, s3);
    AtSplit(f, 0, s1, s2);
  }

  // ---- Reading -------------------------------------------------------------------------------------------

  datatype Areas = Areas(gridArea: Value, areaMap: seq<Value>)

  datatype Heights = Heights(lo: Value, hi: Value, format: H.Format, v9: seq<Value>, v8: seq<Value>)

  datatype Liquid = Liquid(flags: Value, entry: Value, offsetX: int, offsetY: int, width: int, height: int,
                           level: Value, entries: seq<Value>, kinds: seq<Value>, levels: seq<Value>)

  datatype Loaded = Loaded(areas: Areas, holes: seq<Value>, heights: Heights, liquid: Option<Liquid>)

  function LoadArea(f: File, offset: nat): Option<Areas> {
    var magic, header := Read(f, offset, 4, 1), Read(f, offset + 4, 2, 2);
    if magic != Some([AREA_MAGIC]) || header == None || |header.value| != 2 || !header.value[0].Int? then None
    else if Bit(header.value[0].n, 1) then Some(Areas(header.value[1], []))
    else
      var areaMap := Read(f, offset + 8, 2, AREAS);
      if areaMap == None then None else Some(Areas(header.value[1], areaMap.value))
  }

  function FormatOf(flags: int): H.Format {
    if Bit(flags, 1) then H.NoHeight
    else if Bit(flags, 2) then H.AsInt16
    else if Bit(flags, 4) then H.AsInt8
    else H.AsFloat
  }

  function LoadHeight(f: File, offset: nat): Option<Heights> {
    var header := Read(f, offset, 4, 4);
    if header == None || |header.value| != 4 || header.value[0] != HEIGHT_MAGIC || !header.value[1].Int? then None
    else
      var format := FormatOf(header.value[1].n);
      if format == H.NoHeight then Some(Heights(header.value[2], header.value[3], format, [], []))
      else
        var w := HeightWidth(format);
        var v9, v8 := Read(f, offset + 16, w, V9_SIZE), Read(f, offset + 16 + w * V9_SIZE, w, V8_SIZE);
        if v9 == None || v8 == None then None
        else Some(Heights(header.value[2], header.value[3], format, v9.value, v8.value))
  }

  predicate AllInts(vs: seq<Value>) { forall k :: 0 <= k < |vs| ==> vs[k].Int? }

  function LoadLiquid(f: File, offset: nat): Option<Liquid> {
    var magic, flags := Read(f, offset, 4, 1), Read(f, offset + 4, 1, 2);
    var entry, box, level := Read(f, offset + 6, 2, 1), Read(f, offset + 8, 1, 4), Read(f, offset + 12, 4, 1);
    if magic != Some([LIQUID_MAGIC]) || flags == None || entry == None || box == None || level == None then None
    else if |flags.value| != 2 || |entry.value| != 1 || |box.value| != 4 || |level.value| != 1 then None
    else if !flags.value[0].Int? || !AllInts(box.value) || box.value[2].n < 0 || box.value[3].n < 0 then None
    else
      var noType, noHeight := Bit(flags.value[0].n, 1), Bit(flags.value[0].n, 2);
      var entries := if noType then Some([]) else Read(f, offset + 16, 2, AREAS);
      var kinds := if noType then Some([]) else Read(f, offset + 16 + 2 * AREAS, 1, AREAS);
      var start := offset + 16 + if noType then 0 else 2 * AREAS + AREAS;
      var levels := if noHeight then Some([]) else Read(f, start, 4, box.value[2].n * box.value[3].n);
      if entries == None || kinds == None || levels == None then None
      else Some(Liquid(flags.value[1], entry.value[0], box.value[0].n, box.value[1].n, box.value[2].n, box.value[3].n,
                       level.value[0], entries.value, kinds.value, levels.value))
  }

  /** Loads a map file: nothing if it, or one of its sections, is not what it should be. */
  function Load(f: File): Option<Loaded> {
    var header := Read(f, 0, 4, 10);
    if header == None || |header.value| != 10 || !AllInts(header.value) then None
    else
      var h := header.value;
      if h[0] != MAP_MAGIC || h[1] != VERSION_MAGIC || h[2].n < 0 || h[4].n < 0 || h[6].n < 0 || h[8].n < 0 then None
      else
        var areas, holes, heights := LoadArea(f, h[2].n), Read(f, h[8].n, 2, AREAS), LoadHeight(f, h[4].n);
        var liquid := if h[6].n == 0 then None else LoadLiquid(f, h[6].n);
        if areas == None || holes == None || heights == None || (h[6].n != 0 && liquid == None) then None
        else Some(Loaded(areas.value, holes.value, heights.value, liquid))
  }

  // ---- What has been written is read ---------------------------------------------------------------------

  function ExpectedAreas(area: seq<int>, full: bool): Areas
    requires |area| == AREAS
  {
    if full then Areas(Int(0), Ints(area)) else Areas(Int(area[0]), [])
  }

  lemma PartsAt(f: File, offset: nat, a: File, b: File, c: File)
    requires At(f, offset, a + b + c)
    ensures At(f, offset, a) && At(f, offset + |a|, b) && At(f, offset + |a| + |b|, c)
  {
    AtSplit(f, offset, a + b, c);
    AtSplit(f, offset, a, b);
  }

  /** Where the header and the array of the area section stand. */
  lemma AreaPartsAt(f: File, offset: nat, area: seq<int>, full: bool)
    requires |area| == AREAS && At(f, offset, AreaBytes(area, full))
    ensures At(f, offset, Bytes(4, [AREA_MAGIC])) && At(f, offset + 4, Bytes(2, AreaHeader(area, full)))
    ensures At(f, offset + 8, Bytes(2, AreaArray(area, full)))
  {
    BytesLength(4, [AREA_MAGIC]);
    BytesLength(2, AreaHeader(area, full));
    PartsAt(f, offset, Bytes(4, [AREA_MAGIC]), Bytes(2, AreaHeader(area, full)), Bytes(2, AreaArray(area, full)));
  }

  lemma AreaIsRead(f: File, offset: nat, area: seq<int>, full: bool)
    requires |area| == AREAS && At(f, offset, AreaBytes(area, full))
    ensures LoadArea(f, offset) == Some(ExpectedAreas(area, full))
  {
    hide Bytes, Read, At, AreaBytes;
    AreaPartsAt(f, offset, area, full);
    ReadWritten(f, offset, 4, [AREA_MAGIC]);
    ReadWritten(f, offset + 4, 2, AreaHeader(area, full));
    ReadWritten(f, offset + 8, 2, AreaArray(area, full));
  }

  function ExpectedHeights(h: HeightData): Heights {
    Heights(Real(h.lo), Real(h.hi), h.format, Stored9(h), Stored8(h))
  }

  /** Where the header and the arrays of the height section stand. */
  lemma HeightPartsAt(f: File, offset: nat, h: HeightData)
    requires At(f, offset, HeightBytes(h))
    ensures At(f, offset, Bytes(4, HeightHeader(h))) && At(f, offset + 16, Bytes(HeightWidth(h.format), Stored9(h)))
    ensures At(f, offset + 16 + |Bytes(HeightWidth(h.format), Stored9(h))|, Bytes(HeightWidth(h.format), Stored8(h)))
  {
    BytesLength(4, HeightHeader(h));
    PartsAt(f, offset, Bytes(4, HeightHeader(h)), Bytes(HeightWidth(h.format), Stored9(h)),
            Bytes(HeightWidth(h.format), Stored8(h)));
  }

  lemma HeightIsRead(f: File, offset: nat, h: HeightData)
    requires |h.v9| == V9_SIZE && |h.v8| == V8_SIZE && At(f, offset, HeightBytes(h))
    ensures LoadHeight(f, offset) == Some(ExpectedHeights(h))
  {
    hide Bytes, Read, At, HeightBytes;
    var w := HeightWidth(h.format);
    HeightPartsAt(f, offset, h);
    ReadWritten(f, offset, 4, HeightHeader(h));
    ReadWritten(f, offset + 16, w, Stored9(h));
    ReadWritten(f, offset + 16 + |Bytes(w, Stored9(h))|, w, Stored8(h));
    BytesLength(w, Stored9(h));
    assert FormatOf(HeightFlags(h.format)) == h.format;
  }

  function ExpectedLiquid(l: LiquidData): Liquid
    requires l.Valid()
  {
    var h := l.header;
    Liquid(Int(h.flags), Int(h.entry), h.offsetX, h.offsetY, h.width, h.height, Real(h.level), Entries(l), Kinds(l),
           Levels(l))
  }

  lemma LiquidHeadIsRead(f: File, offset: nat, h: L.Header)
    requires At(f, offset, LiquidHead(h))
    ensures Read(f, offset, 4, 1) == Some([LIQUID_MAGIC])
    ensures Read(f, offset + 4, 1, 2) == Some([Int((if h.noType then 1 else 0) + if h.noHeight then 2 else 0),
                                               Int(h.flags)])
    ensures Read(f, offset + 6, 2, 1) == Some([Int(h.entry)])
    ensures Read(f, offset + 8, 1, 4) == Some([Int(h.offsetX), Int(h.offsetY), Int(h.width), Int(h.height)])
    ensures Read(f, offset + 12, 4, 1) == Some([Real(h.level)])
  {
    var magic, flags := [LIQUID_MAGIC], [Int((if h.noType then 1 else 0) + if h.noHeight then 2 else 0), Int(h.flags)];
    var entry, box, level := [Int(h.entry)], [Int(h.offsetX), Int(h.offsetY), Int(h.width), Int(h.height)],
      [Real(h.level)];
    BytesLength(4, magic);
    BytesLength(1, flags);
    BytesLength(2, entry);
    BytesLength(1, box);
    hide Bytes, Read;
    var a, b, c, d, e := Bytes(4, magic), Bytes(1, flags), Bytes(2, entry), Bytes(1, box), Bytes(4, level);
    AtSplit(f, offset, a + b + c + d, e);
    AtSplit(f, offset, a + b + c, d);
    AtSplit(f, offset, a + b, c);
    AtSplit(f, offset, a, b);
    ReadWritten(f, offset, 4, magic);
    ReadWritten(f, offset + 4, 1, flags);
    ReadWritten(f, offset + 6, 2, entry);
    ReadWritten(f, offset + 8, 1, box);
    ReadWritten(f, offset + 12, 4, level);
  }

  /** Where the arrays of the liquid section stand. */
  lemma LiquidArraysAt(f: File, offset: nat, head: File, a: File, b: File, c: File)
    requires At(f, offset, head + a + b + c)
    ensures At(f, offset, head) && At(f, offset + |head|, a) && At(f, offset + |head| + |a|, b)
    ensures At(f, offset + |head| + |a| + |b|, c)
  {
    AtSplit(f, offset, head + a + b, c);
    PartsAt(f, offset, head, a, b);
  }

  lemma LiquidArraysAreRead(f: File, offset: nat, l: LiquidData)
    requires l.Valid() && At(f, offset, LiquidBytes(l))
    ensures At(f, offset, LiquidHead(l.header))
    ensures Read(f, offset + 16, 2, |Entries(l)|) == Some(Entries(l))
    ensures Read(f, offset + 16 + 2 * |Entries(l)|, 1, |Kinds(l)|) == Some(Kinds(l))
    ensures Read(f, offset + 16 + 2 * |Entries(l)| + |Kinds(l)|, 4, |Levels(l)|) == Some(Levels(l))
  {
    LiquidHeadSize(l.header);
    BytesLength(2, Entries(l));
    BytesLength(1, Kinds(l));
    hide Bytes, Read, LiquidHead, At;
    LiquidArraysAt(f, offset, LiquidHead(l.header), Bytes(2, Entries(l)), Bytes(1, Kinds(l)), Bytes(4, Levels(l)));
    ReadWritten(f, offset + 16, 2, Entries(l));
    ReadWritten(f, offset + 16 + 2 * |Entries(l)|, 1, Kinds(l));
    ReadWritten(f, offset + 16 + 2 * |Entries(l)| + |Kinds(l)|, 4, Levels(l));
  }

  lemma LiquidIsRead(f: File, offset: nat, l: LiquidData)
    requires l.Valid() && At(f, offset, LiquidBytes(l))
    ensures LoadLiquid(f, offset) == Some(ExpectedLiquid(l))
  {
    hide Bytes, Read, LiquidHead, At, Crop, LiquidBytes, Bit;
    LiquidArraysAreRead(f, offset, l);
    LiquidHeadIsRead(f, offset, l.header);
    CropLength(l, l.header.height);
    assert l.header.width * l.header.height == l.header.height * l.header.width;
    LiquidFlagsBits(l.header.noType, l.header.noHeight);
  }

  lemma LiquidFlagsBits(noType: bool, noHeight: bool)
    ensures var n := (if noType then 1 else 0) + if noHeight then 2 else 0;
            (Bit(n, 1) <==> noType) && (Bit(n, 2) <==> noHeight)
  {
  }

  function Expected(d: Grid): Loaded
    requires d.Valid()
  {
    Loaded(ExpectedAreas(d.area, Mixed(d.area)), Ints(d.holes), ExpectedHeights(d.height),
           if d.liquid == None then None else Some(ExpectedLiquid(d.liquid.value)))
  }

  /** The server reads from the file what the extractor wrote into it, whatever the packing. */
  lemma RoundTrip(d: Grid)
    requires d.Valid()
    ensures Load(Image(d)) == Some(Expected(d))
  {
    hide Image, LiquidBytes, HeightBytes, AreaBytes, Bytes, Read, LoadArea, LoadHeight, LoadLiquid, At;
    var f, a := Image(d), Announced(d);
    SectionsTile(d);
    ReadWritten(f, 0, 4, HeaderValues(a));
    ReadWritten(f, a.holesOffset, 2, Ints(d.holes));
    AreaIsRead(f, a.areaOffset, d.area, Mixed(d.area));
    HeightIsRead(f, a.heightOffset, d.height);
    if d.liquid.Some? { LiquidIsRead(f, a.liquidOffset, d.liquid.value); }
  }

  // ---- What the server finds -----------------------------------------------------------------------------

  /** The area of a chunk. */
  function AreaAt(m: Loaded, k: nat): Value {
    if k < |m.areas.areaMap| then m.areas.areaMap[k] else m.areas.gridArea
  }

  /** The kind of liquid of a chunk: its flags and its entry. */
  function TypeAt(m: Liquid, k: nat): (Value, Value) {
    (if k < |m.kinds| then m.kinds[k] else m.flags, if k < |m.entries| then m.entries[k] else m.entry)
  }

  /** The level of the liquid over a sub cell, if it lies in the box. */
  function LevelAt(m: Liquid, y: int, x: int): Option<Value> {
    var r, c := y - m.offsetY, x - m.offsetX;
    if !(0 <= r < m.height && 0 <= c < m.width) then None
    else if m.levels == [] then Some(m.level)
    else if 0 <= r * m.width + c < |m.levels| then Some(m.levels[r * m.width + c]) else None
  }

  /** There is liquid over exactly the sub cells of the box. */
  lemma OnlyTheBoxHasLevels(l: LiquidData, y: nat, x: nat)
    requires l.Valid()
    ensures LevelAt(ExpectedLiquid(l), y, x).Some? <==>
            l.header.offsetY <= y < l.header.offsetY + l.header.height &&
            l.header.offsetX <= x < l.header.offsetX + l.header.width
  {
    if l.header.offsetY <= y < l.header.offsetY + l.header.height &&
       l.header.offsetX <= x < l.header.offsetX + l.header.width
    {
      LevelsAreKept(l, y, x);
    }
  }

  /** Every chunk has its own area, whether areas are stored one by one or once for all. */
  lemma AreasAreKept(d: Grid, k: nat)
    requires d.Valid() && k < AREAS
    ensures AreaAt(Expected(d), k) == Int(d.area[k])
  {
  }

  lemma {:induction false} CropAt(l: LiquidData, n: nat, r: nat, c: nat)
    requires l.Valid() && r < n <= l.header.height && c < l.header.width
    ensures |Crop(l, n)| == n * l.header.width && 0 <= r * l.header.width + c < n * l.header.width
    ensures Crop(l, n)[r * l.header.width + c] == Row(l, r)[c]
  {
    var w := l.header.width;
    CropLength(l, n);
    CropLength(l, n - 1);
    RowFits(r, c, n, w);
    if r < n - 1 {
      CropAt(l, n - 1, r, c);
    } else {
      assert Crop(l, n) == Crop(l, n - 1) + Row(l, n - 1);
      assert |Crop(l, n - 1)| == r * w;
    }
  }

  lemma RowFits(r: nat, c: nat, n: nat, w: nat)
    requires r < n && c < w
    ensures r * w + c < n * w
  {
    assert (n - r - 1) * w >= 0;
    assert n * w == (r + 1 + (n - r - 1)) * w == r * w + w + (n - r - 1) * w;
  }

  /** Over every sub cell of the box the server finds the height of its first corner, or the common level. */
  lemma LevelsAreKept(l: LiquidData, y: nat, x: nat)
    requires l.Valid()
    requires l.header.offsetY <= y < l.header.offsetY + l.header.height &&
             l.header.offsetX <= x < l.header.offsetX + l.header.width
    ensures LevelAt(ExpectedLiquid(l), y, x) == Some(Real(if l.header.noHeight then l.header.level else l.rows[y][x]))
  {
    var r, c := y - l.header.offsetY, x - l.header.offsetX;
    if !l.header.noHeight { CropAt(l, l.header.height, r, c); }
  }

  /** The extractor's liquid, once merged and packed. */
  ghost predicate Packed(cells: seq<seq<L.Chunk>>, l: LiquidData, c: L.Config)
    requires L.ValidChunks(cells) && l.Valid()
  {
    && L.HeaderFits(l.header, cells) && L.TypeFits(l.header, cells)
    && TypesListed(cells, l.entry, l.flags)
    && (forall y, x :: 0 <= y < GRID && 0 <= x < GRID && L.Wet(cells, y, x) ==>
          L.TopAt(cells, y, x) == Some(l.rows[y][x]) && L.LevelFits(l.header, l.rows[y][x], c))
  }

  /** What the server finds over a sub cell: the top, or a common level that is as close below as configured. */
  ghost predicate Finds(m: Liquid, y: nat, x: nat, top: real, c: L.Config) {
    var found := LevelAt(m, y, x);
    && found.Some? && found.value.Real? && found.value.r <= top
    && (found.value.r == top || (m.levels == [] && c.toInt && top - found.value.r < c.flatDelta))
  }

  /** Over every sub cell of the box, the server finds the height of its first corner or a level close to it. */
  lemma HeightIsFound(l: LiquidData, c: L.Config, y: nat, x: nat)
    requires l.Valid()
    requires l.header.offsetY <= y < l.header.offsetY + l.header.height &&
             l.header.offsetX <= x < l.header.offsetX + l.header.width
    requires L.LevelFits(l.header, l.rows[y][x], c)
    ensures Finds(ExpectedLiquid(l), y, x, l.rows[y][x], c)
  {
    LevelsAreKept(l, y, x);
  }

  /** From the layers of the source to the level that the server finds over every flooded sub cell. */
  ghost predicate SurfacesSurvive(cells: seq<seq<L.Chunk>>, m: Liquid, c: L.Config)
    requires L.ValidChunks(cells)
  {
    forall y, x :: 0 <= y < GRID && 0 <= x < GRID && L.Wet(cells, y, x) ==>
      L.TopAt(cells, y, x).Some? && Finds(m, y, x, L.TopAt(cells, y, x).value, c)
  }

  /** No row or column of vertices has a level that does not lie among the shown ones of the source. */
  ghost predicate NoneElsewhere(cells: seq<seq<L.Chunk>>, m: Liquid)
    requires L.ValidChunks(cells)
  {
    forall y: nat, x: nat :: LevelAt(m, y, x).Some? ==>
      && (exists u: nat, v: nat :: L.WetRow(cells, u) && L.WetRow(cells, v) && u <= y <= v + 1)
      && (exists u: nat, v: nat :: L.WetColumn(cells, u) && L.WetColumn(cells, v) && u <= x <= v + 1)
  }

  /** Every chunk has its own kind of liquid, whether kinds are stored one by one or once for all. */
  ghost predicate TypesSurvive(cells: seq<seq<L.Chunk>>, m: Liquid)
    requires L.ValidChunks(cells)
  {
    forall i, j :: 0 <= i < CELLS && 0 <= j < CELLS ==>
      TypeAt(m, CELLS * i + j) == (Int(L.TypeFlags(L.Stack(cells, i, j))), Int(L.TypeEntry(L.Stack(cells, i, j))))
  }

  lemma PackedSurvives(cells: seq<seq<L.Chunk>>, l: LiquidData, c: L.Config)
    requires L.ValidChunks(cells) && l.Valid() && Packed(cells, l, c)
    ensures SurfacesSurvive(cells, ExpectedLiquid(l), c) && TypesSurvive(cells, ExpectedLiquid(l))
    ensures NoneElsewhere(cells, ExpectedLiquid(l))
  {
    LevelsSurvive(cells, l, c);
    KindsSurvive(cells, l);
    NothingElsewhere(cells, l);
  }

  lemma LevelsSurvive(cells: seq<seq<L.Chunk>>, l: LiquidData, c: L.Config)
    requires L.ValidChunks(cells) && l.Valid() && Packed(cells, l, c)
    ensures SurfacesSurvive(cells, ExpectedLiquid(l), c)
  {
    hide L.Wet, L.TopAt;
    forall y, x | 0 <= y < GRID && 0 <= x < GRID && L.Wet(cells, y, x)
      ensures L.TopAt(cells, y, x).Some? && Finds(ExpectedLiquid(l), y, x, L.TopAt(cells, y, x).value, c)
    {
      HeightIsFound(l, c, y, x);
    }
  }

  lemma KindsSurvive(cells: seq<seq<L.Chunk>>, l: LiquidData)
    requires L.ValidChunks(cells) && l.Valid() && L.TypeFits(l.header, cells) && TypesListed(cells, l.entry, l.flags)
    ensures TypesSurvive(cells, ExpectedLiquid(l))
  {
    hide L.TypeFlags, L.TypeEntry, L.Stack;
    forall i, j | 0 <= i < CELLS && 0 <= j < CELLS
      ensures TypeAt(ExpectedLiquid(l), CELLS * i + j)
              == (Int(L.TypeFlags(L.Stack(cells, i, j))), Int(L.TypeEntry(L.Stack(cells, i, j))))
    {
      assert (CELLS * i + j) / CELLS == i && (CELLS * i + j) % CELLS == j;
    }
  }

  lemma NothingElsewhere(cells: seq<seq<L.Chunk>>, l: LiquidData)
    requires L.ValidChunks(cells) && l.Valid() && L.HeaderFits(l.header, cells)
    ensures NoneElsewhere(cells, ExpectedLiquid(l))
  {
    hide L.Wet, L.WetRow, L.WetColumn, LevelAt;
    var h := l.header;
    assert L.WetRow(cells, h.offsetY) && L.WetRow(cells, h.offsetY + h.height - 2);
    assert L.WetColumn(cells, h.offsetX) && L.WetColumn(cells, h.offsetX + h.width - 2);
    forall y: nat, x: nat | LevelAt(ExpectedLiquid(l), y, x).Some?
      ensures h.offsetY <= y <= h.offsetY + h.height - 2 + 1 && h.offsetX <= x <= h.offsetX + h.width - 2 + 1
    {
      OnlyTheBoxHasLevels(l, y, x);
    }
  }

  // ---- From the source to the server -----------------------------------------------------------------------

  /** The rows of an array as they lie in memory. */
  method Rows(a: array2<real>) returns (rows: seq<seq<real>>)
    ensures |rows| == a.Length0 && forall y :: 0 <= y < a.Length0 ==> |rows[y]| == a.Length1
    ensures forall y, x :: 0 <= y < a.Length0 && 0 <= x < a.Length1 ==> rows[y][x] == a[y, x]
  {
    rows := seq(a.Length0, y requires 0 <= y < a.Length0 reads a =>
              seq(a.Length1, x requires 0 <= x < a.Length1 reads a => a[y, x]));
  }

  /** The types of all chunks, one after the other. */
  method Flat(a: array2<nat>) returns (s: seq<int>)
    requires a.Length0 == a.Length1 == CELLS
    ensures |s| == AREAS && forall k :: 0 <= k < AREAS ==> s[k] == a[k / CELLS, k % CELLS]
  {
    s := seq(AREAS, k requires 0 <= k < AREAS reads a => a[k / CELLS, k % CELLS] as int);
  }

  /** Merges the liquid of a grid, starting from arrays that have been cleared. */
  method MergeLiquid(cells: seq<seq<L.Chunk>>, minHeight: real)
    returns (show: array2<bool>, height: array2<real>, entry: array2<nat>, flags: array2<nat>, entries: seq<int>,
             kinds: seq<int>)
    requires L.ValidChunks(cells)
    ensures fresh(height) && L.Arrays(show, height, entry, flags)
    ensures L.GridDone(cells, CELLS, 0, show, height, entry, flags)
    ensures |entries| == |kinds| == AREAS && TypesListed(cells, entries, kinds)
  {
    show := new bool[GRID, GRID]((_, _) => false);
    entry := new nat[CELLS, CELLS]((_, _) => 0);
    flags := new nat[CELLS, CELLS]((_, _) => 0);
    height := new real[GRID + 1, GRID + 1]((_, _) => minHeight);
    L.MergeGrid(cells, show, height, entry, flags);
    hide L.TypeEntry, L.TypeFlags, L.Stack, L.CellDone;
    entries := Flat(entry);
    kinds := Flat(flags);
  }

  ghost predicate TypesListed(cells: seq<seq<L.Chunk>>, entries: seq<int>, kinds: seq<int>)
    requires L.ValidChunks(cells) && |entries| == |kinds| == AREAS
  {
    forall k :: 0 <= k < AREAS ==>
      entries[k] == L.TypeEntry(L.Stack(cells, k / CELLS, k % CELLS)) &&
        kinds[k] == L.TypeFlags(L.Stack(cells, k / CELLS, k % CELLS))
  }

  /** Merges and packs the liquid of a grid. */
  method ConvertLiquid(cells: seq<seq<L.Chunk>>, c: L.Config) returns (l: Option<LiquidData>)
    requires L.ValidChunks(cells)
    ensures l == None <==> L.AllDry(cells)
    ensures l.Some? ==> l.value.Valid() && Packed(cells, l.value, c)
    ensures l.Some? ==>
              SurfacesSurvive(cells, ExpectedLiquid(l.value), c) && TypesSurvive(cells, ExpectedLiquid(l.value)) &&
              NoneElsewhere(cells, ExpectedLiquid(l.value))
  {
    hide L.TypeEntry, L.TypeFlags, L.Stack, L.Wet, L.TopAt, L.AllDry, L.GridDone, L.TypeFits, TypesListed;
    var show, height, entry, flags, entries, kinds := MergeLiquid(cells, c.minHeight);
    var header := L.PackLiquid(cells, show, height, entry, flags, c);
    if header == None { return None; }
    var rows := Rows(height);
    var data := LiquidData(header.value, entries, kinds, rows);
    assert Packed(cells, data, c);
    PackedSurvives(cells, data, c);
    l := Some(data);
  }

  /** The values stored for a grid of vertices, one row after the other. */
  method Stored(format: H.Format, V: array2<real>, Q: array2<int>) returns (s: seq<Value>)
    requires V.Length0 == V.Length1 == Q.Length0 == Q.Length1
    ensures |s| == V.Length0 * V.Length1
    ensures forall y, x :: 0 <= y < V.Length0 && 0 <= x < V.Length1 ==>
            Holds(s, y * V.Length0 + x, ValueOf(format, V[y, x], Q[y, x]))
  {
    s := [];
    var n := V.Length0;
    for y := 0 to n
      invariant |s| == y * n
      invariant forall v, x :: 0 <= v < y && 0 <= x < n ==> Holds(s, v * n + x, ValueOf(format, V[v, x], Q[v, x]))
    {
      var row := seq(n, x requires 0 <= x < n reads V, Q => ValueOf(format, V[y, x], Q[y, x]));
      ghost var s0 := s;
      s := s + row;
      forall v, x | 0 <= v < y + 1 && 0 <= x < n
        ensures Holds(s, v * n + x, ValueOf(format, V[v, x], Q[v, x]))
      {
        if v < y {
          assert Holds(s0, v * n + x, ValueOf(format, V[v, x], Q[v, x]));
        } else {
          assert s[|s0| + x] == row[x];
        }
      }
    }
  }

  function ValueOf(format: H.Format, h: real, q: int): Value { if format == H.AsFloat then Real(h) else Int(q) }

  predicate Holds(s: seq<Value>, k: int, v: Value) { 0 <= k < |s| && s[k] == v }

  /** The height of a vertex once heights below the limit have been raised. */
  function Limited(c: H.Config, h: real): (r: real)
    ensures h <= r && (r == h || (c.heightLimit && r == c.minHeight)) && (c.heightLimit ==> c.minHeight <= r)
  {
    if c.heightLimit then H.Max(h, c.minHeight) else h
  }

  /** What is stored for a vertex of the given height. */
  ghost predicate VertexStored(h: HeightData, vs: seq<Value>, k: int, height: real) {
    && h.lo <= height <= h.hi
    && (h.format != H.NoHeight && h.lo < h.hi ==>
          Holds(vs, k, ValueOf(h.format, height, H.Quantum(height, h.lo, h.hi, H.Levels(h.format)))))
  }

  lemma AllStored(h: HeightData, vs: seq<Value>, V: array2<real>, Q: array2<int>)
    requires V.Length0 == V.Length1 == Q.Length0 == Q.Length1 && H.InRange(V, h.lo, h.hi)
    requires h.format in {H.AsInt8, H.AsInt16} ==> h.lo < h.hi && H.Stored(V, Q, h.lo, h.hi, H.Levels(h.format))
    requires forall y, x :: 0 <= y < V.Length0 && 0 <= x < V.Length1 ==>
             Holds(vs, y * V.Length0 + x, ValueOf(h.format, V[y, x], Q[y, x]))
    ensures forall y, x :: 0 <= y < V.Length0 && 0 <= x < V.Length1 ==>
            VertexStored(h, vs, y * V.Length0 + x, V[y, x])
  {
    hide H.Quantum;
    forall y, x | 0 <= y < V.Length0 && 0 <= x < V.Length1
      ensures VertexStored(h, vs, y * V.Length0 + x, V[y, x])
    {
      assert Holds(vs, y * V.Length0 + x, ValueOf(h.format, V[y, x], Q[y, x]));
    }
  }

  /** Unpacks and packs the heights of a grid. */
  method ConvertHeights(cells: seq<seq<H.Chunk>>, c: H.Config) returns (h: HeightData)
    requires H.ValidChunks(cells)
    ensures |h.v9| == V9_SIZE && |h.v8| == V8_SIZE && h.lo <= h.hi && h.format == H.FormatFor(c, h.lo, h.hi)
    ensures forall y, x :: 0 <= y <= GRID && 0 <= x <= GRID ==>
            VertexStored(h, h.v9, y * (GRID + 1) + x, Limited(c, H.At9(cells, y, x)))
    ensures forall y, x :: 0 <= y < GRID && 0 <= x < GRID ==>
            VertexStored(h, h.v8, y * GRID + x, Limited(c, H.At8(cells, y, x)))
  {
    hide H.At9, H.At8, H.FormatFor, H.Stored, Limited, VertexStored;
    var V9 := new real[GRID + 1, GRID + 1];
    var V8 := new real[GRID, GRID];
    var Q9 := new int[GRID + 1, GRID + 1];
    var Q8 := new int[GRID, GRID];
    H.FillGrid(V9, V8, cells);
    var lo, hi, format := H.PackHeights(V9, V8, Q9, Q8, c);
    h := ListHeights(V9, V8, Q9, Q8, lo, hi, format);
    forall y, x | 0 <= y <= GRID && 0 <= x <= GRID
      ensures VertexStored(h, h.v9, y * (GRID + 1) + x, Limited(c, H.At9(cells, y, x)))
    {
      assert V9[y, x] == Limited(c, H.At9(cells, y, x));
    }
    forall y, x | 0 <= y < GRID && 0 <= x < GRID
      ensures VertexStored(h, h.v8, y * GRID + x, Limited(c, H.At8(cells, y, x)))
    {
      assert V8[y, x] == Limited(c, H.At8(cells, y, x));
    }
  }

  /** The packed heights, one row after the other. */
  method ListHeights(V9: array2<real>, V8: array2<real>, Q9: array2<int>, Q8: array2<int>, lo: real, hi: real,
                     format: H.Format) returns (h: HeightData)
    requires V9.Length0 == V9.Length1 == Q9.Length0 == Q9.Length1 == GRID + 1
    requires V8.Length0 == V8.Length1 == Q8.Length0 == Q8.Length1 == GRID
    requires H.InRange(V9, lo, hi) && H.InRange(V8, lo, hi)
    requires format in {H.AsInt8, H.AsInt16} ==>
               lo < hi && H.Stored(V9, Q9, lo, hi, H.Levels(format)) && H.Stored(V8, Q8, lo, hi, H.Levels(format))
    ensures |h.v9| == V9_SIZE && |h.v8| == V8_SIZE && h.lo == lo && h.hi == hi && h.format == format
    ensures forall y, x :: 0 <= y <= GRID && 0 <= x <= GRID ==>
            VertexStored(h, h.v9, y * (GRID + 1) + x, V9[y, x])
    ensures forall y, x :: 0 <= y < GRID && 0 <= x < GRID ==> VertexStored(h, h.v8, y * GRID + x, V8[y, x])
  {
    hide VertexStored, Holds, ValueOf, H.InRange, H.Stored;
    var v9 := Stored(format, V9, Q9);
    var v8 := Stored(format, V8, Q8);
    h := HeightData(lo, hi, format, v9, v8);
    AllStored(h, v9, V9, Q9);
    AllStored(h, v8, V8, Q8);
  }

  /** The height the server reads for a vertex. */
  function VertexAt(m: Heights, vs: seq<Value>, k: nat): real
    requires m.lo.Real? && m.hi.Real?
  {
    match m.format
    case NoHeight => m.lo.r
    case AsFloat => if k < |vs| && vs[k].Real? then vs[k].r else m.lo.r
    case _ => if k < |vs| && vs[k].Int? then H.Decoded(vs[k].n as real, m.lo.r, m.hi.r, H.Levels(m.format)) else m.lo.r
  }

  /**
    From the chunks of the source to the height that the server finds at a vertex: no further
    apart than the chosen format allows.
   */
  lemma VertexSurvives(c: H.Config, h: HeightData, k: nat, height: real)
    requires h.lo <= h.hi && h.format == H.FormatFor(c, h.lo, h.hi)
    ensures VertexStored(h, h.v9, k, height) ==>
              H.Near(VertexAt(ExpectedHeights(h), Stored9(h), k), height, H.Tolerance(h.format, h.lo, h.hi))
    ensures VertexStored(h, h.v8, k, height) ==>
              H.Near(VertexAt(ExpectedHeights(h), Stored8(h), k), height, H.Tolerance(h.format, h.lo, h.hi))
  {
    if h.lo <= height <= h.hi { H.ReadingIsNear(c, h.lo, h.hi, height); }
  }

  // ---- The whole conversion --------------------------------------------------------------------------------

  /** A stored number, to calculate with. */
  function NumberAt(vs: seq<Value>, k: nat): real {
    if k >= |vs| then 0.0
    else
      match vs[k]
      case Int(n) => n as real
      case Real(r) => r
  }

  /** The height the server works out for a point (x, y) of square (i, j). */
  function HeightAt(m: Heights, i: nat, j: nat, x: real, y: real): real
    requires m.lo.Real? && m.hi.Real?
  {
    var k := i * (GRID + 1) + j;
    var s := H.Surface(NumberAt(m.v9, k), NumberAt(m.v9, k + GRID + 1), NumberAt(m.v9, k + 1),
                       NumberAt(m.v9, k + GRID + 2), NumberAt(m.v8, i * GRID + j), x, y);
    match m.format
    case NoHeight => m.lo.r
    case AsFloat => s
    case _ => H.Decoded(s, m.lo.r, m.hi.r, H.Levels(m.format))
  }

  /** The height that is stored for a vertex. */
  function StoredAt(m: Heights, vs: seq<Value>, k: nat): real
    requires m.lo.Real? && m.hi.Real?
  {
    match m.format
    case NoHeight => m.lo.r
    case AsFloat => NumberAt(vs, k)
    case _ => H.Decoded(NumberAt(vs, k), m.lo.r, m.hi.r, H.Levels(m.format))
  }

  /** At the vertices of a square the server finds what is stored for them, each in its own place. */
  lemma VerticesAreFound(m: Heights, i: nat, j: nat)
    requires m.lo.Real? && m.hi.Real? && i < GRID && j < GRID
    ensures HeightAt(m, i, j, 0.0, 0.0) == StoredAt(m, m.v9, i * (GRID + 1) + j)
    ensures HeightAt(m, i, j, 1.0, 0.0) == StoredAt(m, m.v9, (i + 1) * (GRID + 1) + j)
    ensures HeightAt(m, i, j, 0.0, 1.0) == StoredAt(m, m.v9, i * (GRID + 1) + j + 1)
    ensures HeightAt(m, i, j, 1.0, 1.0) == StoredAt(m, m.v9, (i + 1) * (GRID + 1) + j + 1)
    ensures HeightAt(m, i, j, 0.5, 0.5) == StoredAt(m, m.v8, i * GRID + j)
  {
    hide H.Surface, H.Decoded, NumberAt;
    var k := i * (GRID + 1) + j;
    assert (i + 1) * (GRID + 1) + j == k + GRID + 1;
    H.SurfaceAtVertices(NumberAt(m.v9, k), NumberAt(m.v9, k + GRID + 1), NumberAt(m.v9, k + 1),
                        NumberAt(m.v9, k + GRID + 2), NumberAt(m.v8, i * GRID + j));
  }

  /** The height of that point in the source, once heights below the limit have been raised. */
  function SourceHeight(cells: seq<seq<H.Chunk>>, c: H.Config, i: nat, j: nat, x: real, y: real): real
    requires H.ValidChunks(cells) && i < GRID && j < GRID
  {
    H.Surface(Limited(c, H.At9(cells, i, j)), Limited(c, H.At9(cells, i + 1, j)), Limited(c, H.At9(cells, i, j + 1)),
              Limited(c, H.At9(cells, i + 1, j + 1)), Limited(c, H.At8(cells, i, j)), x, y)
  }

  /** At every point of the grid the server finds the height of the source, within what the format allows. */
  ghost predicate HeightsSurvive(cells: seq<seq<H.Chunk>>, c: H.Config, m: Heights)
    requires H.ValidChunks(cells)
  {
    && m.lo.Real? && m.hi.Real? && m.lo.r <= m.hi.r && m.format == H.FormatFor(c, m.lo.r, m.hi.r)
    && forall i, j, x, y :: 0 <= i < GRID && 0 <= j < GRID && 0.0 <= x <= 1.0 && 0.0 <= y <= 1.0 ==>
         H.Near(HeightAt(m, i, j, x, y), SourceHeight(cells, c, i, j, x, y), H.Tolerance(m.format, m.lo.r, m.hi.r))
  }

  /** At a vertex the height of the source is that of the vertex itself. */
  lemma SourceVertices(cells: seq<seq<H.Chunk>>, c: H.Config, i: nat, j: nat)
    requires H.ValidChunks(cells) && i < GRID && j < GRID
    ensures SourceHeight(cells, c, i, j, 0.0, 0.0) == Limited(c, H.At9(cells, i, j))
    ensures SourceHeight(cells, c, i, j, 1.0, 0.0) == Limited(c, H.At9(cells, i + 1, j))
    ensures SourceHeight(cells, c, i, j, 0.0, 1.0) == Limited(c, H.At9(cells, i, j + 1))
    ensures SourceHeight(cells, c, i, j, 1.0, 1.0) == Limited(c, H.At9(cells, i + 1, j + 1))
    ensures SourceHeight(cells, c, i, j, 0.5, 0.5) == Limited(c, H.At8(cells, i, j))
  {
    hide H.Surface, H.At9, H.At8, Limited;
    H.SurfaceAtVertices(Limited(c, H.At9(cells, i, j)), Limited(c, H.At9(cells, i + 1, j)),
                        Limited(c, H.At9(cells, i, j + 1)), Limited(c, H.At9(cells, i + 1, j + 1)),
                        Limited(c, H.At8(cells, i, j)));
  }

  lemma StoredNumber(h: HeightData, vs: seq<Value>, k: nat, height: real)
    requires VertexStored(h, vs, k, height) && h.format != H.NoHeight && h.lo < h.hi
    ensures NumberAt(vs, k) == if h.format == H.AsFloat then height
                               else H.Quantum(height, h.lo, h.hi, H.Levels(h.format)) as real
  {
  }

  /** One point, from the five vertices around it. */
  lemma PointSurvives(c: H.Config, h: HeightData, k: nat, k5: nat, h1: real, h2: real, h3: real, h4: real, m: real,
                      x: real, y: real)
    requires h.lo <= h.hi && h.format == H.FormatFor(c, h.lo, h.hi) && 0.0 <= x <= 1.0 && 0.0 <= y <= 1.0
    requires VertexStored(h, h.v9, k, h1) && VertexStored(h, h.v9, k + GRID + 1, h2)
    requires VertexStored(h, h.v9, k + 1, h3) && VertexStored(h, h.v9, k + GRID + 2, h4) && VertexStored(h, h.v8, k5, m)
    ensures var s := H.Surface(NumberAt(h.v9, k), NumberAt(h.v9, k + GRID + 1), NumberAt(h.v9, k + 1),
                               NumberAt(h.v9, k + GRID + 2), NumberAt(h.v8, k5), x, y);
            var found := match h.format
                         case NoHeight => h.lo
                         case AsFloat => s
                         case _ => H.Decoded(s, h.lo, h.hi, H.Levels(h.format));
            H.Near(found, H.Surface(h1, h2, h3, h4, m, x, y), H.Tolerance(h.format, h.lo, h.hi))
  {
    hide H.Surface, H.Quantum, H.Decoded;
    if h.format == H.NoHeight {
      H.FlatSurface(h.lo, x, y);
      H.SurfacesAreNear(h.hi - h.lo, h.lo, h.lo, h.lo, h.lo, h.lo, h1, h2, h3, h4, m, x, y);
    } else {
      StoredNumber(h, h.v9, k, h1);
      StoredNumber(h, h.v9, k + GRID + 1, h2);
      StoredNumber(h, h.v9, k + 1, h3);
      StoredNumber(h, h.v9, k + GRID + 2, h4);
      StoredNumber(h, h.v8, k5, m);
      if h.format != H.AsFloat {
        H.SurfaceIsKept(h.lo, h.hi, H.Levels(h.format), h1, h2, h3, h4, m, x, y);
        H.HalfUnit(h.lo, h.hi);
      }
    }
  }

  lemma ConvertedHeightsSurvive(cells: seq<seq<H.Chunk>>, c: H.Config, h: HeightData)
    requires H.ValidChunks(cells) && h.lo <= h.hi && h.format == H.FormatFor(c, h.lo, h.hi)
    requires forall y, x :: 0 <= y <= GRID && 0 <= x <= GRID ==>
             VertexStored(h, h.v9, y * (GRID + 1) + x, Limited(c, H.At9(cells, y, x)))
    requires forall y, x :: 0 <= y < GRID && 0 <= x < GRID ==>
             VertexStored(h, h.v8, y * GRID + x, Limited(c, H.At8(cells, y, x)))
    ensures HeightsSurvive(cells, c, ExpectedHeights(h))
  {
    hide H.Surface, H.Decoded, VertexStored, H.At9, H.At8, H.FormatFor, H.Tolerance;
    forall i, j, x, y | 0 <= i < GRID && 0 <= j < GRID && 0.0 <= x <= 1.0 && 0.0 <= y <= 1.0
      ensures H.Near(HeightAt(ExpectedHeights(h), i, j, x, y), SourceHeight(cells, c, i, j, x, y),
                     H.Tolerance(h.format, h.lo, h.hi))
    {
      var k := i * (GRID + 1) + j;
      assert (i + 1) * (GRID + 1) + j == k + GRID + 1;
      PointSurvives(c, h, k, i * GRID + j, Limited(c, H.At9(cells, i, j)), Limited(c, H.At9(cells, i + 1, j)),
                    Limited(c, H.At9(cells, i, j + 1)), Limited(c, H.At9(cells, i + 1, j + 1)),
                    Limited(c, H.At8(cells, i, j)), x, y);
    }
  }

  /**
    Converts a source file. Whatever the packing options, the server that loads the result finds
    the area, the holes, the height of every point and the topmost liquid of the source again.
   */
  method ConvertADT(area: seq<int>, holes: seq<int>, heights: seq<seq<H.Chunk>>, liquids: seq<seq<L.Chunk>>,
                    c: H.Config)
    returns (file: File)
    requires |area| == |holes| == AREAS && H.ValidChunks(heights) && L.ValidChunks(liquids)
    ensures Load(file).Some?
    ensures var m := Load(file).value;
            && (forall k :: 0 <= k < AREAS ==> AreaAt(m, k) == Int(area[k])) && m.holes == Ints(holes)
            && HeightsSurvive(heights, c, m.heights)
            && (m.liquid == None <==> L.AllDry(liquids))
            && (m.liquid.Some? ==>
                  SurfacesSurvive(liquids, m.liquid.value, LiquidConfig(c)) && TypesSurvive(liquids, m.liquid.value) &&
                  NoneElsewhere(liquids, m.liquid.value))
  {
    hide SurfacesSurvive, TypesSurvive, NoneElsewhere, HeightsSurvive, Load, Image, L.AllDry, Packed, VertexStored,
      AreaAt, H.At9, H.At8;
    var h := ConvertHeights(heights, c);
    ConvertedHeightsSurvive(heights, c, h);
    var l := ConvertLiquid(liquids, LiquidConfig(c));
    var d := Grid(area, h, l, holes);
    file := WriteMap(d);
    RoundTrip(d);
    forall k | 0 <= k < AREAS ensures AreaAt(Expected(d), k) == Int(area[k]) {
      AreasAreKept(d, k);
    }
  }

  /** The packing options, as far as liquid goes. */
  function LiquidConfig(c: H.Config): L.Config { L.Config(c.minHeight, c.toInt, c.flatLiquidDelta) }
}
