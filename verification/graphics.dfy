/** The drawing-scope machine and the primitive emitters of the renderer
    (src/engine/client/graphics.cpp): Begin/End scopes for lines and quads, the
    current four texture-coordinate and colour corners, and the emitters that expand
    quads, freeform quads, lines and text into vertices of the batch. */
module Graphics {
  import opened Base
  import opened Batcher

  /** `m_Drawing`: 0, `DRAWING_LINES` or `DRAWING_QUADS`. */
  datatype Drawing = NotDrawing | DrawingLines | DrawingQuads

  /** Four values, one per quad corner: 0 top-left, 1 top-right, 2 bottom-right,
      3 bottom-left. */
  datatype Corners<T> = Corners(c0: T, c1: T, c2: T, c3: T) {

    function At(k: nat): T
      requires k < 4
    {
      if k == 0 then c0 else if k == 1 then c1 else if k == 2 then c2 else c3
    }

    function With(k: nat, x: T): (r: Corners<T>)
      requires k < 4
      ensures r.At(k) == x
      ensures forall j :: 0 <= j < 4 && j != k ==> r.At(j) == At(j)
    {
      if k == 0 then this.(c0 := x)
      else if k == 1 then this.(c1 := x)
      else if k == 2 then this.(c2 := x)
      else this.(c3 := x)
    }
  }

  const White: Color := Color(1.0, 1.0, 1.0, 1.0)

  /** The renderer's drawing state. `texture` is the bound texture, -1 when
      texturing is off; `quadsAsTriangles` is the configuration switch that selects
      triangle or quad topology. */
  datatype State = State(
    batch: Batch,
    drawing: Drawing,
    rotation: real,
    texCoords: Corners<TexCoord>,
    colors: Corners<Color>,
    texture: int,
    quadsAsTriangles: bool)

  datatype ColorVertex = ColorVertex(index: int, color: Color)
  datatype QuadItem = QuadItem(x: real, y: real, width: real, height: real)
  datatype FreeformItem = FreeformItem(corners: Corners<(real, real)>)
  datatype LineItem = LineItem(x0: real, y0: real, x1: real, y1: real)

  /** The constructor: nothing pending, no scope open, rotation 0. The corner
      tables are not initialised there; the model starts them at zero. */
  function Create(quadsAsTriangles: bool): (s: State)
    ensures s.drawing == NotDrawing && s.rotation == 0.0 && s.batch == Empty()
  {
    var t := TexCoord(0.0, 0.0);
    var c := Color(0.0, 0.0, 0.0, 0.0);
    State(Empty(), NotDrawing, 0.0, Corners(t, t, t, t), Corners(c, c, c, c), -1, quadsAsTriangles)
  }

  function Topology(s: State): Topology {
    if s.quadsAsTriangles then TriangleList else QuadList
  }

  /** Vertices per quad: two triangles or one quad. */
  function PerQuad(s: State): nat {
    if s.quadsAsTriangles then 6 else 4
  }

  /** Everything but the batch is as in `s`. */
  predicate SameScope(r: State, s: State) {
    r == s.(batch := r.batch)
  }

  // ---------------------------------------------------------------- scopes

  function TextureSet(s: State, textureId: int): (r: Result<State>)
    ensures r.Ok? <==> s.drawing == NotDrawing
    ensures r.Ok? ==> r.value == s.(texture := textureId)
  {
    if s.drawing != NotDrawing then Failed("called Graphics()->TextureSet within begin")
    else Ok(s.(texture := textureId))
  }

  function LinesBegin(s: State): (r: Result<State>)
    ensures r.Ok? <==> s.drawing == NotDrawing
    ensures r.Ok? ==> r.value == s.(drawing := DrawingLines, colors := Corners(White, White, White, White))
  {
    if s.drawing != NotDrawing then Failed("called Graphics()->LinesBegin twice")
    else SetColor(s.(drawing := DrawingLines), White)
  }

  function LinesEnd(s: State): (r: Result<State>)
    ensures r.Ok? <==> s.drawing == DrawingLines
    ensures r.Ok? ==> r.value.drawing == NotDrawing && r.value.batch.count == 0
    ensures r.Ok? ==> r.value.batch == Flush(s.batch, Topology(s))
    ensures r.Ok? ==> r.value == s.(drawing := NotDrawing, batch := r.value.batch)
  {
    if s.drawing != DrawingLines then Failed("called Graphics()->LinesEnd without begin")
    else Ok(s.(batch := Flush(s.batch, Topology(s)), drawing := NotDrawing))
  }

  function QuadsBegin(s: State): (r: Result<State>)
    ensures r.Ok? <==> s.drawing == NotDrawing
    ensures r.Ok? ==> r.value.drawing == DrawingQuads && r.value.rotation == 0.0
    ensures r.Ok? ==> r.value.colors == Corners(White, White, White, White)
    ensures r.Ok? ==> r.value.texCoords == Corners(TexCoord(0.0, 0.0), TexCoord(1.0, 0.0), TexCoord(1.0, 1.0), TexCoord(0.0, 1.0))
    ensures r.Ok? ==> r.value.batch == s.batch && r.value.texture == s.texture
    ensures r.Ok? ==> r.value == s.(drawing := DrawingQuads, rotation := 0.0, colors := r.value.colors, texCoords := r.value.texCoords)
  {
    if s.drawing != NotDrawing then Failed("called Graphics()->QuadsBegin twice")
    else
      var q := s.(drawing := DrawingQuads);
      var q := QuadsSetSubset(q, 0.0, 0.0, 1.0, 1.0).value;
      var q := QuadsSetRotation(q, 0.0).value;
      SetColor(q, White)
  }

  function QuadsEnd(s: State): (r: Result<State>)
    ensures r.Ok? <==> s.drawing == DrawingQuads
    ensures r.Ok? ==> r.value.drawing == NotDrawing && r.value.batch.count == 0
    ensures r.Ok? ==> r.value.batch == Flush(s.batch, Topology(s))
    ensures r.Ok? ==> r.value == s.(drawing := NotDrawing, batch := r.value.batch)
  {
    if s.drawing != DrawingQuads then Failed("called Graphics()->QuadsEnd without begin")
    else Ok(s.(batch := Flush(s.batch, Topology(s)), drawing := NotDrawing))
  }

  function QuadsSetRotation(s: State, angle: real): (r: Result<State>)
    ensures r.Ok? <==> s.drawing == DrawingQuads
    ensures r.Ok? ==> r.value == s.(rotation := angle)
  {
    if s.drawing != DrawingQuads then Failed("called Graphics()->QuadsSetRotation without begin")
    else Ok(s.(rotation := angle))
  }

  // ---------------------------------------------------------------- colours

  /** The colour the last entry for corner `k` gives it, or `current` if no entry
      names that corner. */
  function LastColorFor(entries: seq<ColorVertex>, k: int, current: Color): Color {
    if entries == [] then current
    else if entries[|entries| - 1].index == k then entries[|entries| - 1].color
    else LastColorFor(entries[..|entries| - 1], k, current)
  }

  /** Applies the entries front to back, as the engine's loop does. */
  function ApplyColors(colors: Corners<Color>, entries: seq<ColorVertex>): Corners<Color>
    requires forall i :: 0 <= i < |entries| ==> 0 <= entries[i].index < 4
    decreases |entries|
  {
    if entries == [] then colors
    else ApplyColors(colors.With(entries[0].index, entries[0].color), entries[1..])
  }

  /** Applying the entries in order leaves each corner with the colour of the last
      entry that names it, and the other corners untouched. */
  lemma {:induction false} ApplyColorsLastWins(colors: Corners<Color>, entries: seq<ColorVertex>, k: nat)
    requires forall i :: 0 <= i < |entries| ==> 0 <= entries[i].index < 4
    requires k < 4
    ensures ApplyColors(colors, entries).At(k) == LastColorFor(entries, k, colors.At(k))
    decreases |entries|
  {
    if entries != [] {
      var e := entries[0];
      var c' := colors.With(e.index, e.color);
      ApplyColorsLastWins(c', entries[1..], k);
      assert c'.At(k) == if e.index == k then e.color else colors.At(k);
      LastColorForPrepend(e, entries[1..], k, colors.At(k));
      assert [e] + entries[1..] == entries;
    }
  }

  lemma {:induction false} LastColorForPrepend(e: ColorVertex, rest: seq<ColorVertex>, k: int, current: Color)
    ensures LastColorFor([e] + rest, k, current)
         == LastColorFor(rest, k, if e.index == k then e.color else current)
    decreases |rest|
  {
    if rest != [] {
      var all := [e] + rest;
      assert all[..|all| - 1] == [e] + rest[..|rest| - 1];
      LastColorForPrepend(e, rest[..|rest| - 1], k, current);
    } else {
      assert ([e] + rest)[..0] == [];
    }
  }

  function SetColorVertex(s: State, entries: seq<ColorVertex>): (r: Result<State>)
    requires forall i :: 0 <= i < |entries| ==> 0 <= entries[i].index < 4
    ensures r.Ok? <==> s.drawing != NotDrawing
    ensures r.Ok? ==> r.value == s.(colors := r.value.colors)
    ensures r.Ok? ==> forall k :: 0 <= k < 4 ==> r.value.colors.At(k) == LastColorFor(entries, k, s.colors.At(k))
  {
    if s.drawing == NotDrawing then Failed("called Graphics()->SetColorVertex without begin")
    else
      var colors := ApplyColors(s.colors, entries);
      assert forall k :: 0 <= k < 4 ==> colors.At(k) == LastColorFor(entries, k, s.colors.At(k)) by {
        forall k | 0 <= k < 4 {
          ApplyColorsLastWins(s.colors, entries, k);
        }
      }
      Ok(s.(colors := colors))
  }

  /** Four entries, one per corner, all of colour `c`. */
  function AllCorners(c: Color): (entries: seq<ColorVertex>)
    ensures forall i :: 0 <= i < |entries| ==> 0 <= entries[i].index < 4
  {
    [ColorVertex(0, c), ColorVertex(1, c), ColorVertex(2, c), ColorVertex(3, c)]
  }

  /** Whatever colour a corner had, the four entries of `AllCorners` repaint it. */
  lemma AllCornersPaint(c: Color, k: nat, current: Color)
    requires k < 4
    ensures LastColorFor(AllCorners(c), k, current) == c
  {
    var e := AllCorners(c);
    if k < 3 {
      assert e[..3] == [ColorVertex(0, c), ColorVertex(1, c), ColorVertex(2, c)];
      assert LastColorFor(e, k, current) == LastColorFor(e[..3], k, current);
      if k < 2 {
        assert e[..3][..2] == [ColorVertex(0, c), ColorVertex(1, c)];
        if k < 1 {
          assert e[..3][..2][..1] == [ColorVertex(0, c)];
          assert LastColorFor(e[..3][..2], k, current) == LastColorFor(e[..3][..2][..1], k, current);
        }
        assert LastColorFor(e[..3], k, current) == LastColorFor(e[..3][..2], k, current);
      }
    }
  }

  /** `SetColor`: the same colour for all four corners, through `SetColorVertex`. */
  function SetColor(s: State, c: Color): (r: Result<State>)
    ensures r.Ok? <==> s.drawing != NotDrawing
    ensures r.Ok? ==> r.value == s.(colors := Corners(c, c, c, c))
  {
    var r := SetColorVertex(s, AllCorners(c));
    if r.Failed? then r
    else
      var colors := r.value.colors;
      AllCornersPaint(c, 0, s.colors.At(0));
      AllCornersPaint(c, 1, s.colors.At(1));
      AllCornersPaint(c, 2, s.colors.At(2));
      AllCornersPaint(c, 3, s.colors.At(3));
      assert colors.At(0) == c && colors.At(1) == c && colors.At(2) == c && colors.At(3) == c;
      assert colors == Corners(c, c, c, c);
      r
  }

  // ---------------------------------------------------------------- texture subsets

  /** The four texture corners span the axis-aligned rectangle with top-left
      (tlU, tlV) and bottom-right (brU, brV): neighbouring corners share one
      coordinate. */
  predicate IsSubset(t: Corners<TexCoord>, tlU: real, tlV: real, brU: real, brV: real) {
    && t.At(0) == TexCoord(tlU, tlV)
    && t.At(2) == TexCoord(brU, brV)
    && t.At(1).u == t.At(2).u && t.At(1).v == t.At(0).v
    && t.At(3).u == t.At(0).u && t.At(3).v == t.At(2).v
  }

  function QuadsSetSubset(s: State, tlU: real, tlV: real, brU: real, brV: real): (r: Result<State>)
    ensures r.Ok? <==> s.drawing == DrawingQuads
    ensures r.Ok? ==> r.value == s.(texCoords := r.value.texCoords)
    ensures r.Ok? ==> IsSubset(r.value.texCoords, tlU, tlV, brU, brV)
  {
    if s.drawing != DrawingQuads then Failed("called Graphics()->QuadsSetSubset without begin")
    else
      var t := s.texCoords;
      var t := t.(c0 := t.c0.(u := tlU)).(c1 := t.c1.(u := brU));
      var t := t.(c0 := t.c0.(v := tlV)).(c1 := t.c1.(v := tlV));
      var t := t.(c3 := t.c3.(u := tlU)).(c2 := t.c2.(u := brU));
      var t := t.(c3 := t.c3.(v := brV)).(c2 := t.c2.(v := brV));
      Ok(s.(texCoords := t))
  }

  /** Sets the four texture corners independently; the engine does not check the
      scope here. */
  function QuadsSetSubsetFree(s: State, corners: Corners<TexCoord>): (r: State)
    ensures r == s.(texCoords := r.texCoords)
    ensures forall k :: 0 <= k < 4 ==> r.texCoords.At(k) == corners.At(k)
  {
    s.(texCoords := Corners(corners.c0, corners.c1, corners.c2, corners.c3))
  }

  // ---------------------------------------------------------------- emission

  /** The order in which a quad's corners become vertices. */
  function QuadOrder(triangles: bool): (o: seq<nat>)
    ensures forall j :: 0 <= j < |o| ==> o[j] < 4
  {
    if triangles then [0, 1, 2, 0, 2, 3] else [0, 1, 2, 3]
  }

  /** A freeform quad lists its points as top-left, top-right, bottom-left,
      bottom-right, so the order visits 3 before 2. */
  function FreeformOrder(triangles: bool): (o: seq<nat>)
    ensures forall j :: 0 <= j < |o| ==> o[j] < 4
  {
    if triangles then [0, 1, 3, 0, 3, 2] else [0, 1, 3, 2]
  }

  /** Position of corner `k` of a top-left anchored quad. */
  function QuadCorner(q: QuadItem, k: nat): (real, real)
    requires k < 4
  {
    if k == 0 then (q.x, q.y)
    else if k == 1 then (q.x + q.width, q.y)
    else if k == 2 then (q.x + q.width, q.y + q.height)
    else (q.x, q.y + q.height)
  }

  /** The rotation a quad's vertices get: only a nonzero angle turns them, about
      the quad's centre. */
  function Spin(q: QuadItem, rotation: real): Turn {
    if rotation != 0.0 then Turned(q.x + q.width / 2.0, q.y + q.height / 2.0, rotation) else Upright
  }

  /** The vertex for corner `k` of quad `q` under the current state. */
  function CornerVertex(s: State, q: QuadItem, k: nat): Vertex
    requires k < 4
  {
    Vertex(QuadCorner(q, k).0, QuadCorner(q, k).1, s.texCoords.At(k), s.colors.At(k), Spin(q, s.rotation))
  }

  function QuadVertices(s: State, q: QuadItem): (vs: seq<Vertex>)
    ensures |vs| == PerQuad(s) == |QuadOrder(s.quadsAsTriangles)|
    ensures forall j :: 0 <= j < |vs| ==> vs[j] == CornerVertex(s, q, QuadOrder(s.quadsAsTriangles)[j])
  {
    var turn := Spin(q, s.rotation);
    var v0 := Vertex(q.x, q.y, s.texCoords.c0, s.colors.c0, turn);
    var v1 := Vertex(q.x + q.width, q.y, s.texCoords.c1, s.colors.c1, turn);
    var v2 := Vertex(q.x + q.width, q.y + q.height, s.texCoords.c2, s.colors.c2, turn);
    var v3 := Vertex(q.x, q.y + q.height, s.texCoords.c3, s.colors.c3, turn);
    if s.quadsAsTriangles then [v0, v1, v2, v0, v2, v3] else [v0, v1, v2, v3]
  }

  function FreeformVertex(s: State, f: FreeformItem, k: nat): Vertex
    requires k < 4
  {
    Vertex(f.corners.At(k).0, f.corners.At(k).1, s.texCoords.At(k), s.colors.At(k), Upright)
  }

  function FreeformVertices(s: State, f: FreeformItem): (vs: seq<Vertex>)
    ensures |vs| == PerQuad(s) == |FreeformOrder(s.quadsAsTriangles)|
    ensures forall j :: 0 <= j < |vs| ==> vs[j] == FreeformVertex(s, f, FreeformOrder(s.quadsAsTriangles)[j])
  {
    var p := f.corners;
    var v0 := Vertex(p.c0.0, p.c0.1, s.texCoords.c0, s.colors.c0, Upright);
    var v1 := Vertex(p.c1.0, p.c1.1, s.texCoords.c1, s.colors.c1, Upright);
    var v2 := Vertex(p.c2.0, p.c2.1, s.texCoords.c2, s.colors.c2, Upright);
    var v3 := Vertex(p.c3.0, p.c3.1, s.texCoords.c3, s.colors.c3, Upright);
    if s.quadsAsTriangles then [v0, v1, v3, v0, v3, v2] else [v0, v1, v3, v2]
  }

  /** A line is a degenerate triangle: endpoint A with corner 0's texture and
      colour, then endpoint B twice with corner 1's. */
  function LineVertices(s: State, l: LineItem): seq<Vertex> {
    var a := Vertex(l.x0, l.y0, s.texCoords.c0, s.colors.c0, Upright);
    var b := Vertex(l.x1, l.y1, s.texCoords.c1, s.colors.c1, Upright);
    [a, b, b]
  }

  function Concat(groups: seq<seq<Vertex>>): seq<Vertex> {
    if groups == [] then [] else groups[0] + Concat(groups[1..])
  }

  lemma {:induction false} ConcatLength(groups: seq<seq<Vertex>>, n: nat)
    requires forall k :: 0 <= k < |groups| ==> |groups[k]| == n
    ensures |Concat(groups)| == n * |groups|
    decreases |groups|
  {
    if groups != [] {
      ConcatLength(groups[1..], n);
      MulSucc(n, |groups| - 1);
    }
  }

  /** Groups of equal size `n` lie side by side: element `j` of group `i` sits at
      `n * i + j`. */
  lemma {:induction false} ConcatAt(groups: seq<seq<Vertex>>, n: nat, i: nat, j: nat)
    requires forall k :: 0 <= k < |groups| ==> |groups[k]| == n
    requires i < |groups| && j < n
    ensures n * i + j < |Concat(groups)| && Concat(groups)[n * i + j] == groups[i][j]
    decreases i
  {
    ConcatLength(groups, n);
    if i > 0 {
      ConcatAt(groups[1..], n, i - 1, j);
      assert n * i + j == n + (n * (i - 1) + j);
    }
  }

  /** The effect every emitter shares: `vs` is written at the pending count and
      the count is raised by `n`, flushing early when needed. */
  function Emit(s: State, vs: seq<Vertex>, n: nat): (r: State)
    ensures SameScope(r, s)
    ensures forall j :: 0 <= j < |vs| ==> Slot(r.batch.slots, s.batch.count + j) == vs[j]
    ensures forall k :: !(s.batch.count <= k < s.batch.count + |vs|) ==> Slot(r.batch.slots, k) == Slot(s.batch.slots, k)
    ensures r.batch.count == 0 || r.batch.count == s.batch.count + n
    ensures r.batch.count == 0 || r.batch.count + n < MaxVertices
    ensures r.batch.renderEnable == s.batch.renderEnable
    ensures s.batch.renderEnable ==> Accepted(r.batch) == Accepted(s.batch) + n
    ensures s.batch.renderEnable && n == |vs| ==> Stream(r.batch) == Stream(s.batch) + vs
  {
    PendingWrite(s.batch, vs);
    assert SubmittedVertices(s.batch.submitted) + (Pending(s.batch) + vs) == Stream(s.batch) + vs;
    s.(batch := AddVertices(Write(s.batch, s.batch.count, vs), n, Topology(s)))
  }

  /** Emitting equal-size groups side by side puts element `j` of group `i` at
      `n * i + j` past the pending count, and nothing else moves. */
  lemma EmitConcat(s: State, groups: seq<seq<Vertex>>, n: nat, m: nat)
    requires forall k :: 0 <= k < |groups| ==> |groups[k]| == n
    ensures |Concat(groups)| == n * |groups|
    ensures forall i, j :: 0 <= i < |groups| && 0 <= j < n ==>
              Slot(Emit(s, Concat(groups), m).batch.slots, s.batch.count + n * i + j) == groups[i][j]
  {
    ConcatLength(groups, n);
    forall i, j | 0 <= i < |groups| && 0 <= j < n
      ensures Slot(Emit(s, Concat(groups), m).batch.slots, s.batch.count + n * i + j) == groups[i][j]
    {
      EmitGroupAt(s, groups, n, m, i, j);
    }
  }

  lemma EmitGroupAt(s: State, groups: seq<seq<Vertex>>, n: nat, m: nat, i: nat, j: nat)
    requires forall k :: 0 <= k < |groups| ==> |groups[k]| == n
    requires i < |groups| && j < n
    ensures Slot(Emit(s, Concat(groups), m).batch.slots, s.batch.count + n * i + j) == groups[i][j]
  {
    ConcatAt(groups, n, i, j);
    EmitAt(s, Concat(groups), m, n * i + j);
  }

  lemma EmitAt(s: State, vs: seq<Vertex>, m: nat, k: nat)
    requires k < |vs|
    ensures Slot(Emit(s, vs, m).batch.slots, s.batch.count + k) == vs[k]
  {
  }

  function QuadGroups(s: State, items: seq<QuadItem>): (g: seq<seq<Vertex>>)
    ensures |g| == |items|
    ensures forall i :: 0 <= i < |items| ==> g[i] == QuadVertices(s, items[i])
  {
    seq(|items|, i requires 0 <= i < |items| => QuadVertices(s, items[i]))
  }

  function QuadsDrawTL(s: State, items: seq<QuadItem>): (r: Result<State>)
    ensures r.Ok? <==> s.drawing == DrawingQuads
    ensures r.Ok? ==> SameScope(r.value, s)
    ensures r.Ok? ==> forall i, j :: 0 <= i < |items| && 0 <= j < PerQuad(s) ==>
              Slot(r.value.batch.slots, s.batch.count + PerQuad(s) * i + j)
                == CornerVertex(s, items[i], QuadOrder(s.quadsAsTriangles)[j])
    ensures r.Ok? ==> r.value.batch.count == 0 || r.value.batch.count == s.batch.count + PerQuad(s) * |items|
    ensures r.Ok? ==> r.value.batch.renderEnable == s.batch.renderEnable
    ensures r.Ok? && s.batch.renderEnable ==> Accepted(r.value.batch) == Accepted(s.batch) + PerQuad(s) * |items|
    ensures r.Ok? && s.batch.renderEnable ==> Stream(r.value.batch) == Stream(s.batch) + Concat(QuadGroups(s, items))
  {
    if s.drawing != DrawingQuads then Failed("called Graphics()->QuadsDrawTL without begin")
    else
      QuadsEmitted(s, items);
      Ok(Emit(s, Concat(QuadGroups(s, items)), PerQuad(s) * |items|))
  }

  /** Where `QuadsDrawTL` puts each corner: corner `QuadOrder[j]` of item `i` at
      `PerQuad * i + j` past the pending count. */
  lemma QuadsEmitted(s: State, items: seq<QuadItem>)
    ensures forall i, j :: 0 <= i < |items| && 0 <= j < PerQuad(s) ==>
              Slot(Emit(s, Concat(QuadGroups(s, items)), PerQuad(s) * |items|).batch.slots, s.batch.count + PerQuad(s) * i + j)
                == CornerVertex(s, items[i], QuadOrder(s.quadsAsTriangles)[j])
    ensures |Concat(QuadGroups(s, items))| == PerQuad(s) * |items|
  {
    EmitConcat(s, QuadGroups(s, items), PerQuad(s), PerQuad(s) * |items|);
  }

  /** `QuadsDrawTL` writes only the slots from the pending count on, one group per
      item: every other slot keeps its vertex. */
  lemma QuadsDrawTLFrame(s: State, items: seq<QuadItem>)
    requires s.drawing == DrawingQuads
    ensures forall k :: !(s.batch.count <= k < s.batch.count + PerQuad(s) * |items|) ==>
              Slot(QuadsDrawTL(s, items).value.batch.slots, k) == Slot(s.batch.slots, k)
  {
    EmitConcat(s, QuadGroups(s, items), PerQuad(s), PerQuad(s) * |items|);
  }

  /** One vertex of `QuadsDrawTL`: corner `QuadOrder[j]` of quad `i`. */
  lemma QuadsDrawTLAt(s: State, items: seq<QuadItem>, i: nat, j: nat)
    requires s.drawing == DrawingQuads && i < |items| && j < PerQuad(s)
    ensures Slot(QuadsDrawTL(s, items).value.batch.slots, s.batch.count + PerQuad(s) * i + j)
              == CornerVertex(s, items[i], QuadOrder(s.quadsAsTriangles)[j])
  {
  }

  /** Rotating by zero leaves every corner where the unrotated emission puts it:
      the vertices are not turned at all. */
  lemma ZeroRotationKeepsCorners(s: State, items: seq<QuadItem>)
    requires s.drawing == DrawingQuads && s.rotation == 0.0
    ensures var r := QuadsDrawTL(s, items).value;
            forall i, j :: 0 <= i < |items| && 0 <= j < PerQuad(s) ==>
              Slot(r.batch.slots, s.batch.count + PerQuad(s) * i + j)
                == Vertex(QuadCorner(items[i], QuadOrder(s.quadsAsTriangles)[j]).0,
                          QuadCorner(items[i], QuadOrder(s.quadsAsTriangles)[j]).1,
                          s.texCoords.At(QuadOrder(s.quadsAsTriangles)[j]),
                          s.colors.At(QuadOrder(s.quadsAsTriangles)[j]), Upright)
  {
    forall i, j | 0 <= i < |items| && 0 <= j < PerQuad(s)
      ensures Slot(QuadsDrawTL(s, items).value.batch.slots, s.batch.count + PerQuad(s) * i + j)
                == CornerVertex(s, items[i], QuadOrder(s.quadsAsTriangles)[j])
    {
      QuadsDrawTLAt(s, items, i, j);
    }
  }

  /** Moves a centre-anchored quad to its top-left corner. */
  function Centered(q: QuadItem): QuadItem {
    q.(x := q.x - q.width / 2.0, y := q.y - q.height / 2.0)
  }

  /** `QuadsDraw`: each quad is centred on its (x, y); the engine also rewrites
      the caller's array in place, which the model does not. */
  function QuadsDraw(s: State, items: seq<QuadItem>): (r: Result<State>)
    ensures r.Ok? <==> s.drawing == DrawingQuads
    ensures r.Ok? ==> SameScope(r.value, s)
    ensures r.Ok? && s.batch.renderEnable ==> Accepted(r.value.batch) == Accepted(s.batch) + PerQuad(s) * |items|
  {
    QuadsDrawTL(s, CenteredAll(items))
  }

  function CenteredAll(items: seq<QuadItem>): (r: seq<QuadItem>)
    ensures |r| == |items|
    ensures forall i :: 0 <= i < |items| ==> r[i] == Centered(items[i])
  {
    seq(|items|, i requires 0 <= i < |items| => Centered(items[i]))
  }

  /** The quad drawn for item `i` of `QuadsDraw` has its top-left corner half a
      size up and left of (x, y)... */
  lemma QuadsDrawTopLeft(s: State, items: seq<QuadItem>, i: nat)
    requires s.drawing == DrawingQuads && i < |items|
    ensures && Slot(QuadsDraw(s, items).value.batch.slots, s.batch.count + PerQuad(s) * i).x == items[i].x - items[i].width / 2.0
            && Slot(QuadsDraw(s, items).value.batch.slots, s.batch.count + PerQuad(s) * i).y == items[i].y - items[i].height / 2.0
  {
    var v := Slot(QuadsDraw(s, items).value.batch.slots, s.batch.count + PerQuad(s) * i);
    CentredCorner(s, items, i, 0);
    assert s.batch.count + PerQuad(s) * i + 0 == s.batch.count + PerQuad(s) * i;
    CenteredSpan(s, items[i]);
    assert v == CornerVertex(s, Centered(items[i]), 0);
  }

  /** ... and its bottom-right corner half a size down and right. */
  lemma QuadsDrawBottomRight(s: State, items: seq<QuadItem>, i: nat)
    requires s.drawing == DrawingQuads && i < |items|
    ensures && Slot(QuadsDraw(s, items).value.batch.slots, s.batch.count + PerQuad(s) * i + 2).x == items[i].x + items[i].width / 2.0
            && Slot(QuadsDraw(s, items).value.batch.slots, s.batch.count + PerQuad(s) * i + 2).y == items[i].y + items[i].height / 2.0
  {
    var v := Slot(QuadsDraw(s, items).value.batch.slots, s.batch.count + PerQuad(s) * i + 2);
    CentredCorner(s, items, i, 2);
    CenteredSpan(s, items[i]);
    assert v == CornerVertex(s, Centered(items[i]), 2);
  }

  lemma CenteredSpan(s: State, q: QuadItem)
    ensures && CornerVertex(s, Centered(q), 0).x == q.x - q.width / 2.0
            && CornerVertex(s, Centered(q), 0).y == q.y - q.height / 2.0
            && CornerVertex(s, Centered(q), 2).x == q.x + q.width / 2.0
            && CornerVertex(s, Centered(q), 2).y == q.y + q.height / 2.0
  {
  }

  lemma CentredCorner(s: State, items: seq<QuadItem>, i: nat, k: nat)
    requires s.drawing == DrawingQuads && i < |items| && (k == 0 || k == 2)
    ensures Slot(QuadsDraw(s, items).value.batch.slots, s.batch.count + PerQuad(s) * i + k)
              == CornerVertex(s, Centered(items[i]), k)
  {
    QuadsDrawTLAt(s, CenteredAll(items), i, k);
  }

  function FreeformGroups(s: State, items: seq<FreeformItem>): (g: seq<seq<Vertex>>)
    ensures |g| == |items|
    ensures forall i :: 0 <= i < |items| ==> g[i] == FreeformVertices(s, items[i])
  {
    seq(|items|, i requires 0 <= i < |items| => FreeformVertices(s, items[i]))
  }

  function QuadsDrawFreeform(s: State, items: seq<FreeformItem>): (r: Result<State>)
    ensures r.Ok? <==> s.drawing == DrawingQuads
    ensures r.Ok? ==> SameScope(r.value, s)
    ensures r.Ok? ==> forall i, j :: 0 <= i < |items| && 0 <= j < PerQuad(s) ==>
              Slot(r.value.batch.slots, s.batch.count + PerQuad(s) * i + j)
                == FreeformVertex(s, items[i], FreeformOrder(s.quadsAsTriangles)[j])
    ensures r.Ok? ==> r.value.batch.count == 0 || r.value.batch.count == s.batch.count + PerQuad(s) * |items|
    ensures r.Ok? && s.batch.renderEnable ==> Accepted(r.value.batch) == Accepted(s.batch) + PerQuad(s) * |items|
  {
    if s.drawing != DrawingQuads then Failed("called Graphics()->QuadsDrawFreeform without begin")
    else
      FreeformEmitted(s, items);
      Ok(Emit(s, Concat(FreeformGroups(s, items)), PerQuad(s) * |items|))
  }

  /** Where `QuadsDrawFreeform` puts each corner. */
  lemma FreeformEmitted(s: State, items: seq<FreeformItem>)
    ensures forall i, j :: 0 <= i < |items| && 0 <= j < PerQuad(s) ==>
              Slot(Emit(s, Concat(FreeformGroups(s, items)), PerQuad(s) * |items|).batch.slots, s.batch.count + PerQuad(s) * i + j)
                == FreeformVertex(s, items[i], FreeformOrder(s.quadsAsTriangles)[j])
  {
    EmitConcat(s, FreeformGroups(s, items), PerQuad(s), PerQuad(s) * |items|);
  }

  /** `QuadsDrawFreeform` writes only the slots from the pending count on, one group per
      item: every other slot keeps its vertex. */
  lemma QuadsDrawFreeformFrame(s: State, items: seq<FreeformItem>)
    requires s.drawing == DrawingQuads
    ensures forall k :: !(s.batch.count <= k < s.batch.count + PerQuad(s) * |items|) ==>
              Slot(QuadsDrawFreeform(s, items).value.batch.slots, k) == Slot(s.batch.slots, k)
  {
    EmitConcat(s, FreeformGroups(s, items), PerQuad(s), PerQuad(s) * |items|);
  }

  /** Freeform quads are never rotated: the current angle makes no difference to
      what is written. */
  lemma FreeformIgnoresRotation(s: State, items: seq<FreeformItem>, angle: real)
    requires s.drawing == DrawingQuads
    ensures QuadsDrawFreeform(s.(rotation := angle), items).value.batch == QuadsDrawFreeform(s, items).value.batch
  {
    var s' := s.(rotation := angle);
    assert forall f :: FreeformVertices(s', f) == FreeformVertices(s, f);
    assert seq(|items|, i requires 0 <= i < |items| => FreeformVertices(s', items[i]))
        == seq(|items|, i requires 0 <= i < |items| => FreeformVertices(s, items[i]));
  }

  /** `LinesDraw` with the three vertices of each line written side by side,
      three slots per line (see `LinesDrawAsWritten` for the engine's stride). */
  function LinesDraw(s: State, lines: seq<LineItem>): (r: Result<State>)
    ensures r.Ok? <==> s.drawing == DrawingLines
    ensures r.Ok? ==> SameScope(r.value, s)
    ensures r.Ok? ==> forall i :: 0 <= i < |lines| ==>
              && Slot(r.value.batch.slots, s.batch.count + 3 * i) == Vertex(lines[i].x0, lines[i].y0, s.texCoords.At(0), s.colors.At(0), Upright)
              && Slot(r.value.batch.slots, s.batch.count + 3 * i + 1) == Vertex(lines[i].x1, lines[i].y1, s.texCoords.At(1), s.colors.At(1), Upright)
              && Slot(r.value.batch.slots, s.batch.count + 3 * i + 2) == Vertex(lines[i].x1, lines[i].y1, s.texCoords.At(1), s.colors.At(1), Upright)
    ensures r.Ok? ==> forall k :: !(s.batch.count <= k < s.batch.count + 3 * |lines|) ==>
              Slot(r.value.batch.slots, k) == Slot(s.batch.slots, k)
    ensures r.Ok? ==> r.value.batch.count == 0 || r.value.batch.count == s.batch.count + 3 * |lines|
    ensures r.Ok? && s.batch.renderEnable ==> Accepted(r.value.batch) == Accepted(s.batch) + 3 * |lines|
  {
    if s.drawing != DrawingLines then Failed("called Graphics()->LinesDraw without begin")
    else
      var groups := seq(|lines|, i requires 0 <= i < |lines| => LineVertices(s, lines[i]));
      assert forall i :: 0 <= i < |lines| ==> groups[i] == LineVertices(s, lines[i]);
      EmitConcat(s, groups, 3, 3 * |lines|);
      var r := Emit(s, Concat(groups), 3 * |lines|);
      forall i | 0 <= i < |lines|
        ensures && Slot(r.batch.slots, s.batch.count + 3 * i) == LineVertices(s, lines[i])[0]
                && Slot(r.batch.slots, s.batch.count + 3 * i + 1) == LineVertices(s, lines[i])[1]
                && Slot(r.batch.slots, s.batch.count + 3 * i + 2) == LineVertices(s, lines[i])[2]
      {
        assert Slot(r.batch.slots, s.batch.count + 3 * i + 0) == groups[i][0];
        assert Slot(r.batch.slots, s.batch.count + 3 * i + 1) == groups[i][1];
        assert Slot(r.batch.slots, s.batch.count + 3 * i + 2) == groups[i][2];
      }
      Ok(r)
  }

  /** The engine's `LinesDraw`: line `i` is written at offset `2 * i`, so each
      line's first vertex overwrites the previous line's last one, while the count
      still grows by three per line. */
  function WriteLinesStride2(b: Batch, base: int, s: State, lines: seq<LineItem>, i: nat): Batch
    requires i <= |lines|
    decreases |lines| - i
  {
    if i == |lines| then b
    else WriteLinesStride2(Write(b, base + 2 * i, LineVertices(s, lines[i])), base, s, lines, i + 1)
  }

  function LinesDrawAsWritten(s: State, lines: seq<LineItem>): (r: Result<State>)
    ensures r.Ok? <==> s.drawing == DrawingLines
    ensures r.Ok? ==> SameScope(r.value, s)
    ensures r.Ok? ==> forall i :: 0 <= i < |lines| ==>
              && Slot(r.value.batch.slots, s.batch.count + 2 * i) == Vertex(lines[i].x0, lines[i].y0, s.texCoords.At(0), s.colors.At(0), Upright)
              && Slot(r.value.batch.slots, s.batch.count + 2 * i + 1) == Vertex(lines[i].x1, lines[i].y1, s.texCoords.At(1), s.colors.At(1), Upright)
    ensures r.Ok? && lines != [] ==>
              var last := lines[|lines| - 1];
              Slot(r.value.batch.slots, s.batch.count + 2 * |lines|) == Vertex(last.x1, last.y1, s.texCoords.At(1), s.colors.At(1), Upright)
    ensures r.Ok? ==> forall k :: (k < s.batch.count || k > s.batch.count + 2 * |lines|) ==>
              Slot(r.value.batch.slots, k) == Slot(s.batch.slots, k)
    ensures r.Ok? ==> r.value.batch.count == 0 || r.value.batch.count == s.batch.count + 3 * |lines|
    ensures r.Ok? && s.batch.renderEnable ==> Accepted(r.value.batch) == Accepted(s.batch) + 3 * |lines|
  {
    if s.drawing != DrawingLines then Failed("called Graphics()->LinesDraw without begin")
    else
      var written := WriteLinesStride2(s.batch, s.batch.count, s, lines, 0);
      WriteLinesStride2Keeps(s.batch, s.batch.count, s, lines, 0);
      WriteLinesStride2Slots(s.batch, s.batch.count, s, lines, 0);
      Ok(s.(batch := AddVertices(written, 3 * |lines|, Topology(s))))
  }

  /** Where the stride-2 writes land: from line `i` on, each line's start at
      `base + 2 * k` and its end right after, and the last line's repeated end
      one slot beyond the last start; nothing else moves. */
  lemma {:induction false} WriteLinesStride2Slots(b: Batch, base: int, s: State, lines: seq<LineItem>, i: nat)
    requires i <= |lines|
    ensures var r := WriteLinesStride2(b, base, s, lines, i);
            forall k :: i <= k < |lines| ==>
              && Slot(r.slots, base + 2 * k) == LineVertices(s, lines[k])[0]
              && Slot(r.slots, base + 2 * k + 1) == LineVertices(s, lines[k])[1]
    ensures var r := WriteLinesStride2(b, base, s, lines, i);
            i < |lines| ==> Slot(r.slots, base + 2 * |lines|) == LineVertices(s, lines[|lines| - 1])[2]
    ensures var r := WriteLinesStride2(b, base, s, lines, i);
            forall k :: (k < base + 2 * i || k > base + 2 * |lines|) ==> Slot(r.slots, k) == Slot(b.slots, k)
    decreases |lines| - i
  {
    if i < |lines| {
      var w := Write(b, base + 2 * i, LineVertices(s, lines[i]));
      WriteLinesStride2Slots(w, base, s, lines, i + 1);
      var r := WriteLinesStride2(w, base, s, lines, i + 1);
      assert r == WriteLinesStride2(b, base, s, lines, i);
      assert Slot(w.slots, base + 2 * i + 0) == LineVertices(s, lines[i])[0];
      assert Slot(w.slots, base + 2 * i + 1) == LineVertices(s, lines[i])[1];
      assert Slot(w.slots, base + 2 * i + 2) == LineVertices(s, lines[i])[2];
    }
  }

  lemma {:induction false} WriteLinesStride2Keeps(b: Batch, base: int, s: State, lines: seq<LineItem>, i: nat)
    requires i <= |lines|
    ensures var r := WriteLinesStride2(b, base, s, lines, i);
            r.count == b.count && r.renderEnable == b.renderEnable && r.submitted == b.submitted
    decreases |lines| - i
  {
    if i < |lines| {
      WriteLinesStride2Keeps(Write(b, base + 2 * i, LineVertices(s, lines[i])), base, s, lines, i + 1);
    }
  }

  /** Two lines drawn in one call: the engine's stride puts the second line's
      start in the third slot, where the first line's repeated end belongs, and
      leaves the sixth slot unwritten; three slots per line keep both lines. */
  lemma LinesStrideLosesVertices(s: State, a: LineItem, b: LineItem)
    requires s.drawing == DrawingLines && s.batch.count == 0
    ensures var asWritten := LinesDrawAsWritten(s, [a, b]).value.batch;
            var intended := LinesDraw(s, [a, b]).value.batch;
            && Slot(asWritten.slots, 2) == Vertex(b.x0, b.y0, s.texCoords.c0, s.colors.c0, Upright)
            && Slot(intended.slots, 2) == Vertex(a.x1, a.y1, s.texCoords.c1, s.colors.c1, Upright)
            && Slot(asWritten.slots, 5) == Slot(s.batch.slots, 5)
            && Slot(intended.slots, 5) == Vertex(b.x1, b.y1, s.texCoords.c1, s.colors.c1, Upright)
  {
    var lines := [a, b];
    var w0 := Write(s.batch, 0, LineVertices(s, a));
    var w1 := Write(w0, 2, LineVertices(s, b));
    assert WriteLinesStride2(s.batch, 0, s, lines, 0) == WriteLinesStride2(w0, 0, s, lines, 1);
    assert WriteLinesStride2(w0, 0, s, lines, 1) == WriteLinesStride2(w1, 0, s, lines, 2);
    assert WriteLinesStride2(w1, 0, s, lines, 2) == w1;
    assert Slot(w1.slots, 2 + 0) == LineVertices(s, b)[0];
    assert Slot(w1.slots, 5) == Slot(w0.slots, 5) == Slot(s.batch.slots, 5);
    var intended := LinesDraw(s, lines).value.batch;
    assert Slot(intended.slots, 0 + 3 * 0 + 2) == Vertex(a.x1, a.y1, s.texCoords.At(1), s.colors.At(1), Upright);
    assert Slot(intended.slots, 0 + 3 * 1 + 2) == Vertex(b.x1, b.y1, s.texCoords.At(1), s.colors.At(1), Upright);
  }

  /** With a single line the engine's stride makes no difference. */
  lemma LinesStrideAgreesOnOneLine(s: State, a: LineItem)
    requires s.drawing == DrawingLines
    ensures LinesDrawAsWritten(s, [a]) == LinesDraw(s, [a])
  {
    var lines := [a];
    var groups := seq(1, i requires 0 <= i < 1 => LineVertices(s, lines[i]));
    assert groups == [LineVertices(s, a)];
    assert Concat(groups) == LineVertices(s, a) by {
      assert Concat(groups[1..]) == [];
    }
    var w0 := Write(s.batch, s.batch.count + 2 * 0, LineVertices(s, a));
    assert WriteLinesStride2(s.batch, s.batch.count, s, lines, 0) == WriteLinesStride2(w0, s.batch.count, s, lines, 1);
  }

  // ---------------------------------------------------------------- text

  const Newline: int := 10

  /** One character of `QuadsText`: its code and the square it is drawn in. */
  datatype Glyph = Glyph(code: int, item: QuadItem)

  /** The engine's cursor walk: a glyph advances the cursor by half the size, a
      newline returns it to `startX` one size lower. */
  function TextGlyphs(startX: real, x: real, y: real, size: real, text: seq<int>): seq<Glyph>
    decreases |text|
  {
    if text == [] then []
    else if text[0] == Newline then TextGlyphs(startX, startX, y + size, size, text[1..])
    else [Glyph(text[0], QuadItem(x, y, size, size))] + TextGlyphs(startX, x + size / 2.0, y, size, text[1..])
  }

  /** Newlines in `p`. */
  function LineOf(p: seq<int>): nat {
    if p == [] then 0 else LineOf(p[..|p| - 1]) + (if p[|p| - 1] == Newline then 1 else 0)
  }

  /** Characters of `p` after its last newline. */
  function ColumnOf(p: seq<int>): nat {
    if p == [] then 0 else if p[|p| - 1] == Newline then 0 else ColumnOf(p[..|p| - 1]) + 1
  }

  /** Where character `i` of `text` is drawn, from its line and column alone. */
  function GlyphAt(x0: real, y0: real, size: real, text: seq<int>, i: nat): Glyph
    requires i < |text|
  {
    Glyph(text[i], QuadItem(x0 + Offset(ColumnOf(text[..i]), size / 2.0),
                            y0 + Offset(LineOf(text[..i]), size), size, size))
  }

  /** The glyphs of the characters from `i` on, newlines skipped. */
  function LayoutFrom(x0: real, y0: real, size: real, text: seq<int>, i: nat): seq<Glyph>
    requires i <= |text|
    decreases |text| - i
  {
    if i == |text| then []
    else (if text[i] == Newline then [] else [GlyphAt(x0, y0, size, text, i)]) + LayoutFrom(x0, y0, size, text, i + 1)
  }

  /** `n` steps of `step`, added up one at a time. */
  function Offset(n: nat, step: real): real {
    if n == 0 then 0.0 else Offset(n - 1, step) + step
  }

  lemma {:induction false} OffsetIsProduct(n: nat, step: real)
    ensures Offset(n, step) == n as real * step
  {
    if n > 0 {
      OffsetIsProduct(n - 1, step);
      assert n as real * step == (n - 1) as real * step + step;
    }
  }

  /** Walking the rest of the text from the cursor position that the prefix `p`
      leads to gives the glyphs the line-and-column layout assigns to it. */
  lemma {:induction false} WalkMatchesLayout(x0: real, y0: real, size: real, p: seq<int>, rest: seq<int>)
    ensures TextGlyphs(x0, x0 + Offset(ColumnOf(p), size / 2.0), y0 + Offset(LineOf(p), size), size, rest)
         == LayoutFrom(x0, y0, size, p + rest, |p|)
    decreases |rest|
  {
    if rest != [] {
      var h := size / 2.0;
      var c := rest[0];
      var text := p + rest;
      var p' := p + [c];
      assert p' + rest[1..] == text;
      assert p'[..|p|] == p;
      assert text[..|p|] == p;
      assert text[|p|] == c;
      WalkMatchesLayout(x0, y0, size, p', rest[1..]);
      var tail := LayoutFrom(x0, y0, size, text, |p| + 1);
      if c == Newline {
        assert LineOf(p') == LineOf(p) + 1 && ColumnOf(p') == 0;
        assert LayoutFrom(x0, y0, size, text, |p|) == [] + tail;
      } else {
        assert LineOf(p') == LineOf(p) && ColumnOf(p') == ColumnOf(p) + 1;
        assert LayoutFrom(x0, y0, size, text, |p|) == [GlyphAt(x0, y0, size, text, |p|)] + tail;
      }
    }
  }

  /** `QuadsText` draws character `i` at its column times half the size right of
      the start and its line times the size below it. */
  lemma TextLayout(x: real, y: real, size: real, text: seq<int>)
    ensures TextGlyphs(x, x, y, size, text) == LayoutFrom(x, y, size, text, 0)
  {
    WalkMatchesLayout(x, y, size, [], text);
    assert [] + text == text;
  }

  function Glyphs(text: seq<int>): nat {
    if text == [] then 0 else (if text[0] == Newline then 0 else 1) + Glyphs(text[1..])
  }

  lemma {:induction false} TextGlyphsCount(startX: real, x: real, y: real, size: real, text: seq<int>)
    ensures |TextGlyphs(startX, x, y, size, text)| == Glyphs(text)
    ensures forall g :: g in TextGlyphs(startX, x, y, size, text) ==> g.item.width == size && g.item.height == size && g.code in text
    decreases |text|
  {
    if text != [] {
      if text[0] == Newline {
        TextGlyphsCount(startX, startX, y + size, size, text[1..]);
      } else {
        TextGlyphsCount(startX, x + size / 2.0, y, size, text[1..]);
      }
    }
  }

  /** The atlas cell of a character: column `c % 16`, row `c / 16`, with C's
      division on the signed `char`. A negative `char` (a byte from 0x80 on)
      lands in a cell off the sheet. */
  function GlyphCell(c: int): (cell: (int, int))
    ensures 0 <= c < 128 ==> 0 <= cell.0 < 16 && 0 <= cell.1 < 8 && c == 16 * cell.1 + cell.0
    ensures -128 <= c < 0 ==>
              -16 < cell.0 <= 0 && -8 <= cell.1 <= 0 && (cell.0 < 0 || cell.1 < 0) && c == 16 * cell.1 + cell.0
  {
    (CMod(c, 16), CDiv(c, 16))
  }

  /** The atlas rectangle of character `c`: one sixteenth of the texture each
      way, at its cell. */
  predicate ShowsCell(t: Corners<TexCoord>, c: int) {
    var cell := GlyphCell(c);
    IsSubset(t, cell.0 as real / 16.0, cell.1 as real / 16.0,
             cell.0 as real / 16.0 + 1.0 / 16.0, cell.1 as real / 16.0 + 1.0 / 16.0)
  }

  /** The only corners spanning a given rectangle. */
  function SubsetCorners(tlU: real, tlV: real, brU: real, brV: real): (t: Corners<TexCoord>)
    ensures IsSubset(t, tlU, tlV, brU, brV)
    ensures forall t' :: IsSubset(t', tlU, tlV, brU, brV) ==> t' == t
  {
    Corners(TexCoord(tlU, tlV), TexCoord(brU, tlV), TexCoord(brU, brV), TexCoord(tlU, brV))
  }

  /** The texture corners of character `c`'s atlas cell. */
  function CellCorners(c: int): (t: Corners<TexCoord>)
    ensures ShowsCell(t, c)
  {
    var cell := GlyphCell(c);
    SubsetCorners(cell.0 as real / 16.0, cell.1 as real / 16.0,
                  cell.0 as real / 16.0 + 1.0 / 16.0, cell.1 as real / 16.0 + 1.0 / 16.0)
  }

  /** The vertices of glyph `g`: its square, textured with its cell, in the
      colours, rotation and topology of `s`. */
  function GlyphQuad(s: State, g: Glyph): seq<Vertex> {
    QuadVertices(s.(texCoords := CellCorners(g.code)), g.item)
  }

  function GlyphGroups(s: State, glyphs: seq<Glyph>): (g: seq<seq<Vertex>>)
    ensures |g| == |glyphs|
    ensures forall i :: 0 <= i < |glyphs| ==> g[i] == GlyphQuad(s, glyphs[i])
  {
    seq(|glyphs|, i requires 0 <= i < |glyphs| => GlyphQuad(s, glyphs[i]))
  }

  /** One character of `QuadsText`: select its atlas cell, then draw its square. */
  function DrawGlyph(s: State, g: Glyph): (r: Result<State>)
    ensures r.Ok? <==> s.drawing == DrawingQuads
    ensures r.Ok? ==> r.value == s.(batch := r.value.batch, texCoords := CellCorners(g.code))
    ensures r.Ok? ==> r.value.batch.renderEnable == s.batch.renderEnable
    ensures r.Ok? ==> forall j :: 0 <= j < PerQuad(s) ==>
              Slot(r.value.batch.slots, s.batch.count + j)
                == CornerVertex(s.(texCoords := CellCorners(g.code)), g.item, QuadOrder(s.quadsAsTriangles)[j])
    ensures r.Ok? && s.batch.renderEnable ==> Accepted(r.value.batch) == Accepted(s.batch) + PerQuad(s)
    ensures r.Ok? && s.batch.renderEnable ==> Stream(r.value.batch) == Stream(s.batch) + GlyphQuad(s, g)
  {
    if s.drawing != DrawingQuads then Failed("called Graphics()->QuadsSetSubset without begin")
    else
      var cell := GlyphCell(g.code);
      var s1 := QuadsSetSubset(s, cell.0 as real / 16.0, cell.1 as real / 16.0,
                               cell.0 as real / 16.0 + 1.0 / 16.0, cell.1 as real / 16.0 + 1.0 / 16.0).value;
      assert s1 == s.(texCoords := CellCorners(g.code));
      OneGlyphDrawn(s, g);
      QuadsDrawTL(s1, [g.item])
  }

  /** The single quad `DrawGlyph` hands to `QuadsDrawTL`, vertex by vertex and
      as a piece of the stream. */
  lemma OneGlyphDrawn(s: State, g: Glyph)
    requires s.drawing == DrawingQuads
    ensures var s1 := s.(texCoords := CellCorners(g.code));
            forall j :: 0 <= j < PerQuad(s) ==>
              Slot(QuadsDrawTL(s1, [g.item]).value.batch.slots, s.batch.count + j)
                == CornerVertex(s1, g.item, QuadOrder(s.quadsAsTriangles)[j])
    ensures var s1 := s.(texCoords := CellCorners(g.code));
            Concat(QuadGroups(s1, [g.item])) == GlyphQuad(s, g)
  {
    var s1 := s.(texCoords := CellCorners(g.code));
    forall j | 0 <= j < PerQuad(s)
      ensures Slot(QuadsDrawTL(s1, [g.item]).value.batch.slots, s.batch.count + j)
                == CornerVertex(s1, g.item, QuadOrder(s.quadsAsTriangles)[j])
    {
      QuadsDrawTLAt(s1, [g.item], 0, j);
    }
    assert Concat(QuadGroups(s1, [g.item])) == QuadVertices(s1, g.item) + Concat([]);
  }

  function DrawGlyphs(s: State, glyphs: seq<Glyph>): (r: Result<State>)
    ensures r.Ok? <==> glyphs == [] || s.drawing == DrawingQuads
    ensures r.Ok? ==> r.value.drawing == s.drawing && r.value.rotation == s.rotation && r.value.colors == s.colors
    ensures r.Ok? ==> r.value.texture == s.texture && r.value.batch.renderEnable == s.batch.renderEnable
    ensures r.Ok? ==> r.value.quadsAsTriangles == s.quadsAsTriangles
    ensures r.Ok? && s.batch.renderEnable ==> Accepted(r.value.batch) == Accepted(s.batch) + PerQuad(s) * |glyphs|
    ensures r.Ok? && glyphs != [] ==> ShowsCell(r.value.texCoords, glyphs[|glyphs| - 1].code)
    decreases |glyphs|
  {
    if glyphs == [] then Ok(s)
    else
      var s1 :- DrawGlyph(s, glyphs[0]);
      var r := DrawGlyphs(s1, glyphs[1..]);
      if r.Ok? then DrawGlyphsStep(s, s1, r.value, glyphs); r else r
  }

  /** The inductive step of `DrawGlyphs`: what the first glyph leaves, then what
      the rest leave from there, gives the whole contract. */
  lemma DrawGlyphsStep(s: State, s1: State, r: State, glyphs: seq<Glyph>)
    requires glyphs != []
    requires s1 == s.(batch := s1.batch, texCoords := CellCorners(glyphs[0].code))
    requires s1.batch.renderEnable == s.batch.renderEnable
    requires s.batch.renderEnable ==> Accepted(s1.batch) == Accepted(s.batch) + PerQuad(s)
    requires r.drawing == s1.drawing && r.rotation == s1.rotation && r.colors == s1.colors
    requires r.texture == s1.texture && r.batch.renderEnable == s1.batch.renderEnable
    requires r.quadsAsTriangles == s1.quadsAsTriangles
    requires s1.batch.renderEnable ==> Accepted(r.batch) == Accepted(s1.batch) + PerQuad(s1) * |glyphs[1..]|
    requires |glyphs| > 1 ==> ShowsCell(r.texCoords, glyphs[1..][|glyphs[1..]| - 1].code)
    requires |glyphs| == 1 ==> r == s1
    ensures r.drawing == s.drawing && r.rotation == s.rotation && r.colors == s.colors
    ensures r.texture == s.texture && r.batch.renderEnable == s.batch.renderEnable
    ensures r.quadsAsTriangles == s.quadsAsTriangles
    ensures s.batch.renderEnable ==> Accepted(r.batch) == Accepted(s.batch) + PerQuad(s) * |glyphs|
    ensures ShowsCell(r.texCoords, glyphs[|glyphs| - 1].code)
  {
    MulSucc(PerQuad(s), |glyphs| - 1);
  }

  /** The glyph's quad depends on the colours, the rotation and the topology
      only: not on the batch or the texture corners left by earlier glyphs. */
  lemma GlyphGroupsLook(a: State, b: State, glyphs: seq<Glyph>)
    requires a.colors == b.colors && a.rotation == b.rotation && a.quadsAsTriangles == b.quadsAsTriangles
    ensures GlyphGroups(a, glyphs) == GlyphGroups(b, glyphs)
  {
    forall i | 0 <= i < |glyphs|
      ensures GlyphQuad(a, glyphs[i]) == GlyphQuad(b, glyphs[i])
    {
      var g := glyphs[i];
      assert a.(texCoords := CellCorners(g.code)).texCoords == b.(texCoords := CellCorners(g.code)).texCoords;
    }
  }

  /** `DrawGlyphs` hands the device the glyphs' quads one after another, each
      with its own cell, whatever early flushes happen in between. */
  lemma {:induction false} DrawGlyphsStream(s: State, glyphs: seq<Glyph>)
    requires s.drawing == DrawingQuads && s.batch.renderEnable
    ensures Stream(DrawGlyphs(s, glyphs).value.batch) == Stream(s.batch) + Concat(GlyphGroups(s, glyphs))
    decreases |glyphs|
  {
    if glyphs == [] {
      assert Concat(GlyphGroups(s, glyphs)) == [];
    } else {
      var s1 := DrawGlyphsUnfold(s, glyphs);
      DrawGlyphsStream(s1, glyphs[1..]);
      DrawGlyphsStreamStep(s, s1, glyphs, Stream(DrawGlyphs(s1, glyphs[1..]).value.batch));
    }
  }

  /** The inductive step of `DrawGlyphsStream`: the first glyph's quad, then
      the rest drawn from the state it leaves. */
  lemma DrawGlyphsStreamStep(s: State, s1: State, glyphs: seq<Glyph>, out: seq<Vertex>)
    requires glyphs != []
    requires s1.colors == s.colors && s1.rotation == s.rotation && s1.quadsAsTriangles == s.quadsAsTriangles
    requires out == Stream(s1.batch) + Concat(GlyphGroups(s1, glyphs[1..]))
    requires Stream(s1.batch) == Stream(s.batch) + GlyphQuad(s, glyphs[0])
    ensures out == Stream(s.batch) + Concat(GlyphGroups(s, glyphs))
  {
    GlyphGroupsLook(s1, s, glyphs[1..]);
    GlyphGroupsCons(s, glyphs);
    var tail := Concat(GlyphGroups(s, glyphs[1..]));
    assert out == (Stream(s.batch) + GlyphQuad(s, glyphs[0])) + tail;
  }

  /** The first glyph drawn, and the state the rest are drawn from. */
  lemma DrawGlyphsUnfold(s: State, glyphs: seq<Glyph>) returns (s1: State)
    requires s.drawing == DrawingQuads && s.batch.renderEnable && glyphs != []
    ensures s1.drawing == DrawingQuads && s1.batch.renderEnable
    ensures s1.colors == s.colors && s1.rotation == s.rotation && s1.quadsAsTriangles == s.quadsAsTriangles
    ensures Stream(s1.batch) == Stream(s.batch) + GlyphQuad(s, glyphs[0])
    ensures DrawGlyphs(s, glyphs) == DrawGlyphs(s1, glyphs[1..])
  {
    s1 := DrawGlyph(s, glyphs[0]).value;
  }

  lemma GlyphGroupsCons(s: State, glyphs: seq<Glyph>)
    requires glyphs != []
    ensures Concat(GlyphGroups(s, glyphs)) == GlyphQuad(s, glyphs[0]) + Concat(GlyphGroups(s, glyphs[1..]))
  {
    var groups := GlyphGroups(s, glyphs);
    assert groups[1..] == GlyphGroups(s, glyphs[1..]);
  }

  /** Element `j` of glyph `k`'s quad sits at `PerQuad * k + j` of the glyphs'
      vertices: corner `QuadOrder[j]` of its square with its cell's texture. */
  lemma GlyphVertexAt(s: State, glyphs: seq<Glyph>, k: nat, j: nat)
    requires k < |glyphs| && j < PerQuad(s)
    ensures PerQuad(s) * k + j < |Concat(GlyphGroups(s, glyphs))|
    ensures Concat(GlyphGroups(s, glyphs))[PerQuad(s) * k + j]
              == CornerVertex(s.(texCoords := CellCorners(glyphs[k].code)), glyphs[k].item, QuadOrder(s.quadsAsTriangles)[j])
  {
    var groups := GlyphGroups(s, glyphs);
    assert forall i :: 0 <= i < |groups| ==> |groups[i]| == PerQuad(s.(texCoords := CellCorners(glyphs[i].code)));
    ConcatAt(groups, PerQuad(s), k, j);
  }

  /** `QuadsText`: one square quad per character that is not a newline. The
      scope is checked only when a glyph is drawn. */
  function QuadsText(s: State, x: real, y: real, size: real, text: seq<int>): (r: Result<State>)
    requires forall i :: 0 <= i < |text| ==> -128 <= text[i] < 128 && text[i] != 0
    ensures r.Ok? <==> Glyphs(text) == 0 || s.drawing == DrawingQuads
    ensures r.Ok? ==> r.value.drawing == s.drawing && r.value.rotation == s.rotation && r.value.colors == s.colors
    ensures r.Ok? && s.batch.renderEnable ==> Accepted(r.value.batch) == Accepted(s.batch) + PerQuad(s) * Glyphs(text)
  {
    TextGlyphsCount(x, x, y, size, text);
    DrawGlyphs(s, TextGlyphs(x, x, y, size, text))
  }

  /** What `QuadsText` hands the device: for every character that is not a
      newline, in order, one quad at the square its line and column give,
      textured with that character's atlas cell. */
  lemma QuadsTextStream(s: State, x: real, y: real, size: real, text: seq<int>)
    requires forall i :: 0 <= i < |text| ==> -128 <= text[i] < 128 && text[i] != 0
    requires s.drawing == DrawingQuads && s.batch.renderEnable
    ensures Stream(QuadsText(s, x, y, size, text).value.batch)
              == Stream(s.batch) + Concat(GlyphGroups(s, LayoutFrom(x, y, size, text, 0)))
  {
    TextLayout(x, y, size, text);
    DrawGlyphsStream(s, TextGlyphs(x, x, y, size, text));
  }

  /** On a line without newlines, character `i` is drawn `i` half-sizes right
      of the start, on the starting row. */
  lemma SingleLineLayout(x: real, y: real, size: real, text: seq<int>)
    requires forall k :: 0 <= k < |text| ==> text[k] != Newline
    ensures |LayoutFrom(x, y, size, text, 0)| == |text|
    ensures forall k :: 0 <= k < |text| ==>
              LayoutFrom(x, y, size, text, 0)[k] == Glyph(text[k], QuadItem(x + k as real * (size / 2.0), y, size, size))
  {
    LayoutWithoutNewlines(x, y, size, text, 0);
    forall k | 0 <= k < |text|
      ensures GlyphAt(x, y, size, text, k) == Glyph(text[k], QuadItem(x + k as real * (size / 2.0), y, size, size))
    {
      NoNewlinePrefix(text, k);
      OffsetIsProduct(k, size / 2.0);
      assert Offset(0, size) == 0.0;
    }
  }

  /** Without newlines, the glyphs from `i` on are one per character, in order. */
  lemma {:induction false} LayoutWithoutNewlines(x: real, y: real, size: real, text: seq<int>, i: nat)
    requires i <= |text| && forall k :: 0 <= k < |text| ==> text[k] != Newline
    ensures |LayoutFrom(x, y, size, text, i)| == |text| - i
    ensures forall k :: i <= k < |text| ==> LayoutFrom(x, y, size, text, i)[k - i] == GlyphAt(x, y, size, text, k)
    decreases |text| - i
  {
    if i < |text| {
      LayoutWithoutNewlines(x, y, size, text, i + 1);
      assert LayoutFrom(x, y, size, text, i) == [GlyphAt(x, y, size, text, i)] + LayoutFrom(x, y, size, text, i + 1);
    }
  }

  /** Without newlines, a prefix of length `i` ends in column `i` of line 0. */
  lemma {:induction false} NoNewlinePrefix(text: seq<int>, i: nat)
    requires i <= |text| && forall k :: 0 <= k < |text| ==> text[k] != Newline
    ensures ColumnOf(text[..i]) == i && LineOf(text[..i]) == 0
  {
    if i > 0 {
      NoNewlinePrefix(text, i - 1);
      assert text[..i][..i - 1] == text[..i - 1];
    }
  }
}
