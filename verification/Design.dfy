/** The design objects: cells, their instances, pins, nets and layered geometry, with the
    invalid bits that the incremental passes test and clear. */
module Design {
  import opened Marks
  import opened Extents

  datatype Line = Line(width: real, pts: seq<Vec2>)

  datatype Shape = Shape(pts: seq<Vec2>)

  /** Mirrors act before the rotation, which is clockwise by 90 degrees. */
  datatype Orientation = Orientation(mirrorX: bool, mirrorY: bool, rotate90: bool)

  /** How a timing table was obtained from those of the library, or that there is none. */
  datatype TimingTable =
    | NoTable
    | Library(id: nat)
    | AtLoad(table: TimingTable, load: real)
    | Resampled(table: TimingTable, transition: TimingTable)
    | Sum(delay: TimingTable, earlier: TimingTable)

  class Layer {
    var invalid: set<Bit>
    const geo: Geometry
    const tech: nat
    var lines: seq<Line>
    var shapes: seq<Shape>
    var ext: Box

    // The storage is zeroed, so the extents start out as a point at the origin.
    constructor (geo: Geometry, tech: nat)
      ensures this.geo == geo && this.tech == tech && invalid == ALL_BITS && lines == [] && shapes == []
    {
      this.geo, this.tech, invalid, lines, shapes := geo, tech, ALL_BITS, [], [];
      ext := Box(Fin(0.0), Fin(0.0), Fin(0.0), Fin(0.0));
    }
  }

  class Geometry {
    var invalid: set<Bit>
    var cell: Cell?
    var layers: seq<Layer>
    var ext: Box

    constructor ()
      ensures invalid == ALL_BITS && cell == null && layers == []
    {
      invalid, cell, layers := ALL_BITS, null, [];
      ext := Box(Fin(0.0), Fin(0.0), Fin(0.0), Fin(0.0));
    }
  }

  class Pin {
    const cell: Cell
    const name: string
    const geo: Geometry
    var capacitance: real

    constructor (cell: Cell, name: string)
      ensures this.cell == cell && this.name == name && fresh(geo) && capacitance == 0.0
      ensures geo.cell == cell && geo.layers == [] && geo.invalid == ALL_BITS
    {
      this.cell, this.name, capacitance := cell, name, 0.0;
      var g := new Geometry();
      g.cell := cell;
      geo := g;
    }
  }

  datatype Terminal = Terminal(inst: Inst?, pin: Pin)

  // The table that one input pin's transition yields at a net.
  datatype NetArc = NetArc(related: Pin?, delay: TimingTable, transition: TimingTable)

  datatype CellArc = CellArc(pin: Pin, related: Pin?, delay: TimingTable, transition: TimingTable)

  class Net {
    var invalid: set<Bit>
    const cell: Cell
    var conns: seq<Terminal>
    var capacitance: real
    var arcs: seq<NetArc>
    var exposed: bool

    // The storage is zeroed: no bit of a new net is invalid.
    constructor (cell: Cell, conns: seq<Terminal>, exposed: bool)
      ensures this.cell == cell && this.conns == conns && this.exposed == exposed
      ensures invalid == {} && capacitance == 0.0 && arcs == []
    {
      this.cell, this.conns, this.exposed, invalid, capacitance, arcs := cell, conns, exposed, {}, 0.0, [];
    }
  }

  class Cell {
    var invalid: set<Bit>
    var origin: Vec2
    var size: Vec2
    var insts: seq<Inst>
    var ext: Box
    const geo: Geometry
    var pins: seq<Pin>
    var nets: seq<Net>
    var arcs: seq<CellArc>
    var leakagePower: real
    var uses: seq<Inst>

    constructor ()
      ensures fresh(geo) && geo.cell == this && geo.layers == [] && geo.invalid == ALL_BITS
      ensures invalid == ALL_BITS && insts == [] && pins == [] && nets == [] && uses == []
      ensures leakagePower == 0.0 && origin == Vec2(0.0, 0.0)
    {
      invalid, origin, size := ALL_BITS, Vec2(0.0, 0.0), Vec2(0.0, 0.0);
      insts, pins, nets, arcs, uses, leakagePower := [], [], [], [], [], 0.0;
      ext := Box(Fin(0.0), Fin(0.0), Fin(0.0), Fin(0.0));
      var g := new Geometry();
      geo := g;
      new;
      geo.cell := this;
    }
  }

  class Inst {
    var invalid: set<Bit>
    const cell: Cell
    const parent: Cell
    var orientation: Orientation
    var pos: Vec2
    var ext: Box

    constructor (parent: Cell, cell: Cell)
      ensures this.parent == parent && this.cell == cell && invalid == ALL_BITS
      ensures orientation == Orientation(false, false, false) && pos == Vec2(0.0, 0.0)
    {
      this.parent, this.cell, invalid := parent, cell, ALL_BITS;
      orientation, pos := Orientation(false, false, false), Vec2(0.0, 0.0);
      ext := Box(Fin(0.0), Fin(0.0), Fin(0.0), Fin(0.0));
    }
  }

  // --- The contents of a design, as values -----------------------------------

  /** All objects of the designs that are linked to each other. */
  datatype World = World(cells: set<Cell>, insts: set<Inst>, geos: set<Geometry>, layers: set<Layer>)

  datatype CellData = CellData(insts: seq<Inst>, uses: seq<Inst>, pins: seq<Pin>, origin: Vec2)

  datatype InstData = InstData(orientation: Orientation, pos: Vec2)

  datatype GeoData = GeoData(cell: Cell?, layers: seq<Layer>)

  datatype LayerData = LayerData(lines: seq<Line>, shapes: seq<Shape>)

  /** Everything in a design that a user puts there and no update changes. */
  datatype Content = Content(cells: map<Cell, CellData>, insts: map<Inst, InstData>,
                             geos: map<Geometry, GeoData>, layers: map<Layer, LayerData>)

  function CellDataOf(c: Cell): CellData
    reads c`insts, c`uses, c`pins, c`origin
  {
    CellData(c.insts, c.uses, c.pins, c.origin)
  }

  function InstDataOf(i: Inst): InstData
    reads i`orientation, i`pos
  {
    InstData(i.orientation, i.pos)
  }

  function GeoDataOf(g: Geometry): GeoData
    reads g`cell, g`layers
  {
    GeoData(g.cell, g.layers)
  }

  function LayerDataOf(l: Layer): LayerData
    reads l`lines, l`shapes
  {
    LayerData(l.lines, l.shapes)
  }

  ghost function CellDatas(cells: set<Cell>): (m: map<Cell, CellData>)
    reads cells`insts, cells`uses, cells`pins, cells`origin
    ensures m.Keys == cells && forall c {:trigger m[c]} :: c in cells ==> m[c] == CellDataOf(c)
  {
    map c | c in cells :: CellDataOf(c)
  }

  ghost function InstDatas(insts: set<Inst>): (m: map<Inst, InstData>)
    reads insts`orientation, insts`pos
    ensures m.Keys == insts && forall i {:trigger m[i]} :: i in insts ==> m[i] == InstDataOf(i)
  {
    map i | i in insts :: InstDataOf(i)
  }

  ghost function GeoDatas(geos: set<Geometry>): (m: map<Geometry, GeoData>)
    reads geos`cell, geos`layers
    ensures m.Keys == geos && forall g {:trigger m[g]} :: g in geos ==> m[g] == GeoDataOf(g)
  {
    map g | g in geos :: GeoDataOf(g)
  }

  ghost function LayerDatas(layers: set<Layer>): (m: map<Layer, LayerData>)
    reads layers`lines, layers`shapes
    ensures m.Keys == layers && forall l {:trigger m[l]} :: l in layers ==> m[l] == LayerDataOf(l)
  {
    map l | l in layers :: LayerDataOf(l)
  }

  ghost function ContentOf(w: World): Content
    reads w.cells`insts, w.cells`uses, w.cells`pins, w.cells`origin, w.insts`orientation, w.insts`pos
    reads w.geos`cell, w.geos`layers, w.layers`lines, w.layers`shapes
  {
    Content(CellDatas(w.cells), InstDatas(w.insts), GeoDatas(w.geos), LayerDatas(w.layers))
  }

  // The bits of the objects other than b.
  ghost function CellRest(c: Cell, b: Bit): set<Bit>
    reads c`invalid
  {
    c.invalid - {b}
  }

  ghost function InstRest(i: Inst, b: Bit): set<Bit>
    reads i`invalid
  {
    i.invalid - {b}
  }

  ghost function CellRests(cells: set<Cell>, b: Bit): (m: map<Cell, set<Bit>>)
    reads cells`invalid
    ensures m.Keys == cells && forall c {:trigger m[c]} :: c in cells ==> m[c] == CellRest(c, b)
  {
    map c | c in cells :: CellRest(c, b)
  }

  ghost function InstRests(insts: set<Inst>, b: Bit): (m: map<Inst, set<Bit>>)
    reads insts`invalid
    ensures m.Keys == insts && forall i {:trigger m[i]} :: i in insts ==> m[i] == InstRest(i, b)
  {
    map i | i in insts :: InstRest(i, b)
  }

  lemma {:induction false} SameMap<K, V>(m: map<K, V>, m': map<K, V>)
    requires m.Keys == m'.Keys && forall x :: x in m ==> m[x] == m'[x]
    ensures m == m'
  {
  }

  lemma {:induction false} OneChanged<K, V>(m: map<K, V>, m': map<K, V>, key: K)
    requires m'.Keys == m.Keys && key in m && forall x :: x in m && x != key ==> m'[x] == m[x]
    ensures m' == m[key := m'[key]]
  {
  }

  // --- How the objects point to each other -----------------------------------

  ghost predicate WfCell(k: Content, c: Cell)
    requires c in k.cells
  {
    && c.geo in k.geos && k.geos[c.geo].cell == c
    && (forall n :: 0 <= n < |k.cells[c].insts| ==> k.cells[c].insts[n] in k.insts && k.cells[c].insts[n].parent == c)
    && (forall n :: 0 <= n < |k.cells[c].uses| ==> k.cells[c].uses[n] in k.insts && k.cells[c].uses[n].cell == c)
    && (forall n :: 0 <= n < |k.cells[c].pins| ==> k.cells[c].pins[n].geo in k.geos && k.geos[k.cells[c].pins[n].geo].cell == c)
  }

  ghost predicate WfInst(k: Content, i: Inst) {
    && i.cell in k.cells && i.parent in k.cells
    && i in k.cells[i.cell].uses && i in k.cells[i.parent].insts
  }

  ghost predicate WfGeo(k: Content, g: Geometry)
    requires g in k.geos
  {
    && k.geos[g].cell != null && k.geos[g].cell in k.cells
    && OwnsGeo(k, k.geos[g].cell, g)
    && forall n :: 0 <= n < |k.geos[g].layers| ==> k.geos[g].layers[n] in k.layers && k.geos[g].layers[n].geo == g
  }

  // The geometry is the cell's own or that of one of its pins.
  ghost predicate OwnsGeo(k: Content, c: Cell, g: Geometry)
    requires c in k.cells
  {
    g == c.geo || exists n :: 0 <= n < |k.cells[c].pins| && k.cells[c].pins[n].geo == g
  }

  ghost predicate WfLayer(k: Content, l: Layer) {
    l.geo in k.geos && l in k.geos[l.geo].layers
  }

  ghost predicate Wf(k: Content) {
    && (forall c {:trigger WfCell(k, c)} :: c in k.cells ==> WfCell(k, c))
    && (forall i {:trigger WfInst(k, i)} :: i in k.insts ==> WfInst(k, i))
    && (forall g {:trigger WfGeo(k, g)} :: g in k.geos ==> WfGeo(k, g))
    && (forall l {:trigger WfLayer(k, l)} :: l in k.layers ==> WfLayer(k, l))
  }

  // --- The graph along which invalidation travels ---------------------------

  datatype Node = CellNode(cell: Cell) | InstNode(inst: Inst)

  ghost function Nodes(w: World): (s: set<Node>)
    ensures forall c :: c in w.cells ==> CellNode(c) in s
    ensures forall i :: i in w.insts ==> InstNode(i) in s
    ensures forall n :: n in s ==> if n.CellNode? then n.cell in w.cells else n.inst in w.insts
  {
    (set c | c in w.cells :: CellNode(c)) + (set i | i in w.insts :: InstNode(i))
  }

  ghost function Users(c: Cell): (s: set<Node>)
    reads c`uses
    ensures forall k :: 0 <= k < |c.uses| ==> InstNode(c.uses[k]) in s
    ensures forall n :: n in s ==> exists k :: 0 <= k < |c.uses| && n == InstNode(c.uses[k])
  {
    set i | i in c.uses :: InstNode(i)
  }

  ghost function Above(w: World, n: Node): set<Node>
    requires n in Nodes(w)
    reads w.cells`uses
  {
    match n
    case CellNode(c) => Users(c)
    case InstNode(i) => {CellNode(i.parent)}
  }

  /** A cell leads to the instances that use it, an instance to its parent. */
  ghost function Graph(w: World): (up: map<Node, set<Node>>)
    reads w.cells`uses
    ensures up.Keys == Nodes(w)
    ensures forall n :: n in up ==> up[n] == Above(w, n)
  {
    map n | n in Nodes(w) :: Above(w, n)
  }

  ghost function InvalidOf(w: World, n: Node): set<Bit>
    requires n in Nodes(w)
    reads w.cells`invalid, w.insts`invalid
  {
    match n
    case CellNode(c) => c.invalid
    case InstNode(i) => i.invalid
  }

  ghost function Invalid(w: World): (m: map<Node, set<Bit>>)
    reads w.cells`invalid, w.insts`invalid
    ensures m.Keys == Nodes(w)
    ensures forall n :: n in m ==> m[n] == InvalidOf(w, n)
  {
    map n | n in Nodes(w) :: InvalidOf(w, n)
  }

  lemma {:induction false} WfGraph(w: World)
    requires Wf(ContentOf(w))
    ensures IsGraph(Graph(w))
  {
    var k, up := ContentOf(w), Graph(w);
    forall n | n in up ensures up[n] <= up.Keys {
      match n
      case CellNode(c) => assert WfCell(k, c) && k.cells[c] == CellDataOf(c);
      case InstNode(i) => assert WfInst(k, i);
    }
  }
}
