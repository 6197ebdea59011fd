/**
 * The road grid of helper/road.js.
 *
 * `roadGrids[row][col]` is a pair `[symbol, signature]`.  Toggling a cell
 * (`handleAddRoadToGrid`) either clears a road or lays a provisional one, then
 * re-resolves the cell and its road neighbours (`handleSetSymbol`): each
 * neighbour is classified as Main or Normal, a signature is built from the
 * classes, and the signature's symbol is looked up.  The grid is a rectangular
 * array of rows held by a `RoadGrids` object whose methods rewrite it; the scene
 * is reached only through `findMesh`, a parameter, and the scene calls
 * (`deleteMesh`, `addGrass`, `addRoadMesh`) are returned as an event log.
 */
module RoadGrid {
  import opened Wrappers
  import opened RoadTables

  datatype Cell = Cell(symbol: Symbol, sig: Signature)

  /** A cleared cell `[" ", ["-", "-", "-", "-"]]`. */
  const EmptyCell := Cell(Str(" "), [Dash, Dash, Dash, Dash])

  /** The provisional road `["━", ["-", "M", "-", "M"]]` laid before resolution. */
  const ProvisionalCell := Cell(Str("━"), [Dash, M, Dash, M])

  type Grid = seq<seq<Cell>>

  /** Every row is as long as the first; `getGridElement` measures columns on row 0. */
  predicate Rectangular(g: Grid)
  {
    forall i :: 0 <= i < |g| ==> |g[i]| == |g[0]|
  }

  predicate InBounds(g: Grid, row: int, col: int)
  {
    0 <= row < |g| && 0 <= col < |g[0]|
  }

  /** `grid[row][col] := c`. */
  function Set(g: Grid, row: int, col: int, c: Cell): (r: Grid)
    requires Rectangular(g) && InBounds(g, row, col)
    ensures Rectangular(r) && |r| == |g| && |r[0]| == |g[0]|
    ensures forall i, j :: InBounds(g, i, j) ==> r[i][j] == if i == row && j == col then c else g[i][j]
  {
    g[row := g[row][col := c]]
  }

  /** `isRoad(road)`: present and not blank; a cell whose symbol is `undefined` counts as a road. */
  predicate IsRoad(road: Option<Cell>)
  {
    road.Some? && road.value.symbol != Str(" ")
  }

  /** `getGridElement({ row, col, roadGrids })`: the cell, or `null` outside the grid. */
  function GetGridElement(g: Grid, row: int, col: int): (r: Option<Cell>)
    requires Rectangular(g)
    ensures r.Some? <==> InBounds(g, row, col)
    ensures r.Some? ==> r.value == g[row][col]
  {
    if row >= 0 && row < |g| && col >= 0 && col < |g[0]| then Some(g[row][col]) else None
  }

  /** The result of `getNeightborRoad`: the four neighbours and the cell itself. */
  datatype Around = Around(top: Option<Cell>, right: Option<Cell>, bottom: Option<Cell>,
                           left: Option<Cell>, self: Option<Cell>)
  {
    /** Neighbour `i`, counting top, right, bottom, left. */
    function Side(i: int): Option<Cell>
      requires 0 <= i < 4
    {
      if i == 0 then top else if i == 1 then right else if i == 2 then bottom else left
    }

    /** `roads.filter(Boolean).length`: how many neighbours are roads. */
    function RoadCount(): (n: nat)
      ensures n <= 4
      ensures n == 0 <==> !IsRoad(top) && !IsRoad(right) && !IsRoad(bottom) && !IsRoad(left)
    {
      (if IsRoad(top) then 1 else 0) + (if IsRoad(right) then 1 else 0) +
      (if IsRoad(bottom) then 1 else 0) + (if IsRoad(left) then 1 else 0)
    }
  }

  /** `getNeightborRoad({ col, row, roadGrids })`. */
  function GetNeighbourRoad(g: Grid, row: int, col: int): Around
    requires Rectangular(g)
  {
    Around(GetGridElement(g, row - 1, col), GetGridElement(g, row, col + 1),
           GetGridElement(g, row + 1, col), GetGridElement(g, row, col - 1),
           GetGridElement(g, row, col))
  }

  /** `countIntersect({ col, row, roadGrids })`: the number of road neighbours, 0 to 4. */
  function CountIntersect(g: Grid, row: int, col: int): (n: nat)
    requires Rectangular(g)
    ensures n <= 4
  {
    GetNeighbourRoad(g, row, col).RoadCount()
  }

  // ---------------------------------------------------------------------------
  // Classifying a neighbour
  // ---------------------------------------------------------------------------

  /** `road[1].filter((r) => r !== "-")`. */
  function NonDash(s: seq<Slot>): (r: seq<Slot>)
    ensures |r| <= |s|
    ensures forall x :: x in r <==> x in s && x != Dash
  {
    if s == [] then []
    else (if s[0] != Dash then [s[0]] else []) + NonDash(s[1..])
  }

  /** `arr[i]`, which is `undefined` past the end. */
  function At(s: seq<Slot>, i: nat): Slot
  {
    if i < |s| then s[i] else Undef
  }

  /**
   * `isRoadMainOrNormal({ type, indexs, road })`: a road neighbour is of class
   * `kind` if its only two arms are both `kind`, or if its slot facing the cell
   * (`indexs.0`) is `kind`, or if that slot is `-` and both perpendicular slots are `kind`.
   */
  predicate IsRoadMainOrNormal(kind: Slot, indexs: (int, int, int), road: Option<Cell>)
    requires 0 <= indexs.0 < 4 && 0 <= indexs.1 < 4 && 0 <= indexs.2 < 4
  {
    if !IsRoad(road) then false
    else
      var sig := road.value.sig;
      var vals := NonDash(sig);
      if |vals| == 2 && forall r :: r in vals ==> r == kind then true
      else sig[indexs.0] == kind || (sig[indexs.0] == Dash && sig[indexs.1] == kind && sig[indexs.2] == kind)
  }

  /** The `indexs` `handleSetSymbol` passes for neighbour `i`: the facing slot, then the two perpendicular ones. */
  function Indexs(i: int): (ix: (int, int, int))
    requires 0 <= i < 4
    ensures ix.0 == (i + 2) % 4
    ensures {ix.1, ix.2} == {(i + 1) % 4, (i + 3) % 4}
  {
    if i == 0 then (2, 1, 3) else if i == 1 then (3, 0, 2) else if i == 2 then (0, 1, 3) else (1, 0, 2)
  }

  predicate Main(a: Around, i: int)
    requires 0 <= i < 4
  {
    IsRoadMainOrNormal(M, Indexs(i), a.Side(i))
  }

  predicate Normal(a: Around, i: int)
    requires 0 <= i < 4
  {
    IsRoadMainOrNormal(N, Indexs(i), a.Side(i))
  }

  /** No neighbour is both Main and Normal, so the order of the two assignments never matters. */
  lemma MainNormalExclusive(road: Option<Cell>, ix: (int, int, int))
    requires 0 <= ix.0 < 4 && 0 <= ix.1 < 4 && 0 <= ix.2 < 4 && ix.0 != ix.1 && ix.0 != ix.2 && ix.1 != ix.2
    ensures !(IsRoadMainOrNormal(M, ix, road) && IsRoadMainOrNormal(N, ix, road))
  {
    if IsRoad(road) {
      var s := road.value.sig;
      var vals := NonDash(s);
      assert s[ix.0] in s && s[ix.1] in s && s[ix.2] in s;
      assert |vals| == 2 ==> vals[0] in vals;
    }
  }

  /**
   * Neighbour `i` is of class `kind` exactly when it is a road and either its two
   * arms are both `kind` (from whichever side it is seen), or its slot facing the
   * cell, `(i + 2) % 4`, is `kind`, or that slot is `-` and both slots across the
   * line between them are `kind`.
   */
  lemma ClassBySide(a: Around, i: int, kind: Slot)
    requires 0 <= i < 4
    ensures var road := a.Side(i);
            IsRoadMainOrNormal(kind, Indexs(i), road) <==>
              IsRoad(road) &&
              var sig := road.value.sig;
              || (|NonDash(sig)| == 2 && forall r :: r in NonDash(sig) ==> r == kind)
              || sig[(i + 2) % 4] == kind
              || (sig[(i + 2) % 4] == Dash && sig[(i + 1) % 4] == kind && sig[(i + 3) % 4] == kind)
  {
    var ix := Indexs(i);
    assert (ix.1 == (i + 1) % 4 && ix.2 == (i + 3) % 4) || (ix.1 == (i + 3) % 4 && ix.2 == (i + 1) % 4) by {
      assert ix.1 in {ix.1, ix.2};
      assert ix.2 in {ix.1, ix.2};
    }
  }

  /** The slot value a neighbour's class gives before any count-specific rule. */
  function ClassSlot(a: Around, i: int): Slot
    requires 0 <= i < 4
  {
    if Normal(a, i) then N else if Main(a, i) then M else Dash
  }

  /**
   * The signature after the eight class assignments: each slot starts as `-` and is
   * set only from its own neighbour, to `M` exactly when the neighbour is Main and
   * to `N` exactly when it is Normal (`PreliminarySlots`).
   */
  function Preliminary(a: Around): Signature
  {
    [ClassSlot(a, 0), ClassSlot(a, 1), ClassSlot(a, 2), ClassSlot(a, 3)]
  }

  lemma PreliminarySlots(a: Around, i: int)
    requires 0 <= i < 4
    ensures var v := Preliminary(a);
            && (v[i] == M <==> Main(a, i))
            && (v[i] == N <==> Normal(a, i))
            && (v[i] == Dash <==> !Main(a, i) && !Normal(a, i))
  {
    MainNormalExclusive(a.Side(i), Indexs(i));
  }

  // ---------------------------------------------------------------------------
  // Building the signature
  // ---------------------------------------------------------------------------

  /** The signature `handleSetSymbol` computes, and whether it is the cell's own array (`roadVal = self[1]`). */
  datatype Resolution = Resolution(sig: Signature, selfJoin: bool)

  function If(b: bool, s: Slot): Slot
  {
    if b then s else Dash
  }

  /** The two-road rule: a Main arm meeting a Normal arm across the cell. */
  function TwoRoads(a: Around, v: Signature): Signature
  {
    if (Main(a, 0) || Main(a, 2)) && (Normal(a, 3) || Normal(a, 1)) then
      [If(Main(a, 0), M), N, If(Main(a, 2), M), N]
    else if (Main(a, 3) || Main(a, 1)) && (Normal(a, 0) || Normal(a, 2)) then
      [N, If(Main(a, 1), M), N, If(Main(a, 3), M)]
    else v
  }

  /** The three-road rule: a Main pair crossed by a Normal arm, or the reverse. */
  function ThreeRoads(a: Around, v: Signature): Signature
  {
    if Main(a, 0) && Main(a, 2) && (Normal(a, 3) || Normal(a, 1)) then [M, N, M, N]
    else if Normal(a, 0) && Normal(a, 2) && (Main(a, 3) || Main(a, 1)) then [N, M, N, M]
    else v
  }

  /** `[`${x}${y}`, `${y}${x}`].includes("MN")`. */
  predicate MixedPair(x: Slot, y: Slot)
  {
    (x == M && y == N) || (x == N && y == M)
  }

  /**
   * The three- and four-road rules: a cell whose own signature mixes classes on
   * one axis keeps that axis and takes the other from the neighbours (this
   * rewrites the cell's own array); otherwise an axis whose ends disagree is
   * evened out from the crossing arm.
   */
  function Junction(a: Around, v: Signature, s: Signature): Resolution
  {
    var isT, isR, isB, isL := IsRoad(a.top), IsRoad(a.right), IsRoad(a.bottom), IsRoad(a.left);
    if MixedPair(s[0], s[2]) then
      Resolution(if Normal(a, 3) || Normal(a, 1) then s[1 := N][3 := N]
                 else if Main(a, 3) || Main(a, 1) then s[1 := M][3 := M]
                 else s, true)
    else if MixedPair(s[1], s[3]) then
      Resolution(if Normal(a, 0) || Normal(a, 2) then s[0 := N][2 := N]
                 else if Main(a, 0) || Main(a, 2) then s[0 := M][2 := M]
                 else s, true)
    else if isT && isB && v[0] != v[2] then
      Resolution(if isL then v[1 := v[3]] else if isR then v[3 := v[1]] else v, false)
    else if isL && isR && v[1] != v[3] then
      Resolution(if isT then v[2 := v[0]] else if isB then v[0 := v[2]] else v, false)
    else
      Resolution(v, false)
  }

  /**
   * The one-road rule: a straight through the cell along the neighbour's axis,
   * from the first two classes of the cell's own signature, with the end at the
   * neighbour taken from the neighbour's facing slot when that is not `-`.
   */
  function OneRoad(a: Around, s: Signature): Signature
    requires a.RoadCount() == 1
  {
    var own := NonDash(s);
    var isT, isR, isB, isL := IsRoad(a.top), IsRoad(a.right), IsRoad(a.bottom), IsRoad(a.left);
    // With one road neighbour, `isLeft || isRight` holds whenever `isTop || isBottom` does not.
    var w := if isT || isB then [At(own, 0), Dash, At(own, 1), Dash]
             else [Dash, At(own, 0), Dash, At(own, 1)];
    if isT && a.top.value.sig[2] != Dash then w[0 := a.top.value.sig[2]]
    else if isB && a.bottom.value.sig[0] != Dash then w[2 := a.bottom.value.sig[0]]
    else if isL && a.left.value.sig[1] != Dash then w[3 := a.left.value.sig[1]]
    else if isR && a.right.value.sig[3] != Dash then w[1 := a.right.value.sig[3]]
    else w
  }

  /** The signature `handleSetSymbol` builds for a cell from its surroundings. */
  function Resolve(a: Around): Resolution
    requires a.self.Some?
  {
    // The count-specific rules apply to disjoint counts, so they are taken in turn.
    var s := a.self.value.sig;
    var n := a.RoadCount();
    if n == 0 then Resolution([s[0], s[3], s[0], s[3]], false)
    else if n == 1 then Resolution(OneRoad(a, s), false)
    else if n == 2 then Resolution(TwoRoads(a, Preliminary(a)), false)
    else if n == 3 then Junction(a, ThreeRoads(a, Preliminary(a)), s)
    else Junction(a, Preliminary(a), s)
  }

  /**
   * A cell with no road neighbours keeps its own top and left classes, mirrored
   * onto bottom and right, so a lone provisional road resolves to the Main
   * straight `━`.
   */
  lemma NoNeighbours(a: Around)
    requires a.self.Some? && a.RoadCount() == 0
    ensures var s := a.self.value.sig;
            Resolve(a) == Resolution([s[0], s[3], s[0], s[3]], false)
    ensures a.self == Some(ProvisionalCell) ==> Assign(Resolve(a).sig) == Str("━")
  {
  }

  /**
   * A cell with exactly one road neighbour, on side `d`, becomes a straight along
   * that neighbour's axis: the crossing slots are `-`, the end facing the neighbour
   * copies the neighbour's facing slot when that is not `-`, and the other slots
   * come from the first two classes of the cell's own signature.
   */
  lemma OneNeighbour(a: Around, d: int)
    requires a.self.Some? && 0 <= d < 4 && IsRoad(a.Side(d)) && a.RoadCount() == 1
    ensures var r := Resolve(a).sig;
            var own := NonDash(a.self.value.sig);
            var facing := a.Side(d).value.sig[(d + 2) % 4];
            && r[(d + 1) % 4] == Dash && r[(d + 3) % 4] == Dash
            && r[d] == (if facing != Dash then facing else At(own, if d < 2 then 0 else 1))
            && r[(d + 2) % 4] == At(own, if d < 2 then 1 else 0)
            && !Resolve(a).selfJoin
  {
    assert a.Side(0) == a.top && a.Side(1) == a.right && a.Side(2) == a.bottom && a.Side(3) == a.left;
  }

  /**
   * In a three- or four-way junction whose own vertical ends mix Main and Normal,
   * the cell keeps those ends and the new signature is the cell's own array, which
   * is therefore rewritten even when the grid entry is not.
   */
  lemma SelfJoinKeepsAxis(a: Around)
    requires a.self.Some? && (a.RoadCount() == 3 || a.RoadCount() == 4)
    requires MixedPair(a.self.value.sig[0], a.self.value.sig[2])
    ensures Resolve(a).selfJoin
    ensures Resolve(a).sig[0] == a.self.value.sig[0] && Resolve(a).sig[2] == a.self.value.sig[2]
  {
  }

  /**
   * With two road neighbours, a Main road above that does not continue below and a
   * Normal road on the left give the T signature `MN-N`, whatever the cell held.
   */
  lemma MainAboveNormalLeft(a: Around)
    requires a.self.Some? && a.RoadCount() == 2
    requires Main(a, 0) && Normal(a, 3) && !Main(a, 2)
    ensures Resolve(a) == Resolution([M, N, Dash, N], false)
  {
  }

  /** The classes of the two neighbours in the corner of `CornerBecomesT`. */
  lemma CornerClasses(a: Around)
    requires a == Around(Some(Cell(Str("┃"), [M, Dash, M, Dash])), None, None,
                         Some(Cell(Str("─"), [Dash, N, Dash, N])), Some(ProvisionalCell))
    ensures a.RoadCount() == 2 && Main(a, 0) && Normal(a, 3) && !Main(a, 2)
  {
    assert NonDash([M, Dash, M, Dash]) == [M, M] by {
      assert [M, Dash, M, Dash][1..] == [Dash, M, Dash];
      assert [Dash, M, Dash][1..] == [M, Dash];
      assert [M, Dash][1..] == [Dash];
    }
    assert NonDash([Dash, N, Dash, N]) == [N, N] by {
      assert [Dash, N, Dash, N][1..] == [N, Dash, N];
      assert [N, Dash, N][1..] == [Dash, N];
      assert [Dash, N][1..] == [N];
    }
    assert M in [M, M] && N in [N, N];
  }

  /**
   * A new road in the corner between a Main road above and a Normal road to its
   * left is given the T-junction symbol `┸` (signature `MN-N`), whose right arm
   * leads nowhere.
   */
  lemma CornerBecomesT()
    ensures var a := Around(Some(Cell(Str("┃"), [M, Dash, M, Dash])), None, None,
                            Some(Cell(Str("─"), [Dash, N, Dash, N])), Some(ProvisionalCell));
            Resolve(a) == Resolution([M, N, Dash, N], false) && Assign(Resolve(a).sig) == Str("┸")
  {
    var a := Around(Some(Cell(Str("┃"), [M, Dash, M, Dash])), None, None,
                    Some(Cell(Str("─"), [Dash, N, Dash, N])), Some(ProvisionalCell));
    CornerClasses(a);
    MainAboveNormalLeft(a);
    assert Assign([M, N, Dash, N]) == Str("┸");
  }

  // ---------------------------------------------------------------------------
  // Writing the symbol
  // ---------------------------------------------------------------------------

  /** A world position of a cell. */
  datatype WorldPos = WorldPos(x: real, y: real, z: real)

  /** The scene calls `handleAddRoadToGrid` and `handleSetSymbol` make, in order. */
  datatype Event =
    | DeleteMesh(at: WorldPos, mesh: Option<string>)
    | AddGrass(at: WorldPos)
    | AddRoadMesh(at: WorldPos, name: Symbol, details: Details)

  /** `findMesh({ position, notInCludeName })`: the name of the mesh found at a position, if any. */
  type MeshFinder = (WorldPos, seq<string>) -> Option<string>

  const SymbolExclusions: seq<string> := ["Building", "Preview Road", "Vehicle", "Arrow"]
  const ToggleExclusions: seq<string> := ["Building", "Preview Road"]

  /** `!roadMesh || roadMesh?.name === "Grass" || roadMesh?.name !== assignName`. */
  predicate ShouldWrite(mesh: Option<string>, name: Symbol)
  {
    mesh.None? || mesh.value == "Grass" || Str(mesh.value) != name
  }

  /**
   * The Grass test is subsumed: the entry is rewritten exactly when no mesh is
   * found or the mesh's name differs from the looked-up symbol.
   */
  lemma WriteUnlessSameMesh(mesh: Option<string>, sig: Signature)
    ensures ShouldWrite(mesh, Assign(sig)) <==> !(mesh.Some? && Assign(sig) == Str(mesh.value))
  {
    assert Assign(sig) != Str("Grass");
  }

  /** The cell after `handleSetSymbol`. */
  function NewCell(self: Cell, r: Resolution, mesh: Option<string>): Cell
  {
    var name := Assign(r.sig);
    if ShouldWrite(mesh, name) then Cell(name, r.sig)
    else if r.selfJoin then Cell(self.symbol, r.sig)
    else self
  }

  /** The scene calls of `handleSetSymbol`. */
  function SetSymbolEvents(position: WorldPos, r: Resolution, mesh: Option<string>): seq<Event>
  {
    var name := Assign(r.sig);
    if ShouldWrite(mesh, name) then
      (if mesh.Some? then [DeleteMesh(position, mesh)] else []) + [AddRoadMesh(position, name, RoadDetails(name))]
    else []
  }

  /** A grid together with the scene calls that produced it. */
  datatype Outcome = Outcome(grid: Grid, events: seq<Event>)

  /** `handleSetSymbol` on cell `(row, col)`, over values. */
  function SetSymbol(g: Grid, row: int, col: int, position: WorldPos, findMesh: MeshFinder): (o: Outcome)
    requires Rectangular(g) && InBounds(g, row, col)
    ensures Rectangular(o.grid) && |o.grid| == |g| && |o.grid[0]| == |g[0]|
  {
    var r := Resolve(GetNeighbourRoad(g, row, col));
    var mesh := findMesh(position, SymbolExclusions);
    Outcome(Set(g, row, col, NewCell(g[row][col], r, mesh)), SetSymbolEvents(position, r, mesh))
  }

  /**
   * `handleSetSymbol` changes only its own cell, and a road stays a road: the new
   * symbol is either the old one or one looked up in the table, never blank.
   */
  lemma SetSymbolFacts(g: Grid, row: int, col: int, position: WorldPos, findMesh: MeshFinder)
    requires Rectangular(g) && InBounds(g, row, col)
    ensures var o := SetSymbol(g, row, col, position, findMesh);
            && (forall i, j :: InBounds(g, i, j) && (i != row || j != col) ==> o.grid[i][j] == g[i][j])
            && (IsRoad(Some(g[row][col])) ==> IsRoad(Some(o.grid[row][col])))
  {
    assert forall sig :: Assign(sig) != Str(" ");
  }

  class RoadGrids {
    var cells: Grid

    predicate Valid()
      reads this
    {
      Rectangular(cells)
    }

    constructor (cells: Grid)
      requires Rectangular(cells)
      ensures Valid() && this.cells == cells
    {
      this.cells := cells;
    }
  }

  /**
   * `handleSetSymbol({ col, row, roadGrids, position, ... })`: resolves the cell's
   * signature, and rewrites the entry (deleting the old mesh, adding the new one)
   * when the mesh there is missing, grass, or named differently.
   */
  method HandleSetSymbol(grid: RoadGrids, row: int, col: int, position: WorldPos, findMesh: MeshFinder)
    returns (events: seq<Event>)
    requires grid.Valid() && InBounds(grid.cells, row, col)
    modifies grid
    ensures grid.Valid()
    ensures Outcome(grid.cells, events) == SetSymbol(old(grid.cells), row, col, position, findMesh)
  {
    var around := GetNeighbourRoad(grid.cells, row, col);
    var r := Resolve(around);
    var cell := grid.cells[row][col];
    var assignName := Assign(r.sig);
    var roadMesh := findMesh(position, SymbolExclusions);
    events := [];
    if r.selfJoin {
      // `roadVal` is `self[1]`: writing its slots rewrote the cell's own signature.
      cell := cell.(sig := r.sig);
    }
    if roadMesh.None? || roadMesh.value == "Grass" || Str(roadMesh.value) != assignName {
      cell := Cell(assignName, r.sig);
      if roadMesh.Some? {
        events := [DeleteMesh(position, roadMesh)];
      }
      var details := GetRoadDetails(assignName);
      events := events + [AddRoadMesh(position, assignName, details)];
    }
    grid.cells := Set(grid.cells, row, col, cell);
  }

  // ---------------------------------------------------------------------------
  // Toggling a cell
  // ---------------------------------------------------------------------------

  /** One `executeRoad` entry: a cell to resolve and its road-neighbour count when pushed. */
  datatype Entry = Entry(col: int, row: int, position: WorldPos, intersects: nat)

  /** The grid after the toggle, before resolution: cleared, or the provisional road. */
  function Toggled(g: Grid, row: int, col: int): (t: Grid)
    requires Rectangular(g) && InBounds(g, row, col)
    ensures Rectangular(t) && |t| == |g| && |t[0]| == |g[0]|
  {
    if IsRoad(Some(g[row][col])) then Set(g, row, col, EmptyCell) else Set(g, row, col, ProvisionalCell)
  }

  /** The `executeRoad` list: each road neighbour, then the cell itself when a road was added. */
  function Execute(g: Grid, row: int, col: int, position: WorldPos): seq<Entry>
    requires Rectangular(g) && InBounds(g, row, col)
  {
    var a := GetNeighbourRoad(g, row, col);
    var isSelf := IsRoad(a.self);
    var g1 := if isSelf then Set(g, row, col, EmptyCell) else g;
    NeighbourEntries(a, row, col, position, NeighbourCounts(g1, row, col)) +
    Opt(!isSelf, Entry(col, row, position, CountIntersect(Toggled(g, row, col), row, col)))
  }

  /** The road-neighbour counts of the four cells next to `(row, col)`: top, right, bottom, left. */
  function NeighbourCounts(g: Grid, row: int, col: int): (nat, nat, nat, nat)
    requires Rectangular(g)
  {
    (CountIntersect(g, row - 1, col), CountIntersect(g, row, col + 1),
     CountIntersect(g, row + 1, col), CountIntersect(g, row, col - 1))
  }

  /** The entries for the road neighbours, with the counts taken after a removed road is cleared. */
  function NeighbourEntries(a: Around, row: int, col: int, position: WorldPos, n: (nat, nat, nat, nat)): seq<Entry>
  {
    Opt(IsRoad(a.top), Entry(col, row - 1, position.(z := position.z - 1.0), n.0)) +
    Opt(IsRoad(a.right), Entry(col + 1, row, position.(x := position.x + 1.0), n.1)) +
    Opt(IsRoad(a.bottom), Entry(col, row + 1, position.(z := position.z + 1.0), n.2)) +
    Opt(IsRoad(a.left), Entry(col - 1, row, position.(x := position.x - 1.0), n.3))
  }

  /** `order` lists each of `0 .. n - 1` once. */
  predicate Permutation(order: seq<nat>, n: nat)
  {
    |order| == n && (forall i :: 0 <= i < |order| ==> order[i] < n) &&
    (forall m :: 0 <= m < n ==> m in order) &&
    (forall i, j :: 0 <= i < j < |order| ==> order[i] != order[j])
  }

  predicate EntriesInBounds(g: Grid, entries: seq<Entry>)
  {
    forall e :: e in entries ==> InBounds(g, e.row, e.col)
  }

  /** `handleSetSymbol` on the entries picked by `order`, one after the other. */
  function ResolveAll(g: Grid, entries: seq<Entry>, order: seq<nat>, findMesh: MeshFinder): (o: Outcome)
    requires Rectangular(g) && EntriesInBounds(g, entries)
    requires forall i :: 0 <= i < |order| ==> order[i] < |entries|
    ensures Rectangular(o.grid) && |o.grid| == |g| && (|g| > 0 ==> |o.grid[0]| == |g[0]|)
  {
    if order == [] then Outcome(g, [])
    else
      var prev := ResolveAll(g, entries, order[..|order| - 1], findMesh);
      var e := entries[order[|order| - 1]];
      assert e in entries;
      var step := SetSymbol(prev.grid, e.row, e.col, e.position, findMesh);
      Outcome(step.grid, prev.events + step.events)
  }

  /** Resolving one more entry extends the outcome by that entry's `handleSetSymbol`. */
  lemma ResolveAllSnoc(g: Grid, entries: seq<Entry>, order: seq<nat>, i: nat, findMesh: MeshFinder)
    requires Rectangular(g) && EntriesInBounds(g, entries)
    requires forall k :: 0 <= k < |order| ==> order[k] < |entries|
    requires i < |order| && |g| > 0
    ensures var prev := ResolveAll(g, entries, order[..i], findMesh);
            var e := entries[order[i]];
            e in entries &&
            var step := SetSymbol(prev.grid, e.row, e.col, e.position, findMesh);
            ResolveAll(g, entries, order[..i + 1], findMesh) == Outcome(step.grid, prev.events + step.events)
  {
    assert order[..i + 1][..i] == order[..i];
    assert entries[order[i]] in entries;
  }

  /** The cells the entries name, in order. */
  function Coords(es: seq<Entry>): (cs: seq<(int, int)>)
    ensures |cs| == |es| && forall k :: 0 <= k < |es| ==> cs[k] == (es[k].row, es[k].col)
  {
    seq(|es|, k requires 0 <= k < |es| => (es[k].row, es[k].col))
  }

  lemma CoordsAppend(a: seq<Entry>, b: seq<Entry>)
    ensures Coords(a + b) == Coords(a) + Coords(b)
  {
    assert forall k :: 0 <= k < |a + b| ==> Coords(a + b)[k] == (Coords(a) + Coords(b))[k];
  }

  function Opt<T>(b: bool, x: T): seq<T>
  {
    if b then [x] else []
  }

  /**
   * The cells `handleAddRoadToGrid` resolves: each road neighbour (top, right,
   * bottom, left), then the cell itself when it was not a road.
   */
  function Spots(g: Grid, row: int, col: int): seq<(int, int)>
    requires Rectangular(g)
  {
    var a := GetNeighbourRoad(g, row, col);
    NeighbourSpots(a, row, col) + Opt(!IsRoad(a.self), (row, col))
  }

  function NeighbourSpots(a: Around, row: int, col: int): seq<(int, int)>
  {
    Opt(IsRoad(a.top), (row - 1, col)) + Opt(IsRoad(a.right), (row, col + 1)) +
    Opt(IsRoad(a.bottom), (row + 1, col)) + Opt(IsRoad(a.left), (row, col - 1))
  }

  /** `(r, c)` must be resolved after toggling `(row, col)`: a road neighbour, or the cell when a road was added. */
  predicate Touched(g: Grid, row: int, col: int, r: int, c: int)
    requires Rectangular(g) && InBounds(g, row, col)
  {
    (IsNeighbour(row, col, r, c) && IsRoad(GetGridElement(g, r, c))) ||
    (r == row && c == col && !IsRoad(Some(g[row][col])))
  }

  /** The entries name the spots, in the same order. */
  lemma ExecuteSpots(g: Grid, row: int, col: int, position: WorldPos)
    requires Rectangular(g) && InBounds(g, row, col)
    ensures Coords(Execute(g, row, col, position)) == Spots(g, row, col)
  {
    var a := GetNeighbourRoad(g, row, col);
    var g1 := if IsRoad(a.self) then Set(g, row, col, EmptyCell) else g;
    var e5 := Entry(col, row, position, CountIntersect(Toggled(g, row, col), row, col));
    var n := NeighbourCounts(g1, row, col);
    NeighbourCoords(a, row, col, position, n);
    CoordsOpt(!IsRoad(a.self), e5);
    CoordsAppend(NeighbourEntries(a, row, col, position, n), Opt(!IsRoad(a.self), e5));
  }

  lemma NeighbourCoords(a: Around, row: int, col: int, position: WorldPos, n: (nat, nat, nat, nat))
    ensures Coords(NeighbourEntries(a, row, col, position, n)) == NeighbourSpots(a, row, col)
  {
    var e1 := Entry(col, row - 1, position.(z := position.z - 1.0), n.0);
    var e2 := Entry(col + 1, row, position.(x := position.x + 1.0), n.1);
    var e3 := Entry(col, row + 1, position.(z := position.z + 1.0), n.2);
    var e4 := Entry(col - 1, row, position.(x := position.x - 1.0), n.3);
    CoordsOpt(IsRoad(a.top), e1);
    CoordsOpt(IsRoad(a.right), e2);
    CoordsOpt(IsRoad(a.bottom), e3);
    CoordsOpt(IsRoad(a.left), e4);
    CoordsFour(Opt(IsRoad(a.top), e1), Opt(IsRoad(a.right), e2), Opt(IsRoad(a.bottom), e3), Opt(IsRoad(a.left), e4),
               Opt(IsRoad(a.top), (row - 1, col)), Opt(IsRoad(a.right), (row, col + 1)),
               Opt(IsRoad(a.bottom), (row + 1, col)), Opt(IsRoad(a.left), (row, col - 1)));
  }

  lemma CoordsFour(p1: seq<Entry>, p2: seq<Entry>, p3: seq<Entry>, p4: seq<Entry>,
                   q1: seq<(int, int)>, q2: seq<(int, int)>, q3: seq<(int, int)>, q4: seq<(int, int)>)
    requires Coords(p1) == q1 && Coords(p2) == q2 && Coords(p3) == q3 && Coords(p4) == q4
    ensures Coords(p1 + p2 + p3 + p4) == q1 + q2 + q3 + q4
  {
    CoordsAppend(p1, p2);
    CoordsAppend(p1 + p2, p3);
    CoordsAppend(p1 + p2 + p3, p4);
  }

  lemma CoordsOpt(b: bool, e: Entry)
    ensures Coords(Opt(b, e)) == Opt(b, (e.row, e.col))
  {
  }

  /** The spots are exactly the cells that must be resolved. */
  lemma SpotsCover(g: Grid, row: int, col: int)
    requires Rectangular(g) && InBounds(g, row, col)
    ensures forall r, c :: (r, c) in Spots(g, row, col) <==> Touched(g, row, col, r, c)
  {
  }

  predicate Distinct<T(==)>(s: seq<T>)
  {
    forall i, j :: 0 <= i < j < |s| ==> s[i] != s[j]
  }

  lemma AppendDistinct<T>(s: seq<T>, t: seq<T>)
    requires Distinct(s) && Distinct(t) && forall x :: x in s ==> x !in t
    ensures Distinct(s + t)
  {
    forall i, j | 0 <= i < j < |s + t|
      ensures (s + t)[i] != (s + t)[j]
    {
      if j < |s| {
        assert (s + t)[i] == s[i] && (s + t)[j] == s[j];
      } else if i >= |s| {
        assert (s + t)[i] == t[i - |s|] && (s + t)[j] == t[j - |s|];
      } else {
        assert (s + t)[i] in s && (s + t)[j] in t;
      }
    }
  }

  /** No cell is resolved twice. */
  lemma SpotsDistinct(g: Grid, row: int, col: int)
    requires Rectangular(g) && InBounds(g, row, col)
    ensures Distinct(Spots(g, row, col))
  {
    var a := GetNeighbourRoad(g, row, col);
    var p1, p2, p3, p4, p5 := Opt(IsRoad(a.top), (row - 1, col)), Opt(IsRoad(a.right), (row, col + 1)),
                              Opt(IsRoad(a.bottom), (row + 1, col)), Opt(IsRoad(a.left), (row, col - 1)),
                              Opt(!IsRoad(a.self), (row, col));
    AppendDistinct(p1, p2);
    AppendDistinct(p1 + p2, p3);
    AppendDistinct(p1 + p2 + p3, p4);
    AppendDistinct(p1 + p2 + p3 + p4, p5);
  }

  /** Every entry is a cell of the grid. */
  lemma ExecuteInBounds(g: Grid, row: int, col: int, position: WorldPos)
    requires Rectangular(g) && InBounds(g, row, col)
    ensures EntriesInBounds(g, Execute(g, row, col, position))
    ensures EntriesInBounds(Toggled(g, row, col), Execute(g, row, col, position))
  {
    var es := Execute(g, row, col, position);
    ExecuteSpots(g, row, col, position);
    SpotsCover(g, row, col);
    forall e | e in es
      ensures InBounds(g, e.row, e.col)
    {
      var k :| 0 <= k < |es| && es[k] == e;
      assert Coords(es)[k] in Spots(g, row, col);
    }
  }

  /** `(r, c)` is one of the four cells next to `(row, col)`. */
  predicate IsNeighbour(row: int, col: int, r: int, c: int)
  {
    (r == row - 1 && c == col) || (r == row && c == col + 1) || (r == row + 1 && c == col) || (r == row && c == col - 1)
  }

  /** The scene calls of the toggle itself: a removed road is deleted and grass laid. */
  function ToggleEvents(g: Grid, row: int, col: int, position: WorldPos, findMesh: MeshFinder): seq<Event>
    requires Rectangular(g) && InBounds(g, row, col)
  {
    if IsRoad(Some(g[row][col])) then [DeleteMesh(position, findMesh(position, ToggleExclusions)), AddGrass(position)]
    else []
  }

  /** `handleAddRoadToGrid`, over values: the toggle's scene calls, then those of each resolution. */
  function AddRoad(g: Grid, row: int, col: int, position: WorldPos, findMesh: MeshFinder, order: seq<nat>): Outcome
    requires Rectangular(g) && InBounds(g, row, col)
    requires Permutation(order, |Spots(g, row, col)|)
  {
    ExecuteInBounds(g, row, col, position);
    ExecuteSpots(g, row, col, position);
    var toggle := ToggleEvents(g, row, col, position, findMesh);
    var r := ResolveAll(Toggled(g, row, col), Execute(g, row, col, position), order, findMesh);
    Outcome(r.grid, toggle + r.events)
  }

  /**
   * The first half of `handleAddRoadToGrid`: clears a road or lays the provisional
   * one, and lists the cells to resolve with their neighbour counts.
   */
  method ToggleCell(grid: RoadGrids, col: int, row: int, position: WorldPos, findMesh: MeshFinder)
    returns (events: seq<Event>, executeRoad: seq<Entry>)
    requires grid.Valid() && InBounds(grid.cells, row, col)
    modifies grid
    ensures grid.Valid()
    ensures grid.cells == Toggled(old(grid.cells), row, col)
    ensures executeRoad == Execute(old(grid.cells), row, col, position)
    ensures events == ToggleEvents(old(grid.cells), row, col, position, findMesh)
  {
    var cells := grid.cells;
    var a := GetNeighbourRoad(cells, row, col);
    var isTop, isRight, isBottom, isLeft, isSelf := IsRoad(a.top), IsRoad(a.right), IsRoad(a.bottom), IsRoad(a.left), IsRoad(a.self);
    executeRoad := [];
    events := [];
    if isSelf {
      cells := Set(cells, row, col, EmptyCell);
      var roadMesh := findMesh(position, ToggleExclusions);
      events := [DeleteMesh(position, roadMesh), AddGrass(position)];
    }
    ghost var g1, n := cells, NeighbourCounts(cells, row, col);
    ghost var e1 := Entry(col, row - 1, position.(z := position.z - 1.0), n.0);
    ghost var e2 := Entry(col + 1, row, position.(x := position.x + 1.0), n.1);
    ghost var e3 := Entry(col, row + 1, position.(z := position.z + 1.0), n.2);
    ghost var e4 := Entry(col - 1, row, position.(x := position.x - 1.0), n.3);
    if isTop {
      executeRoad := executeRoad + [Entry(col, row - 1, position.(z := position.z - 1.0), CountIntersect(cells, row - 1, col))];
    }
    assert executeRoad == Opt(isTop, e1);
    if isRight {
      executeRoad := executeRoad + [Entry(col + 1, row, position.(x := position.x + 1.0), CountIntersect(cells, row, col + 1))];
    }
    assert executeRoad == Opt(isTop, e1) + Opt(isRight, e2);
    if isBottom {
      executeRoad := executeRoad + [Entry(col, row + 1, position.(z := position.z + 1.0), CountIntersect(cells, row + 1, col))];
    }
    assert executeRoad == Opt(isTop, e1) + Opt(isRight, e2) + Opt(isBottom, e3);
    if isLeft {
      executeRoad := executeRoad + [Entry(col - 1, row, position.(x := position.x - 1.0), CountIntersect(cells, row, col - 1))];
    }
    assert executeRoad == NeighbourEntries(a, row, col, position, n);
    if !isSelf {
      cells := Set(cells, row, col, ProvisionalCell);
      executeRoad := executeRoad + [Entry(col, row, position, CountIntersect(cells, row, col))];
    }
    assert g1 == if isSelf then Set(old(grid.cells), row, col, EmptyCell) else old(grid.cells);
    assert cells == Toggled(old(grid.cells), row, col);
    assert executeRoad == NeighbourEntries(a, row, col, position, n) +
                          Opt(!isSelf, Entry(col, row, position, CountIntersect(cells, row, col)));
    grid.cells := cells;
  }

  /**
   * `handleAddRoadToGrid({ type, col, row, roadGrids, position, ... })`.  The `type`
   * argument is not used: an added road is always the provisional Main straight.
   * `order` is the order `executeRoad.sort` leaves the entries in; its comparator
   * `a.intersects - b.intersects ? -1 : 1` is not a consistent ordering, so any
   * permutation is allowed.
   */
  method HandleAddRoadToGrid(grid: RoadGrids, kind: string, col: int, row: int, position: WorldPos,
                             findMesh: MeshFinder, order: seq<nat>)
    returns (events: seq<Event>)
    requires grid.Valid() && InBounds(grid.cells, row, col)
    requires Permutation(order, |Spots(grid.cells, row, col)|)
    modifies grid
    ensures grid.Valid()
    ensures Outcome(grid.cells, events) == AddRoad(old(grid.cells), row, col, position, findMesh, order)
  {
    ghost var g0 := grid.cells;
    ExecuteInBounds(g0, row, col, position);
    ExecuteSpots(g0, row, col, position);
    var executeRoad;
    events, executeRoad := ToggleCell(grid, col, row, position, findMesh);
    var resolved := ResolveEntries(grid, executeRoad, order, findMesh);
    events := events + resolved;
  }

  /** `executeRoad.forEach(...)`: `handleSetSymbol` on each entry, in the sorted order. */
  method ResolveEntries(grid: RoadGrids, executeRoad: seq<Entry>, order: seq<nat>, findMesh: MeshFinder)
    returns (resolved: seq<Event>)
    requires grid.Valid() && |grid.cells| > 0 && EntriesInBounds(grid.cells, executeRoad)
    requires forall k :: 0 <= k < |order| ==> order[k] < |executeRoad|
    modifies grid
    ensures grid.Valid()
    ensures Outcome(grid.cells, resolved) == ResolveAll(old(grid.cells), executeRoad, order, findMesh)
  {
    ghost var g := grid.cells;
    resolved := [];
    for i := 0 to |order|
      invariant grid.Valid() && |grid.cells| == |g| && |grid.cells[0]| == |g[0]|
      invariant Outcome(grid.cells, resolved) == ResolveAll(g, executeRoad, order[..i], findMesh)
    {
      ResolveAllSnoc(g, executeRoad, order, i, findMesh);
      var entry := executeRoad[order[i]];
      var ev := HandleSetSymbol(grid, entry.row, entry.col, entry.position, findMesh);
      resolved := resolved + ev;
    }
    assert order[..|order|] == order;
  }

  // ---------------------------------------------------------------------------
  // What a toggle does to the grid
  // ---------------------------------------------------------------------------

  /** No entry picked by `order` names cell `p`. */
  predicate Unnamed(entries: seq<Entry>, order: seq<nat>, p: (int, int))
  {
    forall k :: 0 <= k < |order| && order[k] < |entries| ==> (entries[order[k]].row, entries[order[k]].col) != p
  }

  /** Resolving entries keeps every road a road. */
  lemma {:induction false} ResolveAllKeepsRoads(g: Grid, entries: seq<Entry>, order: seq<nat>, findMesh: MeshFinder,
                                                i: int, j: int)
    requires Rectangular(g) && EntriesInBounds(g, entries) && InBounds(g, i, j)
    requires forall k :: 0 <= k < |order| ==> order[k] < |entries|
    ensures IsRoad(Some(g[i][j])) ==> IsRoad(Some(ResolveAll(g, entries, order, findMesh).grid[i][j]))
  {
    if order != [] {
      var front := order[..|order| - 1];
      ResolveAllKeepsRoads(g, entries, front, findMesh, i, j);
      var prev := ResolveAll(g, entries, front, findMesh);
      var e := entries[order[|order| - 1]];
      assert e in entries;
      SetSymbolFacts(prev.grid, e.row, e.col, e.position, findMesh);
    }
  }

  /** Resolving entries changes only the cells they name. */
  lemma {:induction false} ResolveAllUntouched(g: Grid, entries: seq<Entry>, order: seq<nat>, findMesh: MeshFinder,
                                               i: int, j: int)
    requires Rectangular(g) && EntriesInBounds(g, entries) && InBounds(g, i, j)
    requires forall k :: 0 <= k < |order| ==> order[k] < |entries|
    requires Unnamed(entries, order, (i, j))
    ensures ResolveAll(g, entries, order, findMesh).grid[i][j] == g[i][j]
  {
    if order != [] {
      var front := order[..|order| - 1];
      assert Unnamed(entries, front, (i, j)) by {
        assert forall k :: 0 <= k < |front| ==> front[k] == order[k];
      }
      ResolveAllUntouched(g, entries, front, findMesh, i, j);
      var prev := ResolveAll(g, entries, front, findMesh);
      var e := entries[order[|order| - 1]];
      assert e in entries;
      SetSymbolFacts(prev.grid, e.row, e.col, e.position, findMesh);
    }
  }

  /** A cell the toggle does not touch is named by no entry. */
  lemma UntouchedUnnamed(g: Grid, row: int, col: int, position: WorldPos, order: seq<nat>, i: int, j: int)
    requires Rectangular(g) && InBounds(g, row, col) && !Touched(g, row, col, i, j)
    ensures Unnamed(Execute(g, row, col, position), order, (i, j))
  {
    var es := Execute(g, row, col, position);
    ExecuteSpots(g, row, col, position);
    SpotsCover(g, row, col);
    forall k | 0 <= k < |order| && order[k] < |es|
      ensures (es[order[k]].row, es[order[k]].col) != (i, j)
    {
      assert Coords(es)[order[k]] in Spots(g, row, col);
    }
  }

  /**
   * Toggling flips whether the cell is a road: a removed road is left blank, and an
   * added one is a road after every resolution.
   */
  lemma AddRoadToggles(g: Grid, row: int, col: int, position: WorldPos, findMesh: MeshFinder, order: seq<nat>)
    requires Rectangular(g) && InBounds(g, row, col)
    requires Permutation(order, |Spots(g, row, col)|)
    ensures var after := AddRoad(g, row, col, position, findMesh, order).grid[row][col];
            && (IsRoad(Some(after)) <==> !IsRoad(Some(g[row][col])))
            && (IsRoad(Some(g[row][col])) ==> after == EmptyCell)
  {
    if IsRoad(Some(g[row][col])) {
      RemovedRoadIsCleared(g, row, col, position, findMesh, order);
    } else {
      AddedRoadStays(g, row, col, position, findMesh, order);
    }
  }

  lemma RemovedRoadIsCleared(g: Grid, row: int, col: int, position: WorldPos, findMesh: MeshFinder, order: seq<nat>)
    requires Rectangular(g) && InBounds(g, row, col) && IsRoad(Some(g[row][col]))
    requires Permutation(order, |Spots(g, row, col)|)
    ensures AddRoad(g, row, col, position, findMesh, order).grid[row][col] == EmptyCell
  {
    ExecuteInBounds(g, row, col, position);
    ExecuteSpots(g, row, col, position);
    var t := Toggled(g, row, col);
    var es := Execute(g, row, col, position);
    UntouchedUnnamed(g, row, col, position, order, row, col);
    ResolveAllUntouched(t, es, order, findMesh, row, col);
  }

  lemma AddedRoadStays(g: Grid, row: int, col: int, position: WorldPos, findMesh: MeshFinder, order: seq<nat>)
    requires Rectangular(g) && InBounds(g, row, col) && !IsRoad(Some(g[row][col]))
    requires Permutation(order, |Spots(g, row, col)|)
    ensures IsRoad(Some(AddRoad(g, row, col, position, findMesh, order).grid[row][col]))
  {
    ExecuteInBounds(g, row, col, position);
    ExecuteSpots(g, row, col, position);
    var t := Toggled(g, row, col);
    var es := Execute(g, row, col, position);
    ResolveAllKeepsRoads(t, es, order, findMesh, row, col);
  }

  /**
   * Every other cell keeps its road status, and only the four neighbours of the
   * toggled cell can change at all.
   */
  lemma AddRoadKeepsOthers(g: Grid, row: int, col: int, position: WorldPos, findMesh: MeshFinder, order: seq<nat>)
    requires Rectangular(g) && InBounds(g, row, col)
    requires Permutation(order, |Spots(g, row, col)|)
    ensures var after := AddRoad(g, row, col, position, findMesh, order).grid;
            forall i, j :: InBounds(g, i, j) && (i != row || j != col) ==>
              (IsRoad(Some(after[i][j])) <==> IsRoad(Some(g[i][j]))) &&
              (!IsNeighbour(row, col, i, j) ==> after[i][j] == g[i][j])
  {
    forall i, j | InBounds(g, i, j) && (i != row || j != col)
      ensures var after := AddRoad(g, row, col, position, findMesh, order).grid;
              (IsRoad(Some(after[i][j])) <==> IsRoad(Some(g[i][j]))) &&
              (!IsNeighbour(row, col, i, j) ==> after[i][j] == g[i][j])
    {
      KeepsOther(g, row, col, position, findMesh, order, i, j);
    }
  }

  lemma KeepsOther(g: Grid, row: int, col: int, position: WorldPos, findMesh: MeshFinder, order: seq<nat>, i: int, j: int)
    requires Rectangular(g) && InBounds(g, row, col)
    requires Permutation(order, |Spots(g, row, col)|)
    requires InBounds(g, i, j) && (i != row || j != col)
    ensures var after := AddRoad(g, row, col, position, findMesh, order).grid;
            (IsRoad(Some(after[i][j])) <==> IsRoad(Some(g[i][j]))) &&
            (!IsNeighbour(row, col, i, j) ==> after[i][j] == g[i][j])
  {
    ExecuteInBounds(g, row, col, position);
    ExecuteSpots(g, row, col, position);
    var t := Toggled(g, row, col);
    var es := Execute(g, row, col, position);
    assert AddRoad(g, row, col, position, findMesh, order).grid == ResolveAll(t, es, order, findMesh).grid;
    assert t[i][j] == g[i][j];
    ResolveAllKeepsRoads(t, es, order, findMesh, i, j);
    if !IsNeighbour(row, col, i, j) || !IsRoad(Some(g[i][j])) {
      assert !Touched(g, row, col, i, j);
      UntouchedUnnamed(g, row, col, position, order, i, j);
      ResolveAllUntouched(t, es, order, findMesh, i, j);
    }
  }

  /**
   * Every entry is resolved exactly once: the cells resolved, in order, are
   * `Spots(g, row, col)[order[k]]` (`ExecuteSpots`), and they are pairwise
   * different and exactly the road neighbours plus the added cell.
   */
  lemma EachResolvedOnce(g: Grid, row: int, col: int, order: seq<nat>)
    requires Rectangular(g) && InBounds(g, row, col)
    requires Permutation(order, |Spots(g, row, col)|)
    ensures var sp := Spots(g, row, col);
            && (forall i, j :: 0 <= i < j < |order| ==> sp[order[i]] != sp[order[j]])
            && (forall r, c :: (exists k :: 0 <= k < |order| && sp[order[k]] == (r, c)) <==> Touched(g, row, col, r, c))
  {
    SpotsCover(g, row, col);
    SpotsDistinct(g, row, col);
    var sp := Spots(g, row, col);
    forall i, j | 0 <= i < j < |order|
      ensures sp[order[i]] != sp[order[j]]
    {
      assert order[i] != order[j];
    }
    forall r, c | Touched(g, row, col, r, c)
      ensures exists k :: 0 <= k < |order| && sp[order[k]] == (r, c)
    {
      var m :| 0 <= m < |sp| && sp[m] == (r, c);
      assert m in order;
      var k :| 0 <= k < |order| && order[k] == m;
    }
    forall k | 0 <= k < |order|
      ensures sp[order[k]] in sp
    {
    }
  }

  // ---------------------------------------------------------------------------
  // rotateRoadValToHorizontal
  // ---------------------------------------------------------------------------

  /** `rotateRoadValToHorizontal(roadVal)`: a signature with both vertical ends is turned onto the horizontal axis. */
  function RotateToHorizontal(sig: Signature): (r: Signature)
    ensures r[0] == Dash || r[2] == Dash
    ensures sig[0] == Dash || sig[2] == Dash ==> r == sig
  {
    if sig[0] != Dash && sig[2] != Dash then [Dash, sig[0], Dash, sig[2]] else sig
  }

  /** Rotating twice is rotating once, and a vertical straight becomes the matching horizontal one. */
  lemma RotateFacts(sig: Signature)
    ensures RotateToHorizontal(RotateToHorizontal(sig)) == RotateToHorizontal(sig)
    ensures Assign(RotateToHorizontal([M, Dash, N, Dash])) == Str("╼")
    ensures Assign(RotateToHorizontal([M, Dash, M, Dash])) == Str("━")
  {
  }
}
