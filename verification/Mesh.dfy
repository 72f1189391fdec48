/** Resolving mesh definitions against a host and its link graph (`mesh.go`). */
module Mesh {
  import opened Sequences
  import opened Topology

  const U32: int := 0x1_0000_0000

  /** The board type that `boardNameFor` calls "galaxy-blackhole". */
  const GALAXY_BLACKHOLE: uint32 := 10

  datatype MeshSlot = MeshSlot(trayId: uint32, asicLocation: uint32)

  datatype MeshDefinition = MeshDefinition(name: string, slug: string, rows: nat, cols: nat, slots: seq<MeshSlot>)

  /** A shape with a slot for each of its positions. */
  predicate WellShaped(d: MeshDefinition) { d.cols > 0 && |d.slots| == d.rows * d.cols }

  function SlotsOn(tray: uint32, locations: seq<uint32>): (r: seq<MeshSlot>)
    ensures |r| == |locations|
    ensures forall i :: 0 <= i < |r| ==> r[i] == MeshSlot(tray, locations[i])
  {
    seq(|locations|, i requires 0 <= i < |locations| => MeshSlot(tray, locations[i]))
  }

  /** Two rows of slots from one tray over two rows from another. */
  function Stacked(topTray: uint32, top: seq<uint32>, bottomTray: uint32, bottom: seq<uint32>): MeshDefinition {
    MeshDefinition("4x2_Mesh_horizontal", "4x2h", 4, 2, SlotsOn(topTray, top) + SlotsOn(bottomTray, bottom))
  }

  function BhGalaxyRevCMeshes(): (r: seq<MeshDefinition>)
    ensures |r| == 4
    ensures forall p :: 0 <= p < 4 ==> |r[p].slots| == 8 && WellShaped(r[p])
  {
    [ Stacked(2, [1, 2, 5, 6], 1, [5, 6, 1, 2]),
      Stacked(2, [3, 4, 7, 8], 1, [7, 8, 3, 4]),
      Stacked(4, [4, 3, 8, 7], 3, [8, 7, 4, 3]),
      Stacked(4, [2, 1, 6, 5], 3, [6, 5, 2, 1]) ]
  }

  function MeshDefinitionsFor(topo: HostTopology): seq<MeshDefinition> {
    if topo.revC then BhGalaxyRevCMeshes() else []
  }

  // ---- the slot index

  datatype MeshIndex = MeshIndex(bySlot: map<MeshSlot, HostBundle>, locationBase: uint32)

  function SlotOf(b: HostBundle): MeshSlot { MeshSlot(b.mmio.trayId, b.mmio.asicLocation) }

  /** Later bundles replace earlier ones that report the same slot. */
  function BySlot(bundles: seq<HostBundle>): (r: map<MeshSlot, HostBundle>)
    ensures forall s :: s in r ==> r[s] in bundles && SlotOf(r[s]) == s
  {
    if bundles == [] then map[]
    else
      var last := bundles[|bundles| - 1];
      assert bundles == bundles[..|bundles| - 1] + [last];
      BySlot(bundles[..|bundles| - 1])[SlotOf(last) := last]
  }

  function LocationBase(bundles: seq<HostBundle>): uint32 {
    if bundles == [] then 0
    else
      var last := bundles[|bundles| - 1].mmio.asicLocation;
      if |bundles| == 1 || last < LocationBase(bundles[..|bundles| - 1]) then last
      else LocationBase(bundles[..|bundles| - 1])
  }

  function IndexOf(bundles: seq<HostBundle>): MeshIndex {
    MeshIndex(BySlot(bundles), LocationBase(bundles))
  }

  method NewMeshIndex(bundles: seq<HostBundle>) returns (index: MeshIndex)
    ensures index == IndexOf(bundles)
  {
    index := MeshIndex(map[], 0);
    if |bundles| == 0 {
      return;
    }
    var base := bundles[0].mmio.asicLocation;
    assert LocationBase(bundles[..1]) == base;
    for i := 0 to |bundles|
      invariant base == LocationBase(if i == 0 then bundles[..1] else bundles[..i])
    {
      assert i > 0 ==> bundles[..i + 1][..i] == bundles[..i];
      if bundles[i].mmio.asicLocation < base {
        base := bundles[i].mmio.asicLocation;
      }
    }
    var bySlot: map<MeshSlot, HostBundle> := map[];
    for i := 0 to |bundles|
      invariant bySlot == BySlot(bundles[..i])
    {
      assert bundles[..i + 1][..i] == bundles[..i];
      bySlot := bySlot[SlotOf(bundles[i]) := bundles[i]];
    }
    assert bundles[..|bundles|] == bundles;
    index := MeshIndex(bySlot, base);
  }

  /** The reported location of a 1-based descriptor location, in uint32 arithmetic. */
  function WireSlot(base: uint32, slot: MeshSlot): MeshSlot {
    var at := slot.asicLocation - 1 + base;
    MeshSlot(slot.trayId, if at < 0 then at + U32 else if at < U32 then at else at - U32)
  }

  function Lookup(index: MeshIndex, slot: MeshSlot): Option<HostBundle> {
    var wire := WireSlot(index.locationBase, slot);
    if wire in index.bySlot then Some(index.bySlot[wire]) else None
  }

  /** Shifting is injective even where it wraps around. */
  lemma WireSlotInjective(base: uint32, a: MeshSlot, b: MeshSlot)
    requires WireSlot(base, a) == WireSlot(base, b)
    ensures a == b
  {
    assert -U32 < a.asicLocation - b.asicLocation < U32;
  }

  // ---- the link graph

  function LinkKey(a: uint64, b: uint64): (uint64, uint64) {
    if a > b then (b, a) else (a, b)
  }

  function Links(connections: seq<Connection>): set<(uint64, uint64)> {
    if connections == [] then {}
    else
      var last := connections[|connections| - 1];
      Links(connections[..|connections| - 1]) + {LinkKey(last.src, last.dst)}
  }

  predicate Linked(links: set<(uint64, uint64)>, a: HostBundle, b: HostBundle) {
    LinkKey(a.mmio.uniqueId, b.mmio.uniqueId) in links
  }

  method NewLinkSet(connections: seq<Connection>) returns (links: set<(uint64, uint64)>)
    ensures links == Links(connections)
  {
    links := {};
    for i := 0 to |connections|
      invariant links == Links(connections[..i])
    {
      assert connections[..i + 1][..i] == connections[..i];
      links := links + {LinkKey(connections[i].src, connections[i].dst)};
    }
    assert connections[..|connections|] == connections;
  }

  /** Two ASICs are linked exactly when the agent reports a connection in either direction. */
  lemma {:induction false} LinkedIsReported(connections: seq<Connection>, a: uint64, b: uint64)
    ensures LinkKey(a, b) in Links(connections) <==>
      Connection(a, b) in connections || Connection(b, a) in connections
  {
    if connections != [] {
      var front, last := connections[..|connections| - 1], connections[|connections| - 1];
      assert connections == front + [last];
      LinkedIsReported(front, a, b);
    }
  }

  // ---- grid adjacency

  function Abs(x: int): nat { if x < 0 then -x else x }

  ghost predicate OneApart(row: int, col: int, row': int, col': int) {
    Abs(row - row') + Abs(col - col') == 1
  }

  /** Positions one step apart in the rows x cols grid. */
  ghost predicate Adjacent(cols: nat, i: nat, j: nat)
    requires cols > 0
  {
    OneApart(i / cols, i % cols, j / cols, j % cols)
  }

  ghost predicate AllAdjacentLinked(cols: nat, members: seq<HostBundle>, links: set<(uint64, uint64)>)
    requires cols > 0
  {
    forall i: nat, j: nat :: i < |members| && j < |members| && Adjacent(cols, i, j) ==>
      Linked(links, members[i], members[j])
  }

  /** The neighbours `unlinkedNeighbours` looks at: to the right and below. */
  function Neighbours(d: MeshDefinition, i: nat): seq<nat>
    requires d.cols > 0
  {
    (if i % d.cols + 1 < d.cols then [i + 1] else []) + (if i / d.cols + 1 < d.rows then [i + d.cols] else [])
  }

  predicate NeighboursLinked(d: MeshDefinition, members: seq<HostBundle>, links: set<(uint64, uint64)>, i: nat)
    requires d.cols > 0 && i < |members|
  {
    forall j :: j in Neighbours(d, i) && j < |members| ==> Linked(links, members[i], members[j])
  }

  /** What `unlinkedNeighbours` accepts. */
  predicate Wired(d: MeshDefinition, members: seq<HostBundle>, links: set<(uint64, uint64)>)
    requires d.cols > 0
  {
    forall i: nat :: i < |members| ==> NeighboursLinked(d, members, links, i)
  }

  lemma MulBounds(c: int, k: int)
    requires c > 0
    ensures k >= 1 ==> c * k >= c
    ensures k <= -1 ==> c * k <= -c
  {
  }

  lemma DivModAt(cols: nat, row: int, col: int)
    requires 0 <= col < cols
    ensures (row * cols + col) / cols == row && (row * cols + col) % cols == col
  {
    var i := row * cols + col;
    assert i == cols * (i / cols) + i % cols;
    assert cols * (i / cols - row) == col - i % cols;
    MulBounds(cols, i / cols - row);
  }

  lemma RowColumn(cols: nat, i: nat)
    requires cols > 0
    ensures i == (i / cols) * cols + i % cols && 0 <= i % cols < cols
  {
  }

  lemma StepRight(cols: nat, i: nat)
    requires cols > 0
    ensures i % cols + 1 < cols ==> (i + 1) / cols == i / cols && (i + 1) % cols == i % cols + 1
  {
    RowColumn(cols, i);
    if i % cols + 1 < cols { DivModAt(cols, i / cols, i % cols + 1); }
  }

  lemma StepBelow(cols: nat, i: nat)
    requires cols > 0
    ensures (i + cols) / cols == i / cols + 1 && (i + cols) % cols == i % cols
  {
    RowColumn(cols, i);
    assert (i / cols + 1) * cols + i % cols == i + cols;
    DivModAt(cols, i / cols + 1, i % cols);
  }

  lemma RowInside(rows: nat, cols: nat, i: nat)
    requires cols > 0
    ensures i < rows * cols <==> i / cols < rows
  {
    RowColumn(cols, i);
    var row := i / cols;
    if row < rows {
      assert (row + 1) * cols <= rows * cols;
    } else {
      assert row * cols >= rows * cols;
    }
  }

  lemma NeighbourIsAdjacent(d: MeshDefinition, i: nat, j: nat)
    requires d.cols > 0 && i < d.rows * d.cols && j in Neighbours(d, i)
    ensures j < d.rows * d.cols && Adjacent(d.cols, i, j)
  {
    RowInside(d.rows, d.cols, i);
    RowInside(d.rows, d.cols, j);
    StepRight(d.cols, i);
    StepBelow(d.cols, i);
  }

  lemma AdjacentIsNeighbour(d: MeshDefinition, i: nat, j: nat)
    requires d.cols > 0 && i < d.rows * d.cols && j < d.rows * d.cols && Adjacent(d.cols, i, j)
    ensures j in Neighbours(d, i) || i in Neighbours(d, j)
  {
    RowInside(d.rows, d.cols, i);
    RowInside(d.rows, d.cols, j);
    RowColumn(d.cols, i);
    RowColumn(d.cols, j);
    var dr := i / d.cols - j / d.cols;
    assert dr == 1 ==> (j / d.cols + 1) * d.cols == (j / d.cols) * d.cols + d.cols;
    assert dr == -1 ==> (i / d.cols + 1) * d.cols == (i / d.cols) * d.cols + d.cols;
  }

  lemma WiredLinksAdjacent(d: MeshDefinition, members: seq<HostBundle>, links: set<(uint64, uint64)>, i: nat, j: nat)
    requires d.cols > 0 && |members| == d.rows * d.cols && Wired(d, members, links)
    requires i < |members| && j < |members| && Adjacent(d.cols, i, j)
    ensures Linked(links, members[i], members[j])
  {
    AdjacentIsNeighbour(d, i, j);
    assert NeighboursLinked(d, members, links, i) && NeighboursLinked(d, members, links, j);
  }

  lemma AdjacentLinksNeighbours(d: MeshDefinition, members: seq<HostBundle>, links: set<(uint64, uint64)>, i: nat)
    requires d.cols > 0 && |members| == d.rows * d.cols && AllAdjacentLinked(d.cols, members, links)
    requires i < |members|
    ensures NeighboursLinked(d, members, links, i)
  {
    forall j | j in Neighbours(d, i) && j < |members| ensures Linked(links, members[i], members[j]) {
      NeighbourIsAdjacent(d, i, j);
    }
  }

  /** A mesh is accepted exactly when all grid-adjacent chips are linked. */
  lemma WiredIsAllAdjacent(d: MeshDefinition, members: seq<HostBundle>, links: set<(uint64, uint64)>)
    requires d.cols > 0 && |members| == d.rows * d.cols
    ensures Wired(d, members, links) <==> AllAdjacentLinked(d.cols, members, links)
  {
    if Wired(d, members, links) {
      forall i: nat, j: nat | i < |members| && j < |members| && Adjacent(d.cols, i, j)
        ensures Linked(links, members[i], members[j])
      {
        WiredLinksAdjacent(d, members, links, i, j);
      }
    }
    if AllAdjacentLinked(d.cols, members, links) {
      forall i: nat | i < |members| ensures NeighboursLinked(d, members, links, i) {
        AdjacentLinksNeighbours(d, members, links, i);
      }
    }
  }

  /** The first pair, in position order, that the grouping places side by side without a link. */
  method UnlinkedNeighbours(d: MeshDefinition, members: seq<HostBundle>, links: set<(uint64, uint64)>)
      returns (gap: (nat, nat), ok: bool)
    requires d.cols > 0 && |members| == d.rows * d.cols
    ensures ok <==> Wired(d, members, links)
    ensures !ok ==>
      && gap.0 < |members| && gap.1 < |members| && Adjacent(d.cols, gap.0, gap.1)
      && !Linked(links, members[gap.0], members[gap.1])
      && forall i: nat :: i < gap.0 ==> NeighboursLinked(d, members, links, i)
  {
    for i := 0 to |members|
      invariant forall k: nat :: k < i ==> NeighboursLinked(d, members, links, k)
    {
      var neighbours: seq<nat> := [];
      if i % d.cols + 1 < d.cols {
        neighbours := neighbours + [i + 1];
      }
      if i / d.cols + 1 < d.rows {
        neighbours := neighbours + [i + d.cols];
      }
      assert neighbours == Neighbours(d, i);
      for n := 0 to |neighbours|
        invariant forall k :: 0 <= k < n && neighbours[k] < |members| ==> Linked(links, members[i], members[neighbours[k]])
      {
        var j := neighbours[n];
        NeighbourIsAdjacent(d, i, j);
        if !Linked(links, members[i], members[j]) {
          assert !NeighboursLinked(d, members, links, i);
          return (i, j), false;
        }
      }
    }
    return (0, 0), true;
  }

  // ---- an accepted mesh is connected along shortest grid paths

  function Manhattan(row: int, col: int, row': int, col': int): nat {
    Abs(row - row') + Abs(col - col')
  }

  function Distance(cols: nat, i: nat, j: nat): nat
    requires cols > 0
  {
    Manhattan(i / cols, i % cols, j / cols, j % cols)
  }

  /** Consecutive positions of the path are linked members of the mesh. */
  ghost predicate LinkedPath(members: seq<HostBundle>, links: set<(uint64, uint64)>, path: seq<nat>) {
    && (forall k :: 0 <= k < |path| ==> path[k] < |members|)
    && (forall k, n :: 0 <= k < n < |path| && n == k + 1 ==> Linked(links, members[path[k]], members[path[n]]))
  }

  lemma SamePosition(cols: nat, i: nat, j: nat)
    requires cols > 0
    ensures i / cols == j / cols && i % cols == j % cols ==> i == j
  {
    RowColumn(cols, i);
    RowColumn(cols, j);
  }

  /** The position at a row and column of the grid. */
  lemma PositionAt(rows: nat, cols: nat, row: nat, col: nat) returns (k: nat)
    requires row < rows && col < cols
    ensures k < rows * cols && k / cols == row && k % cols == col
  {
    k := row * cols + col;
    DivModAt(cols, row, col);
    RowInside(rows, cols, k);
  }

  lemma Inside(rows: nat, cols: nat, i: nat)
    requires cols > 0 && i < rows * cols
    ensures i / cols < rows && i % cols < cols
  {
    RowInside(rows, cols, i);
  }

  lemma CoordinateStep(row: nat, col: nat, row': nat, col': nat) returns (r: nat, c: nat)
    requires row != row' || col != col'
    ensures OneApart(row, col, r, c)
    ensures Manhattan(r, c, row', col') == Manhattan(row, col, row', col') - 1
    ensures r <= row || r <= row'
    ensures c <= col || c <= col'
  {
    r, c := row, col;
    if row < row' { r := row + 1; }
    else if row > row' { r := row - 1; }
    else if col < col' { c := col + 1; }
    else { c := col - 1; }
  }

  /** Position i is at the given row and column. */
  ghost predicate InCell(cols: nat, i: nat, row: nat, col: nat)
    requires cols > 0
  {
    i / cols == row && i % cols == col
  }

  /** One step from one place of the grid towards another. */
  lemma StepFrom(rows: nat, cols: nat, row: nat, col: nat, row': nat, col': nat) returns (k: nat, r: nat, c: nat)
    requires row < rows && row' < rows && col < cols && col' < cols && (row != row' || col != col')
    ensures k < rows * cols && InCell(cols, k, r, c) && OneApart(row, col, r, c)
    ensures Manhattan(r, c, row', col') == Manhattan(row, col, row', col') - 1
  {
    r, c := CoordinateStep(row, col, row', col');
    k := PositionAt(rows, cols, r, c);
  }

  lemma Coordinates(cols: nat, i: nat, j: nat, row: nat, col: nat, row': nat, col': nat)
    requires cols > 0 && InCell(cols, i, row, col) && InCell(cols, j, row', col')
    ensures OneApart(row, col, row', col') ==> Adjacent(cols, i, j)
    ensures Distance(cols, i, j) == Manhattan(row, col, row', col')
  {
  }

  /** One step from i towards j. */
  lemma StepTowards(rows: nat, cols: nat, i: nat, j: nat, row: nat, col: nat, row': nat, col': nat) returns (k: nat)
    requires cols > 0 && InCell(cols, i, row, col) && InCell(cols, j, row', col')
    requires row < rows && row' < rows && col < cols && col' < cols && (row != row' || col != col')
    ensures k < rows * cols && Adjacent(cols, i, k) && Distance(cols, k, j) == Distance(cols, i, j) - 1
  {
    var r, c;
    k, r, c := StepFrom(rows, cols, row, col, row', col');
    Coordinates(cols, i, k, row, col, r, c);
    Coordinates(cols, i, j, row, col, row', col');
    Coordinates(cols, k, j, r, c, row', col');
  }

  /** The row and column of a position of the grid. */
  lemma PlaceOf(rows: nat, cols: nat, i: nat) returns (row: nat, col: nat)
    requires cols > 0 && i < rows * cols
    ensures InCell(cols, i, row, col) && row < rows && col < cols
  {
    Inside(rows, cols, i);
    row, col := i / cols, i % cols;
  }

  lemma PlacesDiffer(cols: nat, i: nat, j: nat, row: nat, col: nat, row': nat, col': nat)
    requires cols > 0 && InCell(cols, i, row, col) && InCell(cols, j, row', col') && i != j
    ensures row != row' || col != col'
  {
    SamePosition(cols, i, j);
  }

  lemma NextTowards(rows: nat, cols: nat, i: nat, j: nat) returns (k: nat)
    requires cols > 0 && i < rows * cols && j < rows * cols && i != j
    ensures k < rows * cols && Adjacent(cols, i, k) && Distance(cols, k, j) == Distance(cols, i, j) - 1
  {
    var row, col := PlaceOf(rows, cols, i);
    var row', col' := PlaceOf(rows, cols, j);
    PlacesDiffer(cols, i, j, row, col, row', col');
    k := StepTowards(rows, cols, i, j, row, col, row', col');
  }

  /** Any two chips of an accepted mesh are joined, through chips of the mesh and reported
      links only, by a path of Manhattan length. */
  lemma {:induction false} MeshConnected(d: MeshDefinition, members: seq<HostBundle>, links: set<(uint64, uint64)>, i: nat, j: nat)
      returns (path: seq<nat>)
    requires d.cols > 0 && |members| == d.rows * d.cols && Wired(d, members, links)
    requires i < |members| && j < |members|
    ensures |path| == Distance(d.cols, i, j) + 1 && path[0] == i && path[|path| - 1] == j
    ensures LinkedPath(members, links, path)
    decreases Distance(d.cols, i, j)
  {
    if i == j {
      path := [i];
    } else {
      var k := NextTowards(d.rows, d.cols, i, j);
      WiredLinksAdjacent(d, members, links, i, k);
      var rest := MeshConnected(d, members, links, k, j);
      path := [i] + rest;
    }
  }

  // ---- resolveMesh

  /** The bundles serving the slots, in slot order, when the host has one in each. */
  function MembersAt(index: MeshIndex, slots: seq<MeshSlot>): (r: Option<seq<HostBundle>>)
    ensures r.Some? ==> |r.value| == |slots|
    ensures r.Some? ==> forall i :: 0 <= i < |slots| ==> Lookup(index, slots[i]) == Some(r.value[i])
    ensures r.None? ==> exists i :: 0 <= i < |slots| && Lookup(index, slots[i]).None?
  {
    if slots == [] then Some([])
    else
      var front, last := MembersAt(index, slots[..|slots| - 1]), Lookup(index, slots[|slots| - 1]);
      if front.Some? && last.Some? then Some(front.value + [last.value]) else None
  }

  predicate OnBlackholeGalaxy(members: seq<HostBundle>) {
    forall i :: 0 <= i < |members| ==> members[i].mmio.boardType == GALAXY_BLACKHOLE
  }

  function Resolve(d: MeshDefinition, index: MeshIndex, links: set<(uint64, uint64)>): Option<seq<HostBundle>>
    requires d.cols > 0
  {
    var members := MembersAt(index, d.slots);
    if members.Some? && OnBlackholeGalaxy(members.value) && Wired(d, members.value, links) then members else None
  }

  method ResolveMesh(d: MeshDefinition, index: MeshIndex, links: set<(uint64, uint64)>)
      returns (members: seq<HostBundle>, ok: bool)
    requires WellShaped(d)
    ensures Resolve(d, index, links) == if ok then Some(members) else None
  {
    members := [];
    for i := 0 to |d.slots|
      invariant MembersAt(index, d.slots[..i]) == Some(members)
    {
      assert d.slots[..i + 1][..i] == d.slots[..i];
      var bundle := Lookup(index, d.slots[i]);
      if bundle.None? {
        MissingSlot(index, d.slots, i);
        return [], false;
      }
      members := members + [bundle.value];
    }
    assert d.slots[..|d.slots|] == d.slots;
    for i := 0 to |members|
      invariant OnBlackholeGalaxy(members[..i])
    {
      if members[i].mmio.boardType != GALAXY_BLACKHOLE {
        return [], false;
      }
    }
    var gap, wired := UnlinkedNeighbours(d, members, links);
    if !wired {
      return [], false;
    }
    ok := true;
  }

  lemma MissingSlot(index: MeshIndex, slots: seq<MeshSlot>, i: nat)
    requires i < |slots| && Lookup(index, slots[i]).None?
    ensures MembersAt(index, slots).None?
  {
  }

  // ---- what the resolved chips are

  lemma LookupServes(bundles: seq<HostBundle>, slot: MeshSlot)
    requires Lookup(IndexOf(bundles), slot).Some?
    ensures var b := Lookup(IndexOf(bundles), slot).value;
      b in bundles && SlotOf(b) == WireSlot(LocationBase(bundles), slot)
  {
  }

  /** Different slots are served by different chips. */
  lemma LookupInjective(bundles: seq<HostBundle>, a: MeshSlot, b: MeshSlot)
    requires Lookup(IndexOf(bundles), a).Some? && Lookup(IndexOf(bundles), a) == Lookup(IndexOf(bundles), b)
    ensures a == b
  {
    LookupServes(bundles, a);
    LookupServes(bundles, b);
    WireSlotInjective(LocationBase(bundles), a, b);
  }

  /** The definition and position that a slot belongs to. */
  function Place(slot: MeshSlot): (nat, nat) {
    var left := slot.asicLocation % 4 == 1 || slot.asicLocation % 4 == 2;
    var upper := slot.asicLocation <= 4;
    var top := slot.trayId % 2 == 0;
    var mesh := (if slot.trayId <= 2 then 0 else 2) + (if left == (slot.trayId <= 2) then 0 else 1);
    var right := if slot.trayId <= 2 then slot.asicLocation % 2 == 0 else slot.asicLocation % 2 == 1;
    var row := if top then (if upper then 0 else 1) else (if upper then 3 else 2);
    (mesh, 2 * row + if right then 1 else 0)
  }

  /** No slot occurs twice among the four definitions. */
  lemma SlotsPlacedOnce(p: nat, i: nat)
    requires p < 4 && i < 8
    ensures Place(BhGalaxyRevCMeshes()[p].slots[i]) == (p, i)
  {
  }

  /** Chips resolved for slots of the definitions are distinct, within and across meshes. */
  lemma ResolvedDistinct(bundles: seq<HostBundle>, p: nat, i: nat, q: nat, j: nat)
    requires p < 4 && i < 8 && q < 4 && j < 8
    requires MembersAt(IndexOf(bundles), BhGalaxyRevCMeshes()[p].slots).Some?
    requires MembersAt(IndexOf(bundles), BhGalaxyRevCMeshes()[q].slots).Some?
    requires MembersAt(IndexOf(bundles), BhGalaxyRevCMeshes()[p].slots).value[i]
          == MembersAt(IndexOf(bundles), BhGalaxyRevCMeshes()[q].slots).value[j]
    ensures p == q && i == j
  {
    SlotsPlacedOnce(p, i);
    SlotsPlacedOnce(q, j);
    LookupInjective(bundles, BhGalaxyRevCMeshes()[p].slots[i], BhGalaxyRevCMeshes()[q].slots[j]);
  }
}
