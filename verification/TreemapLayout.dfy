/** The treemap over objects. */
module TreemapLayout {
  // The objects of the treemap: children whose rectangles the program writes, and the
  // orientation that all steps share.

  import opened Treemap

  /** The orientation all layouts share. */
  class Layout {
    var orientation: Orientation

    constructor () {
      orientation := H;
    }

    method SwitchOrientation()
      modifies this`orientation
      ensures orientation == Switched(old(orientation))
    {
      orientation := if orientation == H then V else H;
    }
  }

  class Child {
    const value: real
    var area: real
    var coord: Rect

    constructor (value: real)
      ensures this.value == value
    {
      this.value := value;
    }
  }

  ghost predicate HaveAreasOf(children: seq<Child>, areas: seq<real>)
    reads children`area
  {
    |areas| == |children| && forall i :: 0 <= i < |children| ==> children[i].area == areas[i]
  }

  ghost predicate HaveCoords(children: seq<Child>, coords: seq<Rect>)
    reads children`coord
  {
    |coords| == |children| && forall i :: 0 <= i < |children| ==> children[i].coord == coords[i]
  }

  ghost function Members(children: seq<Child>): set<Child> {
    set c | c in children
  }

  ghost predicate Distinct(children: seq<Child>) {
    forall i, j :: 0 <= i < j < |children| ==> children[i] != children[j]
  }

  // ---------------------------------------------------------------- one row

  /** The loop of `worstAspectRatio`. */
  method Measure(row: seq<Child>, ghost areas: seq<real>) returns (sum: real, largest: real, smallest: real)
    requires HaveAreasOf(row, areas)
    ensures sum == Sum(areas) && largest == Largest(areas) && smallest == Smallest(areas)
  {
    sum, largest, smallest := 0.0, 0.0, MAX_VALUE;
    for i := 0 to |row|
      invariant sum == Sum(areas[..i]) && largest == Largest(areas[..i]) && smallest == Smallest(areas[..i])
    {
      var area := row[i].area;
      assert areas[..i + 1][..i] == areas[..i];
      sum := sum + area;
      smallest := if smallest < area then smallest else area;
      largest := if largest > area then largest else area;
    }
    assert areas[..|row|] == areas;
  }

  method WorstAspectRatio(row: seq<Child>, side: real, ghost areas: seq<real>) returns (ratio: real)
    requires HaveAreasOf(row, areas) && Positive(areas) && side > 0.0
    ensures ratio == Worst(areas, side)
  {
    if |row| == 0 {
      return MAX_VALUE;
    }
    var sum, largest, smallest := Measure(row, areas);
    SumPositive(areas);
    SmallestPositive(areas);
    ratio := Max(LengthRatio(largest, sum, side), ThickRatio(smallest, sum, side));
  }

  method TotalArea(row: seq<Child>, ghost areas: seq<real>) returns (total: real)
    requires HaveAreasOf(row, areas)
    ensures total == Sum(areas)
  {
    total := 0.0;
    for i := 0 to |row|
      invariant total == Sum(areas[..i])
    {
      assert areas[..i + 1][..i] == areas[..i];
      total := total + row[i].area;
    }
    assert areas[..|row|] == areas;
  }

  /** Where the next rectangle of a row begins: the tops count from the end in one
      orientation, the lefts from the start in the other. */
  predicate StandsAt(o: Orientation, box: Rect, thick: real, top: real, along: real, offset: real) {
    (o == H ==> top == offset) && (o == V ==> top == box.height - thick && along == offset)
  }

  /** The rectangle of one child, and where the next begins. */
  method TileOf(area: real, o: Orientation, side: real, box: Rect, thick: real, top: real, along: real,
                ghost areas: seq<real>, ghost i: nat)
    returns (tile: Rect, top': real, along': real)
    requires Positive(areas) && side > 0.0 && i < |areas| && area == areas[i] && thick == FirstThick(areas, side)
    requires StandsAt(o, box, thick, top, along, Offset(areas, thick, i))
    ensures tile == Tiles(areas, side, box, o)[i] && StandsAt(o, box, thick, top', along', Offset(areas, thick, i + 1))
  {
    var length := area / thick;
    tile := if o == H then Rect(box.left, box.top + (side - length - top), thick, length)
            else Rect(box.left + along, top, length, thick);
    top', along' := if o == H then top + length else top, if o == H then along else along + length;
    TileIs(areas, side, box, o, i, thick, length, Offset(areas, thick, i));
  }

  ghost predicate PlacedSoFar(row: seq<Child>, tiles: seq<Rect>, i: nat)
    requires i <= |row| == |tiles|
    reads row`coord
  {
    forall k :: 0 <= k < i ==> row[k].coord == tiles[k]
  }

  method WriteTile(row: seq<Child>, i: nat, tile: Rect, ghost tiles: seq<Rect>)
    requires i < |row| == |tiles| && Distinct(row) && PlacedSoFar(row, tiles, i) && tile == tiles[i]
    modifies Members(row)`coord
    ensures PlacedSoFar(row, tiles, i + 1)
  {
    row[i].coord := tile;
  }

  /** The loop of `layoutRow`, which writes the children's rectangles. */
  method PlaceRow(o: Orientation, row: seq<Child>, side: real, box: Rect, thick: real, ghost areas: seq<real>)
    requires row != [] && Distinct(row) && HaveAreasOf(row, areas) && Positive(areas) && side > 0.0
    requires thick == FirstThick(areas, side)
    modifies Members(row)`coord
    ensures HaveCoords(row, Tiles(areas, side, box, o))
  {
    ghost var tiles := Tiles(areas, side, box, o);
    var top := if o == V then box.height - thick else 0.0;
    var along := 0.0;
    for i := 0 to |row|
      invariant StandsAt(o, box, thick, top, along, Offset(areas, thick, i))
      invariant PlacedSoFar(row, tiles, i)
    {
      top, along := PlaceOne(o, row, side, box, thick, top, along, areas, i);
    }
  }

  /** One turn of that loop. */
  method PlaceOne(o: Orientation, row: seq<Child>, side: real, box: Rect, thick: real, top: real, along: real,
                  ghost areas: seq<real>, i: nat)
    returns (top': real, along': real)
    requires i < |row| && Distinct(row) && HaveAreasOf(row, areas) && Positive(areas) && side > 0.0
    requires thick == FirstThick(areas, side) && StandsAt(o, box, thick, top, along, Offset(areas, thick, i))
    requires PlacedSoFar(row, Tiles(areas, side, box, o), i)
    modifies Members(row)`coord
    ensures PlacedSoFar(row, Tiles(areas, side, box, o), i + 1)
    ensures StandsAt(o, box, thick, top', along', Offset(areas, thick, i + 1))
  {
    var tile;
    tile, top', along' := TileOf(row[i].area, o, side, box, thick, top, along, areas, i);
    WriteTile(row, i, tile, Tiles(areas, side, box, o));
  }

  method LayoutRow(layout: Layout, row: seq<Child>, side: real, box: Rect, ghost areas: seq<real>)
    returns (left: Rect, minimumSide: real)
    requires row != [] && Distinct(row) && HaveAreasOf(row, areas) && Positive(areas) && side > 0.0
    modifies layout`orientation, Members(row)`coord
    ensures HaveCoords(row, Tiles(areas, side, box, old(layout.orientation)))
    ensures Frame(left, minimumSide, layout.orientation) == AfterRow(areas, side, box, old(layout.orientation))
  {
    var total := TotalArea(row, areas);
    var thick := total / side;
    var o := layout.orientation;
    PlaceRow(o, row, side, box, thick, areas);
    left := if o == H then Rect(box.left + thick, box.top, box.width - thick, box.height)
            else Rect(box.left, box.top, box.width, box.height - thick);
    var dim, other := Dim(left, o), Dim(left, Switched(o));
    minimumSide := if other > dim then dim else other;
    if minimumSide != dim {
      layout.SwitchOrientation();
    }
  }

  method LayoutLast(children: seq<Child>, box: Rect)
    requires |children| == 1
    modifies Members(children)`coord
    ensures HaveCoords(children, [box])
  {
    children[0].coord := box;
  }

  // ---------------------------------------------------------------- squarify

  /** The recursion of `squarify` gives the children the rectangles of `Rows`. */
  method Squarify(layout: Layout, rest: seq<Child>, row: seq<Child>, side: real, box: Rect, ghost areas: seq<real>,
                  ghost started: seq<real>)
    requires Distinct(row + rest) && HaveAreasOf(rest, areas) && HaveAreasOf(row, started)
    requires Ready(areas, started, side, box, layout.orientation)
    modifies layout`orientation, Members(row + rest)`coord
    ensures HaveCoords(row + rest, old(TilesOf(areas, started, side, box, layout.orientation)))
    decreases |rest| + |row|, |rest|, 3
  {
    if |rest| + |row| == 1 {
      TilesOfOne(areas, started, side, box, layout.orientation);
      var last := if |rest| == 1 then rest else row;
      assert last == row + rest;
      LayoutLast(last, box);
    } else if |rest| >= 2 && row == [] {
      assert row + rest == rest;
      Begin(layout, rest, side, box, areas);
    } else if row != [] {
      SquarifyGrown(layout, rest, row, side, box, areas, started);
    }
  }

  /** `squarify` where it puts the first child into an empty row. */
  method Begin(layout: Layout, rest: seq<Child>, side: real, box: Rect, ghost areas: seq<real>)
    requires Distinct(rest) && HaveAreasOf(rest, areas) && |rest| >= 2
    requires Ready(areas, [], side, box, layout.orientation)
    modifies layout`orientation, Members(rest)`coord
    ensures HaveCoords(rest, old(TilesOf(areas, [], side, box, layout.orientation)))
    decreases |rest|, |rest|, 2
  {
    TilesStart(areas, side, box, layout.orientation);
    assert [rest[0]] + rest[1..] == rest;
    SquarifyGrown(layout, rest[1..], [rest[0]], side, box, areas[1..], [areas[0]]);
  }

  /** `squarify` from the point where the row has a child. */
  method SquarifyGrown(layout: Layout, rest: seq<Child>, row: seq<Child>, side: real, box: Rect,
                       ghost areas: seq<real>, ghost started: seq<real>)
    requires Distinct(row + rest) && row != [] && HaveAreasOf(rest, areas) && HaveAreasOf(row, started)
    requires Ready(areas, started, side, box, layout.orientation)
    modifies layout`orientation, Members(row + rest)`coord
    ensures HaveCoords(row + rest, old(GrownTiles(areas, started, side, box, layout.orientation)))
    decreases |rest| + |row|, |rest|, 2
  {
    if rest == [] {
      assert row + rest == row;
      TilesOfLastRow(started, side, box, layout.orientation);
      var left, minimum := LayoutRow(layout, row, side, box, started);
    } else {
      var keeps := KeepsRatio(row, rest[0], side, started, areas[0]);
      if keeps {
        Extend(layout, rest, row, side, box, areas, started);
      } else {
        TilesOfClosedRow(areas, started, side, box, layout.orientation);
        Close(layout, rest, row, side, box, areas, started);
      }
    }
  }

  /** The comparison on which `squarify` decides. */
  method KeepsRatio(row: seq<Child>, next: Child, side: real, ghost areas: seq<real>, ghost area: real)
    returns (keeps: bool)
    requires HaveAreasOf(row, areas) && next.area == area && Positive(areas) && area > 0.0 && side > 0.0
    ensures keeps == Improves(areas, area, side)
  {
    var worst := WorstAspectRatio(row, side, areas);
    var extended := WorstAspectRatio([next] + row, side, [area] + areas);
    keeps := worst >= extended;
  }

  /** `squarify` where it takes the next child into the row. */
  method Extend(layout: Layout, rest: seq<Child>, row: seq<Child>, side: real, box: Rect, ghost areas: seq<real>,
                ghost started: seq<real>)
    requires Distinct(row + rest) && row != [] && rest != [] && HaveAreasOf(rest, areas) && HaveAreasOf(row, started)
    requires Ready(areas, started, side, box, layout.orientation) && Improves(started, areas[0], side)
    modifies layout`orientation, Members(row + rest)`coord
    ensures HaveCoords(row + rest, old(GrownTiles(areas, started, side, box, layout.orientation)))
    decreases |rest| + |row|, |rest|, 1
  {
    TilesOfExtendedRow(areas, started, side, box, layout.orientation);
    Regroup(row, rest);
    Squarify(layout, rest[1..], row + [rest[0]], side, box, areas[1..], started + [areas[0]]);
  }

  /** `squarify` where it closes the row and starts another in the box left over. */
  method Close(layout: Layout, rest: seq<Child>, row: seq<Child>, side: real, box: Rect, ghost areas: seq<real>,
               ghost started: seq<real>)
    requires Distinct(row + rest) && row != [] && rest != [] && HaveAreasOf(rest, areas) && HaveAreasOf(row, started)
    requires side > 0.0 && Positive(started)
    requires var f := AfterRow(started, side, box, layout.orientation); Ready(areas, [], f.side, f.box, f.o)
    modifies layout`orientation, Members(row + rest)`coord
    ensures var f := old(AfterRow(started, side, box, layout.orientation));
      HaveCoords(row + rest,
                 old(Tiles(started, side, box, layout.orientation)) + TilesOf(areas, [], f.side, f.box, f.o))
    decreases |rest| + |row|, |rest|, 1
  {
    DistinctParts(row, rest);
    MembersConcat(row, rest);
    ghost var tiles := Tiles(started, side, box, layout.orientation);
    var left, minimum := LayoutRow(layout, row, side, box, started);
    ghost var more := TilesOf(areas, [], minimum, left, layout.orientation);
    forall i | 0 <= i < |rest|
      ensures rest[i].area == areas[i]
    {
      assert old(rest[i].area) == areas[i];
    }
    assert [] + rest == rest;
    Squarify(layout, rest, [], minimum, left, areas, []);
    forall i | 0 <= i < |row|
      ensures row[i].coord == tiles[i]
    {
      assert row[i] !in rest;
    }
    CoordsTogether(row, rest, tiles, more);
  }

  lemma CoordsTogether(a: seq<Child>, b: seq<Child>, s: seq<Rect>, t: seq<Rect>)
    requires HaveCoords(a, s) && HaveCoords(b, t)
    ensures HaveCoords(a + b, s + t)
  {
  }

  lemma MembersConcat(a: seq<Child>, b: seq<Child>)
    ensures Members(a + b) == Members(a) + Members(b)
  {
  }

  lemma Regroup<T>(a: seq<T>, b: seq<T>)
    requires b != []
    ensures a + [b[0]] + b[1..] == a + b
  {
  }

  lemma DistinctParts(a: seq<Child>, b: seq<Child>)
    requires Distinct(a + b)
    ensures Distinct(a) && Distinct(b)
    ensures forall i, j :: 0 <= i < |a| && 0 <= j < |b| ==> a[i] != b[j]
  {
    var c := a + b;
    forall i, j | 0 <= i < j < |a|
      ensures a[i] != a[j]
    {
      assert c[i] == a[i] && c[j] == a[j];
    }
    forall i, j | 0 <= i < j < |b|
      ensures b[i] != b[j]
    {
      assert c[|a| + i] == b[i] && c[|a| + j] == b[j];
    }
    forall i, j | 0 <= i < |a| && 0 <= j < |b|
      ensures a[i] != b[j]
    {
      assert c[i] == a[i] && c[|a| + j] == b[j];
    }
  }

  // ---------------------------------------------------------------- processChildrenLayout

  ghost predicate HaveValues(children: seq<Child>, values: seq<real>) {
    |values| == |children| && forall i :: 0 <= i < |children| ==> children[i].value == values[i]
  }

  /** The children's areas become their shares of the area of the box. */
  method ShareOut(children: seq<Child>, total: real, area: real, ghost values: seq<real>)
    returns (ghost areas: seq<real>)
    requires Distinct(children) && HaveValues(children, values) && total > 0.0
    modifies Members(children)`area
    ensures HaveAreasOf(children, areas) && forall i :: 0 <= i < |areas| ==> areas[i] == Share(area, values[i], total)
  {
    areas := seq(|values|, i requires 0 <= i < |values| => Share(area, values[i], total));
    for i := 0 to |children|
      invariant forall k :: 0 <= k < i ==> children[k].area == areas[k]
    {
      children[i].area := Share(area, children[i].value, total);
    }
  }

  /** Main result on the program: whatever the orientation it finds, it tiles the box
      with the children, each with the share of the area that its value asks for. */
  method ProcessChildrenLayout(layout: Layout, children: seq<Child>, total: real, box: Rect, ghost values: seq<real>)
    returns (ghost areas: seq<real>, ghost coords: seq<Rect>)
    requires Distinct(children) && children != [] && HaveValues(children, values) && Positive(values)
      && total == Sum(values)
    requires box.width > 0.0 && box.height > 0.0 && box.top == 0.0
    modifies layout`orientation, Members(children)
    ensures HaveAreasOf(children, areas) && HaveCoords(children, coords)
    ensures Tiling(coords, box) && HaveAreas(coords, areas)
    ensures var o := old(layout.orientation); var side := if o == H then box.height else box.width;
      areas != [] && Ready(areas[1..], [areas[0]], side, box, o)
      && coords == AllTiles(Rows(areas[1..], [areas[0]], side, box, o))
    ensures forall i :: 0 <= i < |areas| ==> ProportionalTo(areas[i], total, Product(box.width, box.height), values[i])
  {
    SumPositive(values);
    var area := Product(box.width, box.height);
    areas := ShareOut(children, total, area, values);
    SharesFill(values, areas, area, total);
    coords := SquarifyAll(layout, children, box, areas);
  }

  /** The call of `squarify` in `processChildrenLayout`. */
  method SquarifyAll(layout: Layout, children: seq<Child>, box: Rect, ghost areas: seq<real>)
    returns (ghost coords: seq<Rect>)
    requires Distinct(children) && children != [] && HaveAreasOf(children, areas) && Positive(areas)
    requires Sized(box, Sum(areas)) && box.top == 0.0
    modifies layout`orientation, Members(children)`coord
    ensures HaveCoords(children, coords) && Placed(coords, areas, box)
    ensures var o := old(layout.orientation); var side := if o == H then box.height else box.width;
      areas != [] && Ready(areas[1..], [areas[0]], side, box, o)
      && coords == TilesOf(areas[1..], [areas[0]], side, box, o)
  {
    var o := layout.orientation;
    var side := if o == H then box.height else box.width;
    FirstAlone(areas, box, o);
    coords := TilesOf(areas[1..], [areas[0]], side, box, o);
    assert [children[0]] + children[1..] == children;
    Squarify(layout, children[1..], [children[0]], side, box, areas[1..], [areas[0]]);
  }
}
