/** The squarified treemap. */
module Treemap {
  // The squarified treemap layout of `TM.Squarified` in exact real arithmetic
  // (the program rounds lengths to pixels).

  datatype Orientation = H | V

  datatype Rect = Rect(left: real, top: real, width: real, height: real)

  datatype Point = Point(x: real, y: real)

  predicate In(p: Point, r: Rect) {
    r.left <= p.x < r.left + r.width && r.top <= p.y < r.top + r.height
  }

  // Number.MAX_VALUE
  const MAX_VALUE := 179769313486231570814527423731704356798070567525844996598917476803157260780028538760589558632766878171540458953514382464234321326889464182768467546703537516986049910576551282076245490090389328944075868508455133942304583236903222948165808559332123348274797826204144723168738177180919299881250404026184124858368.0

  function Sum(s: seq<real>): real {
    if s == [] then 0.0 else Sum(s[..|s| - 1]) + s[|s| - 1]
  }

  predicate Positive(s: seq<real>) {
    forall i :: 0 <= i < |s| ==> 0.0 < s[i]
  }

  lemma {:induction false} SumPositive(s: seq<real>)
    requires Positive(s)
    ensures Sum(s) >= 0.0 && (s != [] ==> Sum(s) > 0.0)
  {
    if s != [] {
      SumPositive(s[..|s| - 1]);
    }
  }

  lemma {:induction false} SumConcat(s: seq<real>, t: seq<real>)
    ensures Sum(s + t) == Sum(s) + Sum(t)
  {
    if t == [] {
      assert s + t == s;
    } else {
      assert (s + t)[..|s + t| - 1] == s + t[..|t| - 1];
      SumConcat(s, t[..|t| - 1]);
    }
  }

  // ---------------------------------------------------------------- one row

  /** The side of the box named by the orientation: rows run along it. */
  function Dim(box: Rect, o: Orientation): real {
    if o == H then box.height else box.width
  }

  /** How far the first `i` tiles of a row reach along the side. */
  function Offset(areas: seq<real>, thick: real, i: nat): real
    requires i <= |areas| && thick != 0.0
  {
    if i == 0 then 0.0 else Offset(areas, thick, i - 1) + areas[i - 1] / thick
  }

  /** The tile of the child at index `i`. */
  function Tile(areas: seq<real>, side: real, box: Rect, o: Orientation, i: nat): Rect
    requires i < |areas| && side > 0.0 && Sum(areas) > 0.0
  {
    var thick := Sum(areas) / side;
    var length := areas[i] / thick;
    var offset := Offset(areas, thick, i);
    if o == H then Rect(box.left, box.top + (side - length - offset), thick, length)
    else Rect(box.left + offset, box.height - thick, length, thick)
  }

  function Tiles(areas: seq<real>, side: real, box: Rect, o: Orientation): seq<Rect>
    requires Positive(areas) && side > 0.0
  {
    SumPositive(areas);
    seq(|areas|, i requires 0 <= i < |areas| => Tile(areas, side, box, o, i))
  }

  /** What `layoutRow` returns: the box left over and the new orientation. */
  function Remaining(total: real, side: real, box: Rect, o: Orientation): Rect
    requires side > 0.0
  {
    var thick := total / side;
    if o == H then Rect(box.left + thick, box.top, box.width - thick, box.height)
    else Rect(box.left, box.top, box.width, box.height - thick)
  }

  function MinimumSide(box: Rect, o: Orientation): real {
    var along := Dim(box, o);
    var across := Dim(box, Switched(o));
    if across > along then along else across
  }

  function Switched(o: Orientation): Orientation {
    if o == H then V else H
  }

  function NextOrientation(box: Rect, o: Orientation): Orientation {
    if MinimumSide(box, o) != Dim(box, o) then Switched(o) else o
  }

  // ---------------------------------------------------------------- aspect ratio

  function Max(a: real, b: real): real {
    if a > b then a else b
  }

  function Largest(areas: seq<real>): real {
    if areas == [] then 0.0 else Max(Largest(areas[..|areas| - 1]), areas[|areas| - 1])
  }

  function Smallest(areas: seq<real>): real {
    if areas == [] then MAX_VALUE
    else var m := Smallest(areas[..|areas| - 1]); var a := areas[|areas| - 1]; if m < a then m else a
  }

  /** worstAspectRatio */
  function Worst(areas: seq<real>, side: real): real
    requires Positive(areas) && side > 0.0
  {
    if areas == [] then MAX_VALUE else
    SumPositive(areas);
    SmallestPositive(areas);
    Max(LengthRatio(Largest(areas), Sum(areas), side), ThickRatio(Smallest(areas), Sum(areas), side))
  }

  /** Length by thickness of a tile of area `a` in a row of total area `d`. */
  function LengthRatio(a: real, d: real, side: real): real
    requires d > 0.0
  {
    Square(side) * a / Square(d)
  }

  /** Thickness by length of that tile. */
  function ThickRatio(a: real, d: real, side: real): real
    requires a > 0.0 && side > 0.0
  {
    assert Square(side) * a > 0.0;
    Square(d) / (Square(side) * a)
  }

  function Square(x: real): (r: real)
    ensures x > 0.0 ==> r > 0.0
  {
    Product(x, x)
  }

  function Product(a: real, b: real): (r: real)
    ensures a > 0.0 && b > 0.0 ==> r > 0.0
  {
    a * b
  }

  lemma {:induction false} SmallestPositive(areas: seq<real>)
    requires Positive(areas)
    ensures Smallest(areas) > 0.0
  {
    if areas != [] {
      SmallestPositive(areas[..|areas| - 1]);
    }
  }

  // ---------------------------------------------------------------- squarify

  /** The arguments with which `squarify` is called while it lays out a box. */
  predicate Ready(rest: seq<real>, row: seq<real>, side: real, box: Rect, o: Orientation) {
    && Positive(rest) && Positive(row)
    && side == Dim(box, o) && Sized(box, Sum(row) + Sum(rest))
  }

  /** A row as it is laid out: by `layoutRow`, or as the whole box by `layoutLast`. */
  datatype Row = Row(areas: seq<real>, side: real, box: Rect, o: Orientation, whole: bool)

  predicate Drawable(r: Row) {
    Positive(r.areas) && r.areas != [] && r.side > 0.0 && (r.whole ==> |r.areas| == 1 && Sized(r.box, r.areas[0]))
  }

  lemma ProductDivision(a: real, b: real)
    requires b != 0.0
    ensures a / b * b == a
  {
  }

  lemma Monotone(x: real, y: real, b: real)
    requires x >= y && b > 0.0
    ensures x * b >= y * b
  {
  }

  /** Cutting a strip of area `k` off a rectangle leaves one of the other area. */
  lemma CutStrip(w: real, h: real, k: real, r: real)
    requires w > 0.0 && h > 0.0 && r > 0.0 && k + r == w * h
    ensures k / h < w && (w - k / h) * h == r
  {
    var t := k / h;
    ProductDivision(k, h);
    assert (w - t) * h == w * h - t * h;
    if t >= w {
      Monotone(t, w, h);
    }
  }

  predicate Sized(box: Rect, area: real) {
    box.width > 0.0 && box.height > 0.0 && area == box.width * box.height
  }

  /** A row leaves a box of positive size, whose area is that of the children left. */
  lemma RemainingSize(rest: real, row: real, side: real, box: Rect, o: Orientation)
    requires Sized(box, row + rest) && side == Dim(box, o) && rest > 0.0
    ensures Sized(Remaining(row, side, box, o), rest)
  {
    if o == H {
      CutStrip(box.width, box.height, row, rest);
    } else {
      CutStrip(box.height, box.width, row, rest);
    }
  }

  /** After a row that leaves children over, the leftover box is again ready. */
  lemma RemainingReady(rest: seq<real>, row: seq<real>, side: real, box: Rect, o: Orientation)
    requires Ready(rest, row, side, box, o) && rest != []
    ensures var left := Remaining(Sum(row), side, box, o);
      Ready(rest, [], MinimumSide(left, o), left, NextOrientation(left, o))
  {
    SumPositive(rest);
    RemainingSize(Sum(rest), Sum(row), side, box, o);
    assert Sum([]) == 0.0;
  }

  lemma ReadyToExtend(rest: seq<real>, row: seq<real>, side: real, box: Rect, o: Orientation)
    requires Ready(rest, row, side, box, o) && rest != []
    ensures Ready(rest[1..], row + [rest[0]], side, box, o)
    ensures Positive([rest[0]] + row)
  {
    assert rest == [rest[0]] + rest[1..];
    SumConcat([rest[0]], rest[1..]);
    SumConcat(row, [rest[0]]);
    assert Sum([rest[0]]) == rest[0] by {
      assert [rest[0]][..0] == [];
    }
  }

  lemma SingleSum(s: seq<real>)
    requires |s| == 1
    ensures Sum(s) == s[0]
  {
    assert s[..0] == [];
  }

  /** Whether another child keeps the worst ratio of the row from growing. */
  predicate Improves(row: seq<real>, next: real, side: real)
    requires Positive(row) && next > 0.0 && side > 0.0
  {
    Worst(row, side) >= Worst([next] + row, side)
  }

  /** squarify: the rows it lays out, in order. */
  function Rows(rest: seq<real>, row: seq<real>, side: real, box: Rect, o: Orientation): (rows: seq<Row>)
    requires Ready(rest, row, side, box, o)
    ensures forall i :: 0 <= i < |rows| ==> Drawable(rows[i])
    decreases |rest| + |row|, |rest|, 1
  {
    if |rest| + |row| == 1 then
      SingleSum(row + rest);
      SumConcat(row, rest);
      [Row(row + rest, side, box, o, true)]
    else if |rest| >= 2 && row == [] then
      ReadyToExtend(rest, row, side, box, o);
      assert row + [rest[0]] == [rest[0]];
      Grown(rest[1..], [rest[0]], side, box, o)
    else if row == [] then []
    else Grown(rest, row, side, box, o)
  }

  /** squarify with a row that has at least one child, and two children in all. */
  function Grown(rest: seq<real>, row: seq<real>, side: real, box: Rect, o: Orientation): (rows: seq<Row>)
    requires Ready(rest, row, side, box, o) && row != []
    ensures forall i :: 0 <= i < |rows| ==> Drawable(rows[i])
    decreases |rest| + |row|, |rest|, 0
  {
    if rest == [] then [Row(row, side, box, o, false)] else
    ReadyToExtend(rest, row, side, box, o);
    if Improves(row, rest[0], side) then Rows(rest[1..], row + [rest[0]], side, box, o)
    else
      RemainingReady(rest, row, side, box, o);
      var left := Remaining(Sum(row), side, box, o);
      [Row(row, side, box, o, false)] + Rows(rest, [], MinimumSide(left, o), left, NextOrientation(left, o))
  }

  // ---------------------------------------------------------------- order and greed

  function Areas(rows: seq<Row>): seq<real> {
    if rows == [] then [] else rows[0].areas + Areas(rows[1..])
  }

  lemma AreasOfOne(r: Row)
    ensures Areas([r]) == r.areas
  {
    assert [r][1..] == [];
  }

  /** The rows, one after the other, are the children in order. */
  lemma {:induction false} RowsInOrder(rest: seq<real>, row: seq<real>, side: real, box: Rect, o: Orientation)
    requires Ready(rest, row, side, box, o)
    ensures Areas(Rows(rest, row, side, box, o)) == row + rest
    decreases |rest| + |row|, |rest|, 1
  {
    if |rest| + |row| == 1 {
      RowsOfOne(rest, row, side, box, o);
      AreasOfOne(Row(row + rest, side, box, o, true));
    } else if row == [] && rest == [] {
    } else if row == [] {
      RowsBegin(rest, side, box, o);
      GrownInOrder(rest[1..], [rest[0]], side, box, o);
      assert [rest[0]] + rest[1..] == row + rest;
    } else {
      GrownInOrder(rest, row, side, box, o);
    }
  }

  lemma RowsOfOne(rest: seq<real>, row: seq<real>, side: real, box: Rect, o: Orientation)
    requires Ready(rest, row, side, box, o) && |rest| + |row| == 1
    ensures Rows(rest, row, side, box, o) == [Row(row + rest, side, box, o, true)]
  {
  }

  lemma RowsBegin(rest: seq<real>, side: real, box: Rect, o: Orientation)
    requires Ready(rest, [], side, box, o) && |rest| >= 2
    ensures Ready(rest[1..], [rest[0]], side, box, o)
    ensures Rows(rest, [], side, box, o) == Grown(rest[1..], [rest[0]], side, box, o)
  {
    ReadyToExtend(rest, [], side, box, o);
    assert [] + [rest[0]] == [rest[0]];
  }

  lemma {:induction false} GrownInOrder(rest: seq<real>, row: seq<real>, side: real, box: Rect, o: Orientation)
    requires Ready(rest, row, side, box, o) && row != []
    ensures Areas(Grown(rest, row, side, box, o)) == row + rest
    decreases |rest| + |row|, |rest|, 0
  {
    var r := Row(row, side, box, o, false);
    if rest == [] {
      assert [r][1..] == [];
    } else {
      ReadyToExtend(rest, row, side, box, o);
      if Improves(row, rest[0], side) {
        RowsInOrder(rest[1..], row + [rest[0]], side, box, o);
      } else {
        RemainingReady(rest, row, side, box, o);
        var left := Remaining(Sum(row), side, box, o);
        var more := Rows(rest, [], MinimumSide(left, o), left, NextOrientation(left, o));
        RowsInOrder(rest, [], MinimumSide(left, o), left, NextOrientation(left, o));
        assert ([r] + more)[1..] == more;
      }
    }
  }

  /** Every row but the last was closed because one more child would make its
      worst ratio strictly worse. */
  ghost predicate Greedy(rows: seq<Row>) {
    forall k :: 0 <= k < |rows| - 1 ==> ClosedForCause(rows[k], rows[k + 1])
  }

  ghost predicate ClosedForCause(r: Row, next: Row) {
    && r.side > 0.0 && next.areas != [] && Positive(r.areas) && Positive([next.areas[0]] + r.areas)
    && Worst([next.areas[0]] + r.areas, r.side) > Worst(r.areas, r.side)
  }

  /** The next row starts with the next child. */
  lemma {:induction false} RowsStart(rest: seq<real>, row: seq<real>, side: real, box: Rect, o: Orientation)
    requires Ready(rest, row, side, box, o) && row + rest != []
    ensures var rows := Rows(rest, row, side, box, o);
      rows != [] && rows[0].areas != [] && rows[0].areas[0] == (row + rest)[0]
    decreases |rest| + |row|, |rest|, 1
  {
    if |rest| + |row| != 1 {
      if row == [] {
        ReadyToExtend(rest, row, side, box, o);
        assert row + [rest[0]] == [rest[0]];
        GrownStart(rest[1..], [rest[0]], side, box, o);
      } else {
        GrownStart(rest, row, side, box, o);
      }
    }
  }

  lemma {:induction false} GrownStart(rest: seq<real>, row: seq<real>, side: real, box: Rect, o: Orientation)
    requires Ready(rest, row, side, box, o) && row != []
    ensures var rows := Grown(rest, row, side, box, o); rows != [] && rows[0].areas != [] && rows[0].areas[0] == row[0]
    decreases |rest| + |row|, |rest|, 0
  {
    if rest != [] {
      ReadyToExtend(rest, row, side, box, o);
      if Improves(row, rest[0], side) {
        RowsStart(rest[1..], row + [rest[0]], side, box, o);
      } else {
        RemainingReady(rest, row, side, box, o);
      }
    }
  }

  /** Main result on the choice of rows. */
  lemma {:induction false} RowsAreGreedy(rest: seq<real>, row: seq<real>, side: real, box: Rect, o: Orientation)
    requires Ready(rest, row, side, box, o)
    ensures Greedy(Rows(rest, row, side, box, o))
    decreases |rest| + |row|, |rest|, 1
  {
    if |rest| + |row| == 1 || (row == [] && rest == []) {
    } else if row == [] {
      ReadyToExtend(rest, row, side, box, o);
      assert row + [rest[0]] == [rest[0]];
      GrownIsGreedy(rest[1..], [rest[0]], side, box, o);
    } else {
      GrownIsGreedy(rest, row, side, box, o);
    }
  }

  lemma {:induction false} GrownIsGreedy(rest: seq<real>, row: seq<real>, side: real, box: Rect, o: Orientation)
    requires Ready(rest, row, side, box, o) && row != []
    ensures Greedy(Grown(rest, row, side, box, o))
    decreases |rest| + |row|, |rest|, 0
  {
    if rest != [] {
      ReadyToExtend(rest, row, side, box, o);
      if Improves(row, rest[0], side) {
        RowsAreGreedy(rest[1..], row + [rest[0]], side, box, o);
      } else {
        RemainingReady(rest, row, side, box, o);
        var r := Row(row, side, box, o, false);
        var left := Remaining(Sum(row), side, box, o);
        var more := Rows(rest, [], MinimumSide(left, o), left, NextOrientation(left, o));
        assert [] + rest == rest;
        RowsStart(rest, [], MinimumSide(left, o), left, NextOrientation(left, o));
        RowsAreGreedy(rest, [], MinimumSide(left, o), left, NextOrientation(left, o));
        assert ClosedForCause(r, more[0]);
        forall k | 0 <= k < |[r] + more| - 1
          ensures ClosedForCause(([r] + more)[k], ([r] + more)[k + 1])
        {
          if k > 0 {
            assert ClosedForCause(more[k - 1], more[k]);
          }
        }
      }
    }
  }

  // ---------------------------------------------------------------- geometry

  function RowTiles(r: Row): seq<Rect>
    requires Drawable(r)
  {
    if r.whole then [r.box] else Tiles(r.areas, r.side, r.box, r.o)
  }

  /** The rectangles of all children, in order. */
  function AllTiles(rows: seq<Row>): seq<Rect>
    requires forall i :: 0 <= i < |rows| ==> Drawable(rows[i])
  {
    if rows == [] then [] else RowTiles(rows[0]) + AllTiles(rows[1..])
  }

  /** How many of the rectangles contain the point. */
  function Count(tiles: seq<Rect>, p: Point): nat {
    if tiles == [] then 0
    else Count(tiles[..|tiles| - 1], p) + if In(p, tiles[|tiles| - 1]) then 1 else 0
  }

  lemma {:induction false} CountConcat(a: seq<Rect>, b: seq<Rect>, p: Point)
    ensures Count(a + b, p) == Count(a, p) + Count(b, p)
  {
    if b == [] {
      assert a + b == a;
    } else {
      assert (a + b)[..|a + b| - 1] == a + b[..|b| - 1];
      CountConcat(a, b[..|b| - 1], p);
    }
  }

  lemma {:induction false} OffsetTotal(areas: seq<real>, thick: real, i: nat)
    requires i <= |areas| && thick > 0.0
    ensures Offset(areas, thick, i) * thick == Sum(areas[..i])
  {
    if i > 0 {
      OffsetTotal(areas, thick, i - 1);
      assert areas[..i][..i - 1] == areas[..i - 1];
      ProductDivision(areas[i - 1], thick);
      assert (Offset(areas, thick, i - 1) + areas[i - 1] / thick) * thick
        == Offset(areas, thick, i - 1) * thick + areas[i - 1] / thick * thick;
    }
  }

  lemma PositiveQuotient(a: real, b: real)
    requires a > 0.0 && b > 0.0
    ensures a / b > 0.0
  {
  }

  lemma SameFactor(a: real, b: real, c: real)
    requires c > 0.0 && a * c == b * c
    ensures a == b
  {
    assert (a - b) * c == 0.0;
  }

  /** A full row reaches exactly along the side. */
  lemma FullRow(areas: seq<real>, side: real)
    requires Positive(areas) && areas != [] && side > 0.0
    ensures var thick := Sum(areas) / side;
      thick > 0.0 && thick * side == Sum(areas) && Offset(areas, thick, |areas|) == side
  {
    SumPositive(areas);
    var thick := Sum(areas) / side;
    PositiveQuotient(Sum(areas), side);
    ProductDivision(Sum(areas), side);
    OffsetTotal(areas, thick, |areas|);
    assert areas[..|areas|] == areas;
    SameFactor(Offset(areas, thick, |areas|), side, thick);
  }

  /** The part of the strip that the first tiles of a row fill up to `reach`. */
  function Strip(thick: real, reach: real, side: real, box: Rect, o: Orientation): Rect {
    if o == H then Rect(box.left, box.top + (side - reach), thick, reach)
    else Rect(box.left, box.height - thick, reach, thick)
  }

  /** The strip filled by the first `i` tiles of a row. */
  function Filled(areas: seq<real>, side: real, box: Rect, o: Orientation, i: nat): Rect
    requires Positive(areas) && areas != [] && side > 0.0 && i <= |areas|
  {
    SumPositive(areas);
    PositiveQuotient(Sum(areas), side);
    var thick := Sum(areas) / side;
    Strip(thick, Offset(areas, thick, i), side, box, o)
  }

  lemma {:induction false} PrefixCovers(areas: seq<real>, side: real, box: Rect, o: Orientation, i: nat, p: Point)
    requires Positive(areas) && areas != [] && side > 0.0 && i <= |areas|
    ensures Count(Tiles(areas, side, box, o)[..i], p) == if In(p, Filled(areas, side, box, o, i)) then 1 else 0
    ensures Offset(areas, FirstThick(areas, side), i) >= 0.0
  {
    var tiles := Tiles(areas, side, box, o);
    var thick := FirstThick(areas, side);
    if i > 0 {
      PrefixCovers(areas, side, box, o, i - 1, p);
      assert tiles[..i][..i - 1] == tiles[..i - 1];
      PositiveQuotient(areas[i - 1], thick);
      AddTile(box, side, thick, Offset(areas, thick, i - 1), areas[i - 1] / thick, o, p);
    }
  }

  function FirstThick(areas: seq<real>, side: real): (thick: real)
    requires Positive(areas) && areas != [] && side > 0.0
    ensures thick > 0.0
  {
    SumPositive(areas);
    PositiveQuotient(Sum(areas), side);
    Sum(areas) / side
  }

  /** Adding one tile lengthens the filled strip without overlap. */
  lemma AddTile(box: Rect, side: real, thick: real, reach: real, length: real, o: Orientation, p: Point)
    requires thick > 0.0 && reach >= 0.0 && length > 0.0
    ensures var tile := if o == H then Rect(box.left, box.top + (side - length - reach), thick, length)
                        else Rect(box.left + reach, box.height - thick, length, thick);
      (if In(p, Strip(thick, reach + length, side, box, o)) then 1 else 0)
      == (if In(p, Strip(thick, reach, side, box, o)) then 1 else 0) + (if In(p, tile) then 1 else 0)
  {
  }

  /** The tiles of a row cover its strip exactly once. */
  lemma RowCovers(areas: seq<real>, side: real, box: Rect, o: Orientation, p: Point)
    requires Positive(areas) && areas != [] && side > 0.0
    ensures Count(Tiles(areas, side, box, o), p)
      == if In(p, Strip(FirstThick(areas, side), side, side, box, o)) then 1 else 0
  {
    var tiles := Tiles(areas, side, box, o);
    FullRow(areas, side);
    PrefixCovers(areas, side, box, o, |areas|, p);
    assert tiles[..|areas|] == tiles;
  }

  /** A row and the box left over share a box at the top of the canvas. */
  lemma CutCovers(box: Rect, thick: real, o: Orientation, p: Point)
    requires box.top == 0.0 && 0.0 < thick < Dim(box, Switched(o))
    ensures var left := if o == H then Rect(box.left + thick, box.top, box.width - thick, box.height)
                        else Rect(box.left, box.top, box.width, box.height - thick);
      (if In(p, box) then 1 else 0)
      == (if In(p, Strip(thick, Dim(box, o), Dim(box, o), box, o)) then 1 else 0) + (if In(p, left) then 1 else 0)
  {
  }

  lemma ThinEnough(rest: real, row: real, side: real, box: Rect, o: Orientation)
    requires Sized(box, row + rest) && side == Dim(box, o) && rest > 0.0
    ensures row / side < Dim(box, Switched(o))
  {
    if o == H {
      CutStrip(box.width, box.height, row, rest);
    } else {
      CutStrip(box.height, box.width, row, rest);
    }
  }

  /** A row that takes all the area is as thick as the box. */
  lemma ThickAsBox(row: real, side: real, box: Rect, o: Orientation)
    requires Sized(box, row) && side == Dim(box, o)
    ensures row / side == Dim(box, Switched(o))
  {
    ProductDivision(row, side);
    SameFactor(row / side, Dim(box, Switched(o)), side);
  }

  /** Main result on the layout: with the box at top 0, every point of the box lies
      in exactly one child's rectangle, every point outside in none. */
  lemma {:induction false} RowsCover(rest: seq<real>, row: seq<real>, side: real, box: Rect, o: Orientation, p: Point)
    requires Ready(rest, row, side, box, o) && box.top == 0.0 && row + rest != []
    ensures Count(AllTiles(Rows(rest, row, side, box, o)), p) == if In(p, box) then 1 else 0
    decreases |rest| + |row|, |rest|, 1
  {
    if |rest| + |row| == 1 {
      assert AllTiles([Row(row + rest, side, box, o, true)]) == [box] by {
        assert [Row(row + rest, side, box, o, true)][1..] == [];
      }
      assert [box][..0] == [];
    } else if row == [] {
      ReadyToExtend(rest, row, side, box, o);
      assert row + [rest[0]] == [rest[0]];
      GrownCover(rest[1..], [rest[0]], side, box, o, p);
    } else {
      GrownCover(rest, row, side, box, o, p);
    }
  }

  lemma {:induction false} GrownCover(rest: seq<real>, row: seq<real>, side: real, box: Rect, o: Orientation, p: Point)
    requires Ready(rest, row, side, box, o) && row != [] && box.top == 0.0
    ensures Count(AllTiles(Grown(rest, row, side, box, o)), p) == if In(p, box) then 1 else 0
    decreases |rest| + |row|, |rest|, 0
  {
    var r := Row(row, side, box, o, false);
    if rest == [] {
      assert [r][1..] == [];
      assert AllTiles([r]) == RowTiles(r);
      RowCovers(row, side, box, o, p);
      assert Sum(rest) == 0.0;
      ThickAsBox(Sum(row), side, box, o);
    } else {
      ReadyToExtend(rest, row, side, box, o);
      if Improves(row, rest[0], side) {
        RowsCover(rest[1..], row + [rest[0]], side, box, o, p);
      } else {
        RemainingReady(rest, row, side, box, o);
        var left := Remaining(Sum(row), side, box, o);
        var more := Rows(rest, [], MinimumSide(left, o), left, NextOrientation(left, o));
        RowsCover(rest, [], MinimumSide(left, o), left, NextOrientation(left, o), p);
        assert ([r] + more)[1..] == more;
        CountConcat(RowTiles(r), AllTiles(more), p);
        RowCovers(row, side, box, o, p);
        SumPositive(rest);
        ThinEnough(Sum(rest), Sum(row), side, box, o);
        CutCovers(box, FirstThick(row, side), o, p);
      }
    }
  }

  // ---------------------------------------------------------------- what covering once means

  lemma {:induction false} CountPositive(tiles: seq<Rect>, p: Point)
    ensures Count(tiles, p) > 0 <==> exists i :: 0 <= i < |tiles| && In(p, tiles[i])
  {
    if tiles != [] {
      var init := tiles[..|tiles| - 1];
      CountPositive(init, p);
      if exists i :: 0 <= i < |init| && In(p, init[i]) {
        var i :| 0 <= i < |init| && In(p, init[i]);
        assert In(p, tiles[i]);
      }
    }
  }

  lemma {:induction false} CountTwo(tiles: seq<Rect>, p: Point, i: nat, j: nat)
    requires i < j < |tiles| && In(p, tiles[i]) && In(p, tiles[j])
    ensures Count(tiles, p) >= 2
  {
    var init := tiles[..|tiles| - 1];
    if j == |tiles| - 1 {
      CountPositive(init, p);
      assert In(p, init[i]);
    } else {
      CountTwo(init, p, i, j);
    }
  }

  ghost predicate Tiling(tiles: seq<Rect>, box: Rect) {
    && (forall p, i :: 0 <= i < |tiles| && In(p, tiles[i]) ==> In(p, box))
    && (forall p :: In(p, box) ==> exists i :: 0 <= i < |tiles| && In(p, tiles[i]))
    && (forall p, i, j :: 0 <= i < j < |tiles| ==> !(In(p, tiles[i]) && In(p, tiles[j])))
  }

  lemma CoversOnceIsTiling(tiles: seq<Rect>, box: Rect)
    requires forall p :: Count(tiles, p) == if In(p, box) then 1 else 0
    ensures Tiling(tiles, box)
  {
    forall p, i | 0 <= i < |tiles| && In(p, tiles[i])
      ensures In(p, box)
    {
      CountPositive(tiles, p);
    }
    forall p | In(p, box)
      ensures exists i :: 0 <= i < |tiles| && In(p, tiles[i])
    {
      assert Count(tiles, p) == 1;
      CountPositive(tiles, p);
    }
    forall p, i, j | 0 <= i < j < |tiles|
      ensures !(In(p, tiles[i]) && In(p, tiles[j]))
    {
      assert Count(tiles, p) <= 1;
      if In(p, tiles[i]) && In(p, tiles[j]) {
        CountTwo(tiles, p, i, j);
      }
    }
  }

  // ---------------------------------------------------------------- each child its own area

  lemma TileArea(areas: seq<real>, side: real, box: Rect, o: Orientation, i: nat)
    requires Positive(areas) && i < |areas| && side > 0.0
    ensures var t := Tiles(areas, side, box, o)[i]; t.width * t.height == areas[i]
  {
    var thick := FirstThick(areas, side);
    ProductDivision(areas[i], thick);
  }

  ghost predicate HaveAreas(tiles: seq<Rect>, areas: seq<real>) {
    |tiles| == |areas| && forall i :: 0 <= i < |tiles| ==> tiles[i].width * tiles[i].height == areas[i]
  }

  lemma RowTilesAreas(r: Row)
    requires Drawable(r)
    ensures HaveAreas(RowTiles(r), r.areas)
  {
    if !r.whole {
      forall i | 0 <= i < |r.areas|
        ensures RowTiles(r)[i].width * RowTiles(r)[i].height == r.areas[i]
      {
        TileArea(r.areas, r.side, r.box, r.o, i);
      }
    }
  }

  lemma HaveAreasConcat(a: seq<Rect>, b: seq<Rect>, s: seq<real>, t: seq<real>)
    requires HaveAreas(a, s) && HaveAreas(b, t)
    ensures HaveAreas(a + b, s + t)
  {
  }

  /** The rectangles have the areas of the children, in order. */
  lemma {:induction false} AllTilesAreas(rows: seq<Row>)
    requires forall i :: 0 <= i < |rows| ==> Drawable(rows[i])
    ensures HaveAreas(AllTiles(rows), Areas(rows))
    decreases |rows|
  {
    if rows != [] {
      AllTilesAreas(rows[1..]);
      RowTilesAreas(rows[0]);
      HaveAreasConcat(RowTiles(rows[0]), AllTiles(rows[1..]), rows[0].areas, Areas(rows[1..]));
    }
  }

  /** Main result: the rectangles of the children tile the box, each with its own area. */
  lemma SquarifyTiles(rest: seq<real>, row: seq<real>, side: real, box: Rect, o: Orientation)
    requires Ready(rest, row, side, box, o) && box.top == 0.0 && row + rest != []
    ensures Tiling(AllTiles(Rows(rest, row, side, box, o)), box)
    ensures HaveAreas(AllTiles(Rows(rest, row, side, box, o)), row + rest)
  {
    var rows := Rows(rest, row, side, box, o);
    CoverEverywhere(rest, row, side, box, o, AllTiles(rows));
    CoversOnceIsTiling(AllTiles(rows), box);
    RowsInOrder(rest, row, side, box, o);
    AllTilesAreas(rows);
  }

  lemma CoverEverywhere(rest: seq<real>, row: seq<real>, side: real, box: Rect, o: Orientation, tiles: seq<Rect>)
    requires Ready(rest, row, side, box, o) && box.top == 0.0 && row + rest != []
    requires tiles == AllTiles(Rows(rest, row, side, box, o))
    ensures forall p :: Count(tiles, p) == if In(p, box) then 1 else 0
  {
    forall p
      ensures Count(tiles, p) == if In(p, box) then 1 else 0
    {
      RowsCover(rest, row, side, box, o, p);
    }
  }

  // ---------------------------------------------------------------- the worst ratio is the worst

  function Aspect(r: Rect): real
    requires r.width > 0.0 && r.height > 0.0
  {
    Max(r.width / r.height, r.height / r.width)
  }

  lemma QuotientIs(x: real, n: real, m: real)
    requires m > 0.0 && x * m == n
    ensures x == n / m
  {
    ProductDivision(n, m);
    SameFactor(x, n / m, m);
  }

  /** The two ratios of a tile of area `a` in a row of total `d` along `side`. */
  lemma TileRatios(a: real, d: real, side: real, thick: real, length: real)
    requires a > 0.0 && d > 0.0 && side > 0.0
    requires thick == d / side && thick > 0.0 && length == a / thick && length > 0.0
    ensures length / thick == LengthRatio(a, d, side)
    ensures thick / length == ThickRatio(a, d, side)
  {
    var sides, total := Square(side), Square(d);
    ProductDivision(d, side);
    ProductDivision(a, thick);
    var x, y := length / thick, thick / length;
    ProductDivision(length, thick);
    ProductDivision(thick, length);
    assert d * d == side * side * (thick * thick);
    assert x * (thick * thick) == a;
    assert x * (d * d) == side * side * a;
    QuotientIs(x, side * side * a, d * d);
    assert y * a == thick * thick by {
      assert y * (length * thick) == thick * thick;
    }
    assert y * (side * side * a) == d * d;
    QuotientIs(y, d * d, side * side * a);
  }

  lemma LargerRatio(a: real, b: real, d: real, side: real)
    requires 0.0 < a <= b && d > 0.0 && side > 0.0
    ensures LengthRatio(a, d, side) <= LengthRatio(b, d, side)
    ensures ThickRatio(b, d, side) <= ThickRatio(a, d, side)
  {
    ScaledRatio(Square(side), a, b, Square(d));
  }

  lemma ScaledRatio(c: real, a: real, b: real, d: real)
    requires c > 0.0 && 0.0 < a <= b && d > 0.0
    ensures c * a / d <= c * b / d
    ensures c * a > 0.0 && c * b > 0.0 && d / (c * b) <= d / (c * a)
  {
  }

  lemma {:induction false} LargestIsThere(areas: seq<real>)
    requires Positive(areas) && areas != []
    ensures forall i :: 0 <= i < |areas| ==> areas[i] <= Largest(areas)
    ensures exists i :: 0 <= i < |areas| && areas[i] == Largest(areas)
  {
    var init := areas[..|areas| - 1];
    if init != [] {
      LargestIsThere(init);
      var i :| 0 <= i < |init| && init[i] == Largest(init);
      assert areas[i] == Largest(init);
      assert forall j :: 0 <= j < |areas| - 1 ==> areas[j] == init[j];
    }
    assert areas[|areas| - 1] <= Largest(areas);
  }

  lemma {:induction false} SmallestIsThere(areas: seq<real>)
    requires Positive(areas) && areas != [] && forall i :: 0 <= i < |areas| ==> areas[i] <= MAX_VALUE
    ensures forall i :: 0 <= i < |areas| ==> areas[i] >= Smallest(areas)
    ensures exists i :: 0 <= i < |areas| && areas[i] == Smallest(areas)
  {
    var init := areas[..|areas| - 1];
    if init != [] {
      SmallestIsThere(init);
      var i :| 0 <= i < |init| && init[i] == Smallest(init);
      assert areas[i] == Smallest(init);
      assert forall j :: 0 <= j < |areas| - 1 ==> areas[j] == init[j];
    }
    assert areas[|areas| - 1] >= Smallest(areas);
  }

  lemma TileAspect(areas: seq<real>, side: real, box: Rect, o: Orientation, i: nat)
    requires Positive(areas) && side > 0.0 && i < |areas|
    ensures Sum(areas) > 0.0
    ensures var d, t := Sum(areas), Tiles(areas, side, box, o)[i];
      && t.width > 0.0 && t.height > 0.0
      && Aspect(t) == Max(LengthRatio(areas[i], d, side), ThickRatio(areas[i], d, side))
  {
    SumPositive(areas);
    var d, thick := Sum(areas), FirstThick(areas, side);
    var length := areas[i] / thick;
    PositiveQuotient(areas[i], thick);
    TileRatios(areas[i], d, side, thick, length);
    var t := Tiles(areas, side, box, o)[i];
    assert t == Tile(areas, side, box, o, i);
    BothWays(t, length, thick, o);
  }

  lemma BothWays(t: Rect, length: real, thick: real, o: Orientation)
    requires length > 0.0 && thick > 0.0
    requires if o == H then t.width == thick && t.height == length else t.width == length && t.height == thick
    ensures Aspect(t) == Max(length / thick, thick / length)
  {
  }

  lemma TileNotWorse(areas: seq<real>, side: real, box: Rect, o: Orientation, i: nat)
    requires Positive(areas) && side > 0.0 && i < |areas| && forall k :: 0 <= k < |areas| ==> areas[k] <= MAX_VALUE
    ensures var t := Tiles(areas, side, box, o)[i];
      t.width > 0.0 && t.height > 0.0 && Aspect(t) <= Worst(areas, side)
  {
    TileAspect(areas, side, box, o, i);
    SmallestPositive(areas);
    SmallestIsThere(areas);
    LargestIsThere(areas);
    LargerRatio(areas[i], Largest(areas), Sum(areas), side);
    LargerRatio(Smallest(areas), areas[i], Sum(areas), side);
  }

  /** Main result on `worstAspectRatio`: it is the largest aspect ratio of the tiles
      the row would get, wherever the row is laid out. */
  lemma WorstIsMaxAspect(areas: seq<real>, side: real, box: Rect, o: Orientation)
    requires Positive(areas) && areas != [] && side > 0.0
    requires forall k :: 0 <= k < |areas| ==> areas[k] <= MAX_VALUE
    ensures forall t :: t in Tiles(areas, side, box, o)
              ==> t.width > 0.0 && t.height > 0.0 && Aspect(t) <= Worst(areas, side)
    ensures exists t :: t in Tiles(areas, side, box, o) && t.width > 0.0 && t.height > 0.0
              && Aspect(t) == Worst(areas, side)
  {
    var tiles := Tiles(areas, side, box, o);
    forall t | t in tiles
      ensures t.width > 0.0 && t.height > 0.0 && Aspect(t) <= Worst(areas, side)
    {
      var i :| 0 <= i < |tiles| && tiles[i] == t;
      TileNotWorse(areas, side, box, o, i);
    }
    LargestIsThere(areas);
    SmallestIsThere(areas);
    var i :| 0 <= i < |areas| && areas[i] == Largest(areas);
    var j :| 0 <= j < |areas| && areas[j] == Smallest(areas);
    TileAspect(areas, side, box, o, i);
    TileAspect(areas, side, box, o, j);
    SmallestPositive(areas);
    assert tiles[i] in tiles && tiles[j] in tiles;
    LargerRatio(areas[j], areas[i], Sum(areas), side);
    assert Aspect(tiles[i]) == Worst(areas, side) || Aspect(tiles[j]) == Worst(areas, side);
  }

  // ---------------------------------------------------------------- steps of the program

  lemma TileIs(areas: seq<real>, side: real, box: Rect, o: Orientation, i: nat, thick: real, length: real, offset: real)
    requires Positive(areas) && areas != [] && side > 0.0 && i < |areas|
    requires thick == FirstThick(areas, side) && length == areas[i] / thick && offset == Offset(areas, thick, i)
    ensures Tiles(areas, side, box, o)[i]
      == if o == H then Rect(box.left, box.top + (side - length - offset), thick, length)
         else Rect(box.left + offset, box.height - thick, length, thick)
    ensures Offset(areas, thick, i + 1) == offset + length
  {
    SumPositive(areas);
  }

  /** The rectangles that `squarify` gives to the row and the children after it. */
  function TilesOf(rest: seq<real>, row: seq<real>, side: real, box: Rect, o: Orientation): seq<Rect>
    requires Ready(rest, row, side, box, o)
  {
    AllTiles(Rows(rest, row, side, box, o))
  }

  function GrownTiles(rest: seq<real>, row: seq<real>, side: real, box: Rect, o: Orientation): seq<Rect>
    requires Ready(rest, row, side, box, o) && row != []
  {
    AllTiles(Grown(rest, row, side, box, o))
  }

  lemma TilesOfOne(rest: seq<real>, row: seq<real>, side: real, box: Rect, o: Orientation)
    requires Ready(rest, row, side, box, o) && |rest| + |row| == 1
    ensures TilesOf(rest, row, side, box, o) == [box]
  {
    SingleSum(row + rest);
    SumConcat(row, rest);
    TilesOfOneRow(Row(row + rest, side, box, o, true));
  }

  lemma TilesOfOneRow(r: Row)
    requires Drawable(r)
    ensures AllTiles([r]) == RowTiles(r)
  {
    assert [r][1..] == [];
    assert AllTiles([r]) == RowTiles([r][0]) + AllTiles([r][1..]);
  }

  lemma TilesStart(rest: seq<real>, side: real, box: Rect, o: Orientation)
    requires Ready(rest, [], side, box, o) && |rest| >= 2
    ensures Ready(rest[1..], [rest[0]], side, box, o)
    ensures TilesOf(rest, [], side, box, o) == GrownTiles(rest[1..], [rest[0]], side, box, o)
  {
    RowsBegin(rest, side, box, o);
  }

  /** The arguments of `squarify` for the children left when a row is closed. */
  datatype Frame = Frame(box: Rect, side: real, o: Orientation)

  function AfterRow(row: seq<real>, side: real, box: Rect, o: Orientation): Frame
    requires side > 0.0
  {
    var left := Remaining(Sum(row), side, box, o);
    Frame(left, MinimumSide(left, o), NextOrientation(left, o))
  }

  lemma TilesOfClosedRow(rest: seq<real>, row: seq<real>, side: real, box: Rect, o: Orientation)
    requires Ready(rest, row, side, box, o) && row != [] && rest != []
    requires !Improves(row, rest[0], side)
    ensures var f := AfterRow(row, side, box, o);
      && Ready(rest, [], f.side, f.box, f.o)
      && GrownTiles(rest, row, side, box, o) == Tiles(row, side, box, o) + TilesOf(rest, [], f.side, f.box, f.o)
  {
    RemainingReady(rest, row, side, box, o);
    var f := AfterRow(row, side, box, o);
    var r := Row(row, side, box, o, false);
    var more := Rows(rest, [], f.side, f.box, f.o);
    assert ([r] + more)[1..] == more;
  }

  lemma TilesOfLastRow(row: seq<real>, side: real, box: Rect, o: Orientation)
    requires Ready([], row, side, box, o) && row != []
    ensures GrownTiles([], row, side, box, o) == Tiles(row, side, box, o)
  {
    TilesOfOneRow(Row(row, side, box, o, false));
  }

  lemma TilesOfExtendedRow(rest: seq<real>, row: seq<real>, side: real, box: Rect, o: Orientation)
    requires Ready(rest, row, side, box, o) && row != [] && rest != []
    requires Improves(row, rest[0], side)
    ensures Ready(rest[1..], row + [rest[0]], side, box, o)
    ensures GrownTiles(rest, row, side, box, o) == TilesOf(rest[1..], row + [rest[0]], side, box, o)
  {
    ReadyToExtend(rest, row, side, box, o);
  }

  /** The share of an area that falls to a value. */
  function Share(area: real, value: real, total: real): real
    requires total > 0.0
  {
    Product(area, value) / total
  }

  lemma ShareIsLinear(area: real, value: real, total: real)
    requires total > 0.0
    ensures Share(area, value, total) == area / total * value
  {
    ProductDivision(area, total);
    assert area / total * value * total == area * value;
    QuotientIs(area / total * value, area * value, total);
  }

  lemma {:induction false} SharesAddUp(values: seq<real>, shares: seq<real>, area: real, total: real)
    requires |shares| == |values| && total > 0.0
    requires forall i :: 0 <= i < |values| ==> shares[i] == Share(area, values[i], total)
    ensures Sum(shares) == area / total * Sum(values)
  {
    if values != [] {
      var n := |values| - 1;
      SharesAddUp(values[..n], shares[..n], area, total);
      ShareIsLinear(area, values[n], total);
    }
  }

  /** `share` is to `area` as `value` is to `total`. */
  predicate ProportionalTo(share: real, total: real, area: real, value: real) {
    share * total == area * value
  }

  lemma ShareIsProportional(area: real, value: real, total: real)
    requires area > 0.0 && value > 0.0 && total > 0.0
    ensures ProportionalTo(Share(area, value, total), total, area, value) && Share(area, value, total) > 0.0
  {
    ProductDivision(Product(area, value), total);
    PositiveQuotient(Product(area, value), total);
  }

  lemma SharesFill(values: seq<real>, shares: seq<real>, area: real, total: real)
    requires |shares| == |values| && total > 0.0 && Sum(values) == total && Positive(values) && area > 0.0
    requires forall i :: 0 <= i < |values| ==> shares[i] == Share(area, values[i], total)
    ensures Sum(shares) == area && Positive(shares)
    ensures forall i :: 0 <= i < |values| ==> ProportionalTo(shares[i], total, area, values[i])
  {
    SharesAreProportional(values, shares, area, total);
    SharesAddUp(values, shares, area, total);
    ProductDivision(area, total);
  }

  lemma SharesAreProportional(values: seq<real>, shares: seq<real>, area: real, total: real)
    requires |shares| == |values| && total > 0.0 && Positive(values) && area > 0.0
    requires forall i :: 0 <= i < |values| ==> shares[i] == Share(area, values[i], total)
    ensures Positive(shares)
    ensures forall i :: 0 <= i < |values| ==> ProportionalTo(shares[i], total, area, values[i])
  {
    forall i | 0 <= i < |values|
      ensures ProportionalTo(shares[i], total, area, values[i]) && shares[i] > 0.0
    {
      ShareIsProportional(area, values[i], total);
    }
  }

  ghost predicate Placed(coords: seq<Rect>, areas: seq<real>, box: Rect) {
    Tiling(coords, box) && HaveAreas(coords, areas)
  }

  lemma FirstAlone(areas: seq<real>, box: Rect, o: Orientation)
    requires areas != [] && Positive(areas) && Sized(box, Sum(areas)) && box.top == 0.0
    ensures Ready(areas[1..], [areas[0]], Dim(box, o), box, o)
    ensures Placed(TilesOf(areas[1..], [areas[0]], Dim(box, o), box, o), areas, box)
  {
    SumConcat([areas[0]], areas[1..]);
    assert [areas[0]] + areas[1..] == areas;
    SquarifyTiles(areas[1..], [areas[0]], Dim(box, o), box, o);
  }
}
