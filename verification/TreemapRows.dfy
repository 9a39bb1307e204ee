/** Which rows a treemap has. */
module TreemapRows {
  // What fixes the rows of `squarify`, in terms of `worstAspectRatio` alone: a child is taken
  // into a row while that does not make the worst ratio of the row worse, and never otherwise;
  // each further row runs along the shorter side of what is left.  Whatever rows satisfy this
  // are the rows of `squarify`.

  import opened Treemap

  /** From index `from` on, every child of the row was worth taking in. */
  ghost predicate TakenForCause(r: Row, from: nat) {
    && Positive(r.areas) && r.side > 0.0
    && forall j :: from <= j < |r.areas| && 0 < j ==> WorthTaking(r, j)
  }

  ghost predicate WorthTaking(r: Row, j: nat)
    requires Positive(r.areas) && r.side > 0.0 && j < |r.areas|
  {
    Positive(r.areas[..j]) && Positive([r.areas[j]] + r.areas[..j])
      && Worst(r.areas[..j], r.side) >= Worst([r.areas[j]] + r.areas[..j], r.side)
  }

  /** These are rows for that box, the first of which was begun with so many children. */
  ghost predicate Follow(rows: seq<Row>, from: nat, side: real, box: Rect, o: Orientation)
    decreases |rows|
  {
    rows != [] ==>
      var r := rows[0];
      && r.side == side && r.box == box && r.o == o && side > 0.0 && r.areas != [] && TakenForCause(r, from)
      && r.whole == (|rows| == 1 && |r.areas| == 1)
      && if |rows| == 1 then true else
         var left := Remaining(Sum(r.areas), side, box, o);
         && ClosedForCause(r, rows[1])
         && Follow(rows[1..], 1, Shorter(left), left, Along(left, o))
  }

  function Shorter(box: Rect): real {
    if box.width < box.height then box.width else box.height
  }

  /** The orientation whose side is the shorter one; of two equal sides the same as before. */
  function Along(box: Rect, o: Orientation): Orientation {
    if box.width < box.height then V else if box.height < box.width then H else o
  }

  lemma ShorterIsMinimum(box: Rect, o: Orientation)
    ensures MinimumSide(box, o) == Shorter(box) && NextOrientation(box, o) == Along(box, o)
    ensures Shorter(box) == Dim(box, Along(box, o)) && Shorter(box) <= box.width && Shorter(box) <= box.height
  {
  }

  lemma TakenLater(r: Row, from: nat)
    requires TakenForCause(r, from + 1) && 0 < from < |r.areas| && WorthTaking(r, from)
    ensures TakenForCause(r, from)
  {
  }

  /** The first row goes on from the one given. */
  ghost predicate Continues(rows: seq<Row>, row: seq<real>) {
    rows != [] && row <= rows[0].areas
  }

  lemma {:induction false} RowsFollow(rest: seq<real>, row: seq<real>, side: real, box: Rect, o: Orientation)
    requires Ready(rest, row, side, box, o) && row + rest != []
    ensures var rows := Rows(rest, row, side, box, o);
      Follow(rows, if row == [] then 1 else |row|, side, box, o) && Continues(rows, row)
    decreases |rest| + |row|, |rest|, 2
  {
    if |rest| + |row| == 1 {
      RowsOfOne(rest, row, side, box, o);
    } else if row == [] {
      RowsBegin(rest, side, box, o);
      GrownFollow(rest[1..], [rest[0]], side, box, o);
    } else {
      GrownFollow(rest, row, side, box, o);
    }
  }

  lemma {:induction false} GrownFollow(rest: seq<real>, row: seq<real>, side: real, box: Rect, o: Orientation)
    requires Ready(rest, row, side, box, o) && row != [] && |rest| + |row| >= 2
    ensures var rows := Grown(rest, row, side, box, o); Follow(rows, |row|, side, box, o) && Continues(rows, row)
    decreases |rest| + |row|, |rest|, 1
  {
    if rest == [] {
    } else {
      ReadyToExtend(rest, row, side, box, o);
      if Improves(row, rest[0], side) {
        var rows := Rows(rest[1..], row + [rest[0]], side, box, o);
        RowsFollow(rest[1..], row + [rest[0]], side, box, o);
        ExtendedFollow(rows, row, rest[0], side, box, o);
      } else {
        RemainingReady(rest, row, side, box, o);
        var left := Remaining(Sum(row), side, box, o);
        ShorterIsMinimum(left, o);
        var more := Rows(rest, [], MinimumSide(left, o), left, NextOrientation(left, o));
        RowsFollow(rest, [], MinimumSide(left, o), left, NextOrientation(left, o));
        RowsStart(rest, [], MinimumSide(left, o), left, NextOrientation(left, o));
        assert [] + rest == rest;
        var r := Row(row, side, box, o, false);
        assert ClosedForCause(r, more[0]);
        assert ([r] + more)[1..] == more;
      }
    }
  }

  lemma ExtendedFollow(rows: seq<Row>, row: seq<real>, next: real, side: real, box: Rect, o: Orientation)
    requires row != [] && Positive(row) && next > 0.0 && side > 0.0 && Improves(row, next, side)
    requires Follow(rows, |row| + 1, side, box, o) && Continues(rows, row + [next])
    ensures Follow(rows, |row|, side, box, o) && Continues(rows, row)
  {
    var r := rows[0];
    assert r.areas[..|row| + 1] == row + [next];
    assert r.areas[..|row|] == row && r.areas[|row|] == next;
    assert Positive([next] + row);
    TakenLater(r, |row|);
  }

  /** No row is empty. */
  predicate Full(rows: seq<Row>) {
    forall k :: 0 <= k < |rows| ==> rows[k].areas != []
  }

  lemma {:induction false} FollowIsFull(rows: seq<Row>, from: nat, side: real, box: Rect, o: Orientation)
    requires Follow(rows, from, side, box, o)
    ensures Full(rows)
    decreases |rows|
  {
    if |rows| >= 2 {
      var left := Remaining(Sum(rows[0].areas), side, box, o);
      FollowIsFull(rows[1..], 1, Shorter(left), left, Along(left, o));
      assert forall k :: 0 < k < |rows| ==> rows[k] == rows[1..][k - 1];
    }
  }

  lemma AreasOfFirst(rows: seq<Row>)
    requires rows != [] && Full(rows)
    ensures Areas(rows) == rows[0].areas + Areas(rows[1..])
    ensures |rows| >= 2 ==> Areas(rows[1..]) != [] && rows[1].areas[0] == Areas(rows[1..])[0]
  {
    if |rows| >= 2 {
      assert rows[1..][0] == rows[1];
    }
  }

  /** Where the given row ends in the first of the rows, which cover it and the rest. */
  lemma FirstRow(rows: seq<Row>, row: seq<real>, rest: seq<real>)
    requires Full(rows) && Continues(rows, row) && Areas(rows) == row + rest
    ensures rest == [] ==> rows[0].areas == row && |rows| == 1
    ensures rest != [] && rows[0].areas == row ==>
      |rows| >= 2 && rows[1].areas[0] == rest[0] && Areas(rows[1..]) == rest
    ensures rest != [] && rows[0].areas != row ==> (Continues(rows, row + [rest[0]]) && |row| < |rows[0].areas|
      && rows[0].areas[|row|] == rest[0] && rows[0].areas[..|row|] == row)
  {
    AreasOfFirst(rows);
    var first, more := rows[0].areas, Areas(rows[1..]);
    assert (first + more)[|row|..] == rest;
    if first == row {
      assert first + more == row + more;
      assert more == rest;
    } else {
      assert |row| < |first| && (first + more)[|row|] == first[|row|];
    }
  }

  /** Main result on the choice of rows: those of `squarify` are the only ones for the
      children in order such that every child of a row was worth taking, every row was closed
      because the next child was not, and each runs along the shorter side of what is left. */
  lemma {:induction false} RowsAreFixed(rows: seq<Row>, rest: seq<real>, row: seq<real>, side: real, box: Rect,
                                        o: Orientation)
    requires Ready(rest, row, side, box, o) && row + rest != []
    requires Follow(rows, if row == [] then 1 else |row|, side, box, o) && Continues(rows, row)
    requires Areas(rows) == row + rest
    ensures rows == Rows(rest, row, side, box, o)
    decreases |rest| + |row|, |rest|, 2
  {
    FollowIsFull(rows, if row == [] then 1 else |row|, side, box, o);
    if row == [] {
      AreasOfFirst(rows);
      assert rows[0].areas[0] == (row + rest)[0] == rest[0];
      assert [rest[0]] + rest[1..] == row + rest;
      if |rest| >= 2 {
        RowsBegin(rest, side, box, o);
        GrownIsFixed(rows, rest[1..], [rest[0]], side, box, o);
      } else {
        RowsOfOne(rest, row, side, box, o);
        assert row + rest == rest == rest + [];
        FirstRow(rows, rest, []);
        assert rows == [rows[0]];
      }
    } else if |rest| + |row| == 1 {
      RowsOfOne(rest, row, side, box, o);
      FirstRow(rows, row, rest);
      assert row + rest == row && rows == [rows[0]];
    } else {
      GrownIsFixed(rows, rest, row, side, box, o);
    }
  }

  lemma {:induction false} GrownIsFixed(rows: seq<Row>, rest: seq<real>, row: seq<real>, side: real, box: Rect,
                                        o: Orientation)
    requires Ready(rest, row, side, box, o) && row != [] && |rest| + |row| >= 2
    requires Follow(rows, |row|, side, box, o) && Continues(rows, row) && Areas(rows) == row + rest
    ensures rows == Grown(rest, row, side, box, o)
    decreases |rest| + |row|, |rest|, 1
  {
    FollowIsFull(rows, |row|, side, box, o);
    FirstRow(rows, row, rest);
    if rest == [] {
      assert rows == [rows[0]];
    } else if rows[0].areas == row {
      ClosedIsFixed(rows, rest, row, side, box, o);
    } else {
      ExtendedIsFixed(rows, rest, row, side, box, o);
    }
  }

  lemma ClosedIsFixed(rows: seq<Row>, rest: seq<real>, row: seq<real>, side: real, box: Rect, o: Orientation)
    requires Ready(rest, row, side, box, o) && row != [] && rest != [] && |rows| >= 2
    requires Follow(rows, |row|, side, box, o) && rows[0].areas == row
    requires rows[1].areas != [] && rows[1].areas[0] == rest[0] && Areas(rows[1..]) == rest
    ensures rows == Grown(rest, row, side, box, o)
    decreases |rest| + |row|, |rest|, 0
  {
    ReadyToExtend(rest, row, side, box, o);
    RemainingReady(rest, row, side, box, o);
    var left := Remaining(Sum(row), side, box, o);
    ShorterIsMinimum(left, o);
    assert [] + rest == rest;
    RowsAreFixed(rows[1..], rest, [], MinimumSide(left, o), left, NextOrientation(left, o));
    ClosedRows(rows, rest, row, side, box, o);
  }

  lemma ClosedRows(rows: seq<Row>, rest: seq<real>, row: seq<real>, side: real, box: Rect, o: Orientation)
    requires Ready(rest, row, side, box, o) && row != [] && rest != [] && rows != []
    requires !Improves(row, rest[0], side) && rows[0] == Row(row, side, box, o, false)
    requires var f := AfterRow(row, side, box, o);
      Ready(rest, [], f.side, f.box, f.o) && rows[1..] == Rows(rest, [], f.side, f.box, f.o)
    ensures rows == Grown(rest, row, side, box, o)
  {
    ReadyToExtend(rest, row, side, box, o);
    assert rows == [rows[0]] + rows[1..];
  }

  lemma ExtendedIsFixed(rows: seq<Row>, rest: seq<real>, row: seq<real>, side: real, box: Rect, o: Orientation)
    requires Ready(rest, row, side, box, o) && row != [] && rest != []
    requires Follow(rows, |row|, side, box, o) && Continues(rows, row + [rest[0]]) && Areas(rows) == row + rest
    requires |row| < |rows[0].areas| && rows[0].areas[|row|] == rest[0] && rows[0].areas[..|row|] == row
    ensures rows == Grown(rest, row, side, box, o)
    decreases |rest| + |row|, |rest|, 0
  {
    ReadyToExtend(rest, row, side, box, o);
    LaterFollow(rows, |row|, side, box, o);
    Rejoined(row, rest);
    RowsAreFixed(rows, rest[1..], row + [rest[0]], side, box, o);
    NextWasWorth(rows[0], row, rest[0]);
    GrownExtends(rest, row, side, box, o);
  }

  lemma Rejoined(row: seq<real>, rest: seq<real>)
    requires rest != []
    ensures row + [rest[0]] + rest[1..] == row + rest && |row + [rest[0]]| == |row| + 1 && row + [rest[0]] != []
  {
  }

  lemma NextWasWorth(r: Row, row: seq<real>, next: real)
    requires TakenForCause(r, |row|) && row != [] && |row| < |r.areas| && r.areas[|row|] == next
      && r.areas[..|row|] == row
    ensures Positive(row) && next > 0.0 && Improves(row, next, r.side)
  {
    assert WorthTaking(r, |row|);
  }

  lemma GrownExtends(rest: seq<real>, row: seq<real>, side: real, box: Rect, o: Orientation)
    requires Ready(rest, row, side, box, o) && row != [] && rest != [] && Improves(row, rest[0], side)
    ensures Ready(rest[1..], row + [rest[0]], side, box, o)
    ensures Grown(rest, row, side, box, o) == Rows(rest[1..], row + [rest[0]], side, box, o)
  {
    ReadyToExtend(rest, row, side, box, o);
  }

  lemma LaterFollow(rows: seq<Row>, from: nat, side: real, box: Rect, o: Orientation)
    requires Follow(rows, from, side, box, o)
    ensures Follow(rows, from + 1, side, box, o)
  {
  }

  // ---------------------------------------------------------------- row by row

  /** Every child taken into a row keeps its worst ratio from growing, the first row apart as
      far as it was given. */
  lemma {:induction false} EveryChildIsWorthTaking(rows: seq<Row>, from: nat, side: real, box: Rect, o: Orientation,
                                                   k: nat, j: nat)
    requires Follow(rows, from, side, box, o) && k < |rows| && 0 < j < |rows[k].areas| && (k == 0 ==> from <= j)
    ensures var r := rows[k];
      && r.side > 0.0 && Positive(r.areas[..j]) && Positive([r.areas[j]] + r.areas[..j])
      && Worst(r.areas[..j], r.side) >= Worst([r.areas[j]] + r.areas[..j], r.side)
    decreases |rows|
  {
    if k == 0 {
      assert WorthTaking(rows[0], j);
    } else {
      var left := Remaining(Sum(rows[0].areas), side, box, o);
      EveryChildIsWorthTaking(rows[1..], 1, Shorter(left), left, Along(left, o), k - 1, j);
    }
  }

  lemma ChildrenAreWorthTaking(rest: seq<real>, row: seq<real>, side: real, box: Rect, o: Orientation, k: nat, j: nat)
    requires Ready(rest, row, side, box, o) && k < |Rows(rest, row, side, box, o)|
    requires 0 < j < |Rows(rest, row, side, box, o)[k].areas| && (k == 0 ==> |row| <= j)
    ensures var r := Rows(rest, row, side, box, o)[k];
      && r.side > 0.0 && Positive(r.areas[..j]) && Positive([r.areas[j]] + r.areas[..j])
      && Worst(r.areas[..j], r.side) >= Worst([r.areas[j]] + r.areas[..j], r.side)
  {
    if row + rest != [] {
      RowsFollow(rest, row, side, box, o);
      EveryChildIsWorthTaking(Rows(rest, row, side, box, o), if row == [] then 1 else |row|, side, box, o, k, j);
    }
  }

  lemma {:induction false} FollowSides(rows: seq<Row>, from: nat, side: real, box: Rect, o: Orientation, k: nat)
    requires Follow(rows, from, side, box, o) && k < |rows|
    ensures var r := rows[k];
      k > 0 ==> (r.side <= r.box.width && r.side <= r.box.height
        && r.side == if r.o == H then r.box.height else r.box.width)
    decreases |rows|
  {
    if k > 0 {
      var left := Remaining(Sum(rows[0].areas), side, box, o);
      ShorterIsMinimum(left, o);
      assert rows[1..][k - 1] == rows[k];
      if k > 1 {
        FollowSides(rows[1..], 1, Shorter(left), left, Along(left, o), k - 1);
      }
    }
  }

  /** Every row after the first runs along the shorter side of its box, which is the side that
      its orientation names. */
  lemma LaterRowsAreShort(rest: seq<real>, row: seq<real>, side: real, box: Rect, o: Orientation, k: nat)
    requires Ready(rest, row, side, box, o) && 0 < k < |Rows(rest, row, side, box, o)|
    ensures var r := Rows(rest, row, side, box, o)[k];
      && r.side <= r.box.width && r.side <= r.box.height
      && r.side == if r.o == H then r.box.height else r.box.width
  {
    if row + rest != [] {
      RowsFollow(rest, row, side, box, o);
      FollowSides(Rows(rest, row, side, box, o), if row == [] then 1 else |row|, side, box, o, k);
    }
  }

  // ---------------------------------------------------------------- how a row stands

  /** A row of orientation H stands at the left of its box, built up from the bottom; one of
      orientation V lies at the bottom, from left to right.  The tiles touch. */
  lemma RowStands(areas: seq<real>, side: real, box: Rect, o: Orientation, i: nat)
    requires Positive(areas) && side > 0.0 && i < |areas|
    ensures var t := Tiles(areas, side, box, o);
      && t[i].width * t[i].height == areas[i]
      && (o == H ==> (t[i].left == box.left && t[i].width == t[0].width
            && t[i].top + t[i].height == if i == 0 then box.top + side else t[i - 1].top))
      && (o == V ==> (t[i].top + t[i].height == box.height && t[i].height == t[0].height
            && t[i].left == if i == 0 then box.left else t[i - 1].left + t[i - 1].width))
  {
    SumPositive(areas);
    TileArea(areas, side, box, o, i);
  }
}
