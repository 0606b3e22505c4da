/**
  EXIF orientation of an uploaded avatar (handlers/avatar.go, orientJPEG; the Orientation field
  of section 8 of TIFF 6.0). `a[y, x]` is the pixel at column x of row y.
 */
module Avatar {

  predicate Rotates(orientation: int) {
    2 <= orientation <= 8
  }

  /** The size of the output, as (width, height). */
  function OutSize(orientation: int, width: int, height: int): (int, int) {
    if 5 <= orientation <= 8 then (height, width) else (width, height)
  }

  /** Where the pixel at column x, row y goes, as (column, row). */
  function Target(orientation: int, width: int, height: int, x: int, y: int): (int, int) {
    match orientation
    case 2 => (width - 1 - x, y)
    case 3 => (width - 1 - x, height - 1 - y)
    case 4 => (x, height - 1 - y)
    case 5 => (y, x)
    case 6 => (height - 1 - y, x)
    case 7 => (height - 1 - y, width - 1 - x)
    case 8 => (y, width - 1 - x)
    case _ => (x, y)
  }

  /** The orientation that takes an oriented image back: 6 and 8 swap, the others are their own. */
  function Undo(orientation: int): int {
    if orientation == 6 then 8 else if orientation == 8 then 6 else orientation
  }

  predicate Inside(x: int, y: int, size: (int, int)) {
    0 <= x < size.0 && 0 <= y < size.1
  }

  /** Targets are inside the output, and undoing leads back to the pixel one came from. */
  lemma UndoTarget(orientation: int, width: int, height: int, x: int, y: int)
    requires Inside(x, y, (width, height))
    ensures var out := OutSize(orientation, width, height);
            var t := Target(orientation, width, height, x, y);
            && Inside(t.0, t.1, out)
            && OutSize(Undo(orientation), out.0, out.1) == (width, height)
            && Target(Undo(orientation), out.0, out.1, t.0, t.1) == (x, y)
  {
  }

  /** Every output pixel is the target of exactly one source pixel. */
  lemma TargetBijective(orientation: int, width: int, height: int, nx: int, ny: int)
    requires Inside(nx, ny, OutSize(orientation, width, height))
    ensures var out := OutSize(orientation, width, height);
            var s := Target(Undo(orientation), out.0, out.1, nx, ny);
            && Inside(s.0, s.1, (width, height)) && Target(orientation, width, height, s.0, s.1) == (nx, ny)
            && (forall x, y :: Inside(x, y, (width, height)) ==>
                  (Target(orientation, width, height, x, y) == (nx, ny) ==> (x, y) == s))
  {
    var out := OutSize(orientation, width, height);
    UndoTarget(Undo(orientation), out.0, out.1, nx, ny);
    forall x, y | Inside(x, y, (width, height)) && Target(orientation, width, height, x, y) == (nx, ny)
      ensures (x, y) == Target(Undo(orientation), out.0, out.1, nx, ny)
    {
      UndoTarget(orientation, width, height, x, y);
    }
  }

  /**
    Where the corners go, as the Orientation field defines it: 2 mirrors left and right, 3 turns by
    half, 4 mirrors top and bottom, 5 transposes, 6 is shown turned clockwise, 7 transposes the
    other way, 8 is shown turned counter-clockwise.
   */
  lemma Corners(width: int, height: int)
    requires width > 0 && height > 0
    ensures Target(2, width, height, 0, 0) == (width - 1, 0)
    ensures Target(3, width, height, 0, 0) == (width - 1, height - 1)
    ensures Target(4, width, height, 0, 0) == (0, height - 1)
    ensures Target(5, width, height, 0, 0) == (0, 0) && Target(5, width, height, width - 1, 0) == (0, width - 1)
    ensures Target(6, width, height, 0, 0) == (height - 1, 0)
            && Target(6, width, height, width - 1, 0) == (height - 1, width - 1)
    ensures Target(7, width, height, 0, 0) == (height - 1, width - 1)
            && Target(7, width, height, width - 1, 0) == (height - 1, 0)
    ensures Target(8, width, height, 0, 0) == (0, width - 1) && Target(8, width, height, width - 1, 0) == (0, 0)
  {
  }

  /** Neighbours stay neighbours: a step to the right or down is the same step in the output everywhere. */
  lemma Rigid(orientation: int, width: int, height: int, x: int, y: int)
    ensures var t, o := Target(orientation, width, height, x, y), Target(orientation, width, height, 0, 0);
            var right, right0 := Target(orientation, width, height, x + 1, y), Target(orientation, width, height, 1, 0);
            var down, down0 := Target(orientation, width, height, x, y + 1), Target(orientation, width, height, 0, 1);
            && right.0 - t.0 == right0.0 - o.0 && right.1 - t.1 == right0.1 - o.1
            && down.0 - t.0 == down0.0 - o.0 && down.1 - t.1 == down0.1 - o.1
  {
  }

  method OrientJpeg<P(0)>(source: array2<P>, orientation: int) returns (rotated: array2<P>)
    ensures !Rotates(orientation) ==> rotated == source
    ensures Rotates(orientation) ==> fresh(rotated)
    ensures Rotates(orientation) ==>
              (rotated.Length1, rotated.Length0) == OutSize(orientation, source.Length1, source.Length0)
    ensures Rotates(orientation) ==> forall nx, ny :: Inside(nx, ny, (rotated.Length1, rotated.Length0)) ==>
              var s := Target(Undo(orientation), rotated.Length1, rotated.Length0, nx, ny);
              Inside(s.0, s.1, (source.Length1, source.Length0)) && rotated[ny, nx] == source[s.1, s.0]
  {
    if orientation < 2 || orientation > 8 {
      return source;
    }
    var width, height := source.Length1, source.Length0;
    var outWidth, outHeight := width, height;
    if orientation >= 5 {
      outWidth, outHeight := height, width;
    }
    rotated := new P[outHeight, outWidth];
    for y := 0 to height
      invariant forall i, j :: 0 <= i < width && 0 <= j < y ==> PixelMoved(source, rotated, orientation, i, j)
    {
      for x := 0 to width
        invariant forall i, j :: 0 <= i < width && 0 <= j < y ==> PixelMoved(source, rotated, orientation, i, j)
        invariant forall i :: 0 <= i < x ==> PixelMoved(source, rotated, orientation, i, y)
      {
        UndoTarget(orientation, width, height, x, y);
        var t := Target(orientation, width, height, x, y);
        TargetBijective(orientation, width, height, t.0, t.1);
        label beforeWrite:
        rotated[t.1, t.0] := source[y, x];
        forall i, j | 0 <= i < width && (0 <= j < y || (j == y && i < x))
          ensures PixelMoved(source, rotated, orientation, i, j)
        {
          assert old@beforeWrite(PixelMoved(source, rotated, orientation, i, j));
        }
      }
    }
    forall nx, ny | Inside(nx, ny, (outWidth, outHeight))
      ensures var s := Target(Undo(orientation), outWidth, outHeight, nx, ny);
              Inside(s.0, s.1, (width, height)) && rotated[ny, nx] == source[s.1, s.0]
    {
      TargetBijective(orientation, width, height, nx, ny);
      var s := Target(Undo(orientation), outWidth, outHeight, nx, ny);
      assert PixelMoved(source, rotated, orientation, s.0, s.1);
    }
  }

  ghost predicate PixelMoved<P>(source: array2<P>, rotated: array2<P>, orientation: int, x: int, y: int)
    reads source, rotated
  {
    && Inside(x, y, (source.Length1, source.Length0))
    && var t := Target(orientation, source.Length1, source.Length0, x, y);
    Inside(t.0, t.1, (rotated.Length1, rotated.Length0)) && rotated[t.1, t.0] == source[y, x]
  }

  /** Orienting and orienting back gives the image one started from, for every size. */
  method OrientThereAndBack<P(0)>(source: array2<P>, orientation: int) returns (back: array2<P>)
    ensures back.Length0 == source.Length0 && back.Length1 == source.Length1
    ensures forall x, y :: Inside(x, y, (source.Length1, source.Length0)) ==> back[y, x] == source[y, x]
  {
    var rotated := OrientJpeg(source, orientation);
    back := OrientJpeg(rotated, Undo(orientation));
    if Rotates(orientation) {
      forall x, y | Inside(x, y, (source.Length1, source.Length0)) ensures back[y, x] == source[y, x] {
        UndoTarget(orientation, source.Length1, source.Length0, x, y);
        assert Inside(x, y, (back.Length1, back.Length0));
      }
    }
  }
}
