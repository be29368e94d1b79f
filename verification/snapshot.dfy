/** The snapshot raster: a BGR frame turned into RGB, with every detection outlined in green. */
module Snapshots {
  import opened Bytes

  datatype Frame = Frame(bgr: Data, width: nat, height: nat, stride: nat, pixelSize: nat)

  datatype FaceBox = FaceBox(x: int, y: int, w: int, h: int)

  datatype Pixel = Pixel(r: Byte, g: Byte, b: Byte)

  const GREEN := Pixel(0, 255, 0)

  /** The caller's buffer holds every row it announces; rows may be padded at the end. */
  predicate Whole(f: Frame) {
    && f.width > 0 && f.height > 0 && (f.pixelSize == 3 || f.pixelSize == 4)
    && f.stride >= f.width * f.pixelSize
    && |f.bgr| >= (f.height - 1) * f.stride + f.width * f.pixelSize
  }

  predicate Inside(f: Frame, x: int, y: int) {
    0 <= x < f.width && 0 <= y < f.height
  }

  function Size(f: Frame): nat {
    f.width * f.height * 3
  }

  function Offset(f: Frame, x: nat, y: nat): nat {
    (y * f.width + x) * 3
  }

  lemma {:induction false} OffsetInside(f: Frame, x: nat, y: nat)
    requires Inside(f, x, y)
    ensures Offset(f, x, y) + 3 <= Size(f)
  {
    assert (y + 1) * f.width <= f.height * f.width by { MulMonotone(y + 1, f.height, f.width); }
    assert y * f.width + f.width == (y + 1) * f.width;
  }

  lemma {:induction false} MulMonotone(a: nat, b: nat, c: nat)
    requires a <= b
    ensures a * c <= b * c
  {
  }

  lemma {:induction false} OffsetsDiffer(f: Frame, x: nat, y: nat, a: nat, b: nat)
    requires Inside(f, x, y) && Inside(f, a, b) && (x, y) != (a, b)
    ensures Offset(f, x, y) >= Offset(f, a, b) + 3 || Offset(f, a, b) >= Offset(f, x, y) + 3
  {
    if y < b {
      MulMonotone(y + 1, b, f.width);
      assert (y + 1) * f.width == y * f.width + f.width;
    } else if b < y {
      MulMonotone(b + 1, y, f.width);
      assert (b + 1) * f.width == b * f.width + f.width;
    }
  }

  lemma {:induction false} SourceInside(f: Frame, x: nat, y: nat)
    requires Whole(f) && Inside(f, x, y)
    ensures y * f.stride + x * f.pixelSize + 3 <= |f.bgr|
  {
    MulMonotone(y, f.height - 1, f.stride);
    MulMonotone(x + 1, f.width, f.pixelSize);
    assert (x + 1) * f.pixelSize == x * f.pixelSize + f.pixelSize;
  }

  /** The colour the source holds at (x, y), red and blue exchanged. */
  function Colour(f: Frame, x: nat, y: nat): Pixel
    requires Whole(f) && Inside(f, x, y)
  {
    SourceInside(f, x, y);
    var p := y * f.stride + x * f.pixelSize;
    Pixel(f.bgr[p + 2], f.bgr[p + 1], f.bgr[p])
  }

  /** The pixel of a packed RGB image at (x, y). */
  function At(rgb: Data, f: Frame, x: nat, y: nat): Pixel
    requires |rgb| == Size(f) && Inside(f, x, y)
  {
    OffsetInside(f, x, y);
    var p := Offset(f, x, y);
    Pixel(rgb[p], rgb[p + 1], rgb[p + 2])
  }

  type Marks = iset<(int, int)>

  /** The specification of the image: green on the marks, the source's colour everywhere else. */
  ghost predicate Shows(rgb: Data, f: Frame, marks: Marks)
    requires Whole(f)
  {
    && |rgb| == Size(f)
    && forall x: nat, y: nat | Inside(f, x, y) :: At(rgb, f, x, y) == if (x, y) in marks then GREEN else Colour(f, x, y)
  }

  // ---- outlines ------------------------------------------------------------------------------

  /** The points of one pass: both rows and both columns, t pixels in from the box's edges. */
  ghost predicate OnRing(b: FaceBox, t: int, x: int, y: int) {
    || (b.x <= x < b.x + b.w && (y == b.y + t || y == b.y + b.h - 1 - t))
    || (b.y <= y < b.y + b.h && (x == b.x + t || x == b.x + b.w - 1 - t))
  }

  ghost predicate OnOutline(b: FaceBox, x: int, y: int) {
    OnRing(b, 0, x, y) || OnRing(b, 1, x, y)
  }

  ghost predicate Outlined(boxes: seq<FaceBox>, x: int, y: int) {
    exists b :: b in boxes && OnOutline(b, x, y)
  }

  ghost function Outlines(boxes: seq<FaceBox>): Marks {
    iset p: (int, int) | Outlined(boxes, p.0, p.1)
  }

  lemma {:induction false} OutlinedGrows(boxes: seq<FaceBox>, b: FaceBox, x: int, y: int)
    ensures Outlined(boxes + [b], x, y) <==> Outlined(boxes, x, y) || OnOutline(b, x, y)
  {
    assert b in boxes + [b] && forall c :: c in boxes + [b] <==> c in boxes || c == b;
  }

  predicate InBox(b: FaceBox, x: int, y: int) {
    b.x <= x < b.x + b.w && b.y <= y < b.y + b.h
  }

  /** For a box of at least 2 by 2 the outline is the box less the box drawn in by two pixels. */
  lemma {:induction false} OutlineIsBorder(b: FaceBox, x: int, y: int)
    requires b.w >= 2 && b.h >= 2
    ensures OnOutline(b, x, y) <==> InBox(b, x, y) && !InBox(FaceBox(b.x + 2, b.y + 2, b.w - 4, b.h - 4), x, y)
  {
  }

  /** The outline stays within its box exactly when both sides are at least 2, or neither is positive. */
  lemma {:induction false} OutlineStaysInBox(b: FaceBox)
    ensures (forall x, y :: OnOutline(b, x, y) ==> InBox(b, x, y))
       <==> (b.w >= 2 && b.h >= 2) || (b.w <= 0 && b.h <= 0)
  {
    if b.w > 0 && b.h < 2 {
      assert OnRing(b, 1, b.x, b.y + 1);
      assert OnOutline(b, b.x, b.y + 1) && !InBox(b, b.x, b.y + 1);
    } else if b.h > 0 && b.w < 2 {
      assert OnRing(b, 1, b.x + 1, b.y);
      assert OnOutline(b, b.x + 1, b.y) && !InBox(b, b.x + 1, b.y);
    }
  }

  // ---- drawing ---------------------------------------------------------------------------------

  /** The drawing methods know the frame's sides; the frame itself is there for the specification. */
  predicate Sides(f: Frame, width: int, height: int) {
    Whole(f) && f.width == width && f.height == height
  }

  method Put(rgb: array<Byte>, width: int, height: int, x: int, y: int, ghost f: Frame, ghost marks: Marks)
    requires Sides(f, width, height) && Shows(rgb[..], f, marks)
    modifies rgb
    ensures Shows(rgb[..], f, marks + iset{(x, y)})
  {
    if x < 0 || y < 0 || x >= width || y >= height {
      assert forall a: nat, b: nat | Inside(f, a, b) :: (a, b) != (x, y);
      return;
    }
    OffsetInside(f, x, y);
    ghost var before := rgb[..];
    var p := (y * width + x) * 3;
    rgb[p], rgb[p + 1], rgb[p + 2] := 0, 255, 0;
    OnlyPixelChanged(before, rgb[..], f, x, y);
  }

  lemma {:induction false} OnlyPixelChanged(before: Data, after: Data, f: Frame, x: nat, y: nat)
    requires Inside(f, x, y) && |before| == |after| == Size(f)
    requires forall i :: 0 <= i < |before| && !(Offset(f, x, y) <= i < Offset(f, x, y) + 3) ==> after[i] == before[i]
    ensures forall a: nat, b: nat | Inside(f, a, b) && (a, b) != (x, y) :: At(after, f, a, b) == At(before, f, a, b)
  {
    forall a: nat, b: nat | Inside(f, a, b) && (a, b) != (x, y)
      ensures At(after, f, a, b) == At(before, f, a, b)
    {
      OffsetInside(f, a, b);
      OffsetsDiffer(f, x, y, a, b);
    }
  }

  /** Both edges of one pass, drawn in the order of the two inner loops. */
  method DrawRing(rgb: array<Byte>, width: int, height: int, b: FaceBox, t: int, ghost f: Frame, ghost marks: Marks)
      returns (ghost drawn: Marks)
    requires Sides(f, width, height) && Shows(rgb[..], f, marks)
    modifies rgb
    ensures Shows(rgb[..], f, drawn)
    ensures forall x, y :: (x, y) in drawn <==> (x, y) in marks || OnRing(b, t, x, y)
  {
    hide Shows, Whole;
    drawn := marks;
    var x := b.x;
    while x < b.x + b.w
      invariant b.x <= x && (x <= b.x + b.w || x == b.x)
      invariant Shows(rgb[..], f, drawn)
      invariant forall u, v :: (u, v) in drawn <==>
                  (u, v) in marks || (b.x <= u < x && (v == b.y + t || v == b.y + b.h - 1 - t))
    {
      Put(rgb, width, height, x, b.y + t, f, drawn);
      drawn := drawn + iset{(x, b.y + t)};
      Put(rgb, width, height, x, b.y + b.h - 1 - t, f, drawn);
      drawn := drawn + iset{(x, b.y + b.h - 1 - t)};
      x := x + 1;
    }
    ghost var rows := drawn;
    var y := b.y;
    while y < b.y + b.h
      invariant b.y <= y && (y <= b.y + b.h || y == b.y)
      invariant Shows(rgb[..], f, drawn)
      invariant forall u, v :: (u, v) in drawn <==>
                  (u, v) in rows || (b.y <= v < y && (u == b.x + t || u == b.x + b.w - 1 - t))
    {
      Put(rgb, width, height, b.x + t, y, f, drawn);
      drawn := drawn + iset{(b.x + t, y)};
      Put(rgb, width, height, b.x + b.w - 1 - t, y, f, drawn);
      drawn := drawn + iset{(b.x + b.w - 1 - t, y)};
      y := y + 1;
    }
  }

  method DrawBoxes(rgb: array<Byte>, width: int, height: int, boxes: seq<FaceBox>, ghost f: Frame)
    requires Sides(f, width, height) && Shows(rgb[..], f, iset{})
    modifies rgb
    ensures Shows(rgb[..], f, Outlines(boxes))
  {
    hide Shows, Whole;
    ghost var marks: Marks := iset{};
    for i := 0 to |boxes|
      invariant Shows(rgb[..], f, marks)
      invariant forall x, y :: (x, y) in marks <==> Outlined(boxes[..i], x, y)
    {
      ghost var before := marks;
      for t := 0 to 2
        invariant Shows(rgb[..], f, marks)
        invariant forall x, y :: (x, y) in marks <==>
                    (x, y) in before || (t > 0 && OnRing(boxes[i], 0, x, y)) || (t > 1 && OnRing(boxes[i], 1, x, y))
      {
        marks := DrawRing(rgb, width, height, boxes[i], t, f, marks);
      }
      assert boxes[..i + 1] == boxes[..i] + [boxes[i]];
      forall x, y {
        OutlinedGrows(boxes[..i], boxes[i], x, y);
      }
    }
    assert boxes[..|boxes|] == boxes;
    assert forall p: (int, int) :: p in marks <==> (p.0, p.1) in marks;
    assert marks == Outlines(boxes);
  }

  /** The pixels that precede (x, y) in raster order already have their source colour. */
  ghost predicate Converted(rgb: Data, f: Frame, x: int, y: int)
    requires Whole(f)
  {
    && |rgb| == Size(f)
    && forall a: nat, b: nat | Inside(f, a, b) && (b < y || (b == y && a < x)) :: At(rgb, f, a, b) == Colour(f, a, b)
  }

  method ConvertPixel(bgr: array<Byte>, rgb: array<Byte>, p: nat, q: nat, ghost f: Frame, ghost x: nat, ghost y: nat)
    requires bgr != rgb && Whole(f) && f.bgr == bgr[..] && Inside(f, x, y)
    requires p == y * f.stride + x * f.pixelSize && q == y * f.width * 3 + x * 3
    requires Converted(rgb[..], f, x, y)
    modifies rgb
    ensures Converted(rgb[..], f, x + 1, y)
  {
    ghost var before := rgb[..];
    SourceInside(f, x, y);
    OffsetInside(f, x, y);
    assert q == Offset(f, x, y);
    rgb[q] := bgr[p + 2];
    rgb[q + 1] := bgr[p + 1];
    rgb[q + 2] := bgr[p];
    OnlyPixelChanged(before, rgb[..], f, x, y);
    assert At(rgb[..], f, x, y) == Colour(f, x, y);
  }

  lemma {:induction false} RowDone(rgb: Data, f: Frame, y: nat)
    requires Whole(f) && Converted(rgb, f, f.width, y)
    ensures Converted(rgb, f, 0, y + 1)
    ensures y + 1 == f.height ==> Shows(rgb, f, iset{})
  {
  }

  method Convert(bgr: array<Byte>, width: int, height: int, stride: int, pixelSize: int, ghost f: Frame)
      returns (rgb: array<Byte>)
    requires width > 0 && height > 0 && stride >= 0 && pixelSize >= 0
    requires f == Frame(bgr[..], width, height, stride, pixelSize) && Whole(f)
    ensures fresh(rgb) && Shows(rgb[..], f, iset{})
  {
    assert width * height * 3 == Size(f);
    rgb := new Byte[width * height * 3](_ => 0);
    assert Converted(rgb[..], f, 0, 0);
    hide Converted, Shows, Whole;
    var y := 0;
    while y < height
      invariant 0 <= y <= height && Converted(rgb[..], f, 0, y)
      invariant y == height ==> Shows(rgb[..], f, iset{})
    {
      var src, dst := y * stride, y * width * 3;
      var x := 0;
      while x < width
        invariant 0 <= x <= width && Converted(rgb[..], f, x, y)
      {
        assert x * pixelSize >= 0 && src >= 0 && dst >= 0;
        ConvertPixel(bgr, rgb, src + x * pixelSize, dst + x * 3, f, x, y);
        x := x + 1;
      }
      RowDone(rgb[..], f, y);
      y := y + 1;
    }
  }

  /** Where a point of the image and of the source begin in their buffers. */
  predicate Places(q: nat, p: nat, f: Frame, x: nat, y: nat) {
    q == (y * f.width + x) * 3 && p == y * f.stride + x * f.pixelSize
  }

  /**
    The image in bytes: green where an outline passes, and elsewhere the source's red, green and blue,
    which stand there in the opposite order.
   */
  lemma {:induction false} BytesShown(rgb: Data, f: Frame, boxes: seq<FaceBox>, x: nat, y: nat, q: nat, p: nat)
    requires Whole(f) && Shows(rgb, f, Outlines(boxes)) && Inside(f, x, y) && Places(q, p, f, x, y)
    ensures q + 2 < |rgb| == f.width * f.height * 3 && p + 2 < |f.bgr|
    ensures Outlined(boxes, x, y) ==> rgb[q] == 0 && rgb[q + 1] == 255 && rgb[q + 2] == 0
    ensures !Outlined(boxes, x, y) ==> rgb[q] == f.bgr[p + 2] && rgb[q + 1] == f.bgr[p + 1] && rgb[q + 2] == f.bgr[p]
  {
    OffsetInside(f, x, y);
    SourceInside(f, x, y);
    assert At(rgb, f, x, y) == if (x as int, y as int) in Outlines(boxes) then GREEN else Colour(f, x, y);
  }

  datatype SnapshotError = NoFrame | UnsupportedPixelSize | CannotOpen | ShortWrite

  /** `opens` and `room` are the file system's part: whether the file opens, how many bytes it takes. */
  method WriteBgrPpm(bgr: array?<Byte>, width: int, height: int, stride: int, pixelSize: int, boxes: seq<FaceBox>,
                     opens: bool, room: nat)
      returns (error: Option<SnapshotError>, image: Data)
    requires bgr != null && width > 0 && height > 0 && (pixelSize == 3 || pixelSize == 4)
         ==> stride >= width * pixelSize && Whole(Frame(bgr[..], width, height, stride, pixelSize))
    ensures error == Some(NoFrame) <==> bgr == null || width <= 0 || height <= 0
    ensures error == Some(UnsupportedPixelSize)
       <==> !(bgr == null || width <= 0 || height <= 0) && pixelSize != 3 && pixelSize != 4
    ensures error == None ==> bgr != null && opens && room >= width * height * 3
                              && Shows(image, Frame(bgr[..], width, height, stride, pixelSize), Outlines(boxes))
    ensures error == Some(CannotOpen)
       <==> bgr != null && width > 0 && height > 0 && (pixelSize == 3 || pixelSize == 4) && !opens
    ensures error == Some(ShortWrite)
       <==> bgr != null && width > 0 && height > 0 && (pixelSize == 3 || pixelSize == 4) && opens
            && room < width * height * 3
  {
    if bgr == null || width <= 0 || height <= 0 {
      return Some(NoFrame), [];
    }
    if pixelSize != 3 && pixelSize != 4 {
      return Some(UnsupportedPixelSize), [];
    }
    ghost var f := Frame(bgr[..], width, height, stride, pixelSize);
    hide Shows, Whole;
    assert width * pixelSize > 0;
    var rgb := Convert(bgr, width, height, stride, pixelSize, f);
    DrawBoxes(rgb, width, height, boxes, f);
    if !opens {
      return Some(CannotOpen), [];
    }
    var written := Min(room, rgb.Length);
    if written != rgb.Length {
      return Some(ShortWrite), rgb[..written];
    }
    return None, rgb[..];
  }

  // ---- what the image depends on -----------------------------------------------------------------

  lemma {:induction false} ByteOfPixel(f: Frame, i: nat) returns (x: nat, y: nat, c: nat)
    requires i < Size(f) && f.width > 0
    ensures Inside(f, x, y) && c < 3 && i == Offset(f, x, y) + c
  {
    var p := i / 3;
    c, y, x := i % 3, p / f.width, p % f.width;
    assert p == y * f.width + x;
    assert p < f.width * f.height;
    if y >= f.height {
      MulMonotone(f.height, y, f.width);
    }
  }

  ghost predicate SamePicture(f: Frame, g: Frame)
    requires Whole(f) && Whole(g)
  {
    && f.width == g.width && f.height == g.height
    && forall x: nat, y: nat | Inside(f, x, y) :: Colour(f, x, y) == Colour(g, x, y)
  }

  /** Frames that differ only in stride, pixel size or padding bytes give the same image, byte for byte. */
  lemma {:induction false} ImageDeterminedByPicture(f: Frame, g: Frame, marks: Marks, r: Data, s: Data)
    requires Whole(f) && Whole(g) && SamePicture(f, g)
    requires Shows(r, f, marks) && Shows(s, g, marks)
    ensures r == s
  {
    forall i | 0 <= i < |r|
      ensures r[i] == s[i]
    {
      var x, y, c := ByteOfPixel(f, i);
      assert At(r, f, x, y) == At(s, g, x, y);
      OffsetInside(f, x, y);
    }
  }
}
