/** The Luxonis snapshot rewrites a BGR image into an RGB buffer of the same row step. The buffer is
    sized by width times step, in 32-bit arithmetic.
  */
module LuxonisImage {
  import opened Common

  type Byte = b: int | 0 <= b < 256

  const UINT32_RANGE := 0x1_0000_0000

  datatype Image = Image(height: nat, width: nat, step: nat, data: seq<Byte>)

  /** A byte of a pixel: row r, column c, channel k. */
  function At(step: nat, r: nat, c: nat, k: nat): nat {
    r * step + 3 * c + k
  }

  /** The bytes from the first to behind the last pixel. */
  function Extent(height: nat, width: nat, step: nat): nat {
    if height == 0 || width == 0 then 0 else (height - 1) * step + 3 * width
  }

  function BufferLength(width: nat, step: nat): nat {
    (width * step) % UINT32_RANGE
  }

  predicate IsPixel(img: Image, r: nat, c: nat, k: nat) {
    r < img.height && c < img.width && k < 3
  }

  /** The input holds its pixels, and rows do not overlap. */
  predicate WellFormed(img: Image) {
    3 * img.width <= img.step && Extent(img.height, img.width, img.step) <= |img.data|
  }

  predicate FitsBuffer(img: Image) {
    Extent(img.height, img.width, img.step) <= BufferLength(img.width, img.step)
  }

  lemma RowsAreApart(step: nat, r: nat, height: nat)
    requires r < height
    ensures r * step <= (height - 1) * step
    ensures (r + 1) * step == r * step + step
  {
    assert (height - 1) * step == r * step + (height - 1 - r) * step;
  }

  lemma PixelInExtent(img: Image, r: nat, c: nat, k: nat)
    requires IsPixel(img, r, c, k)
    ensures At(img.step, r, c, k) < Extent(img.height, img.width, img.step)
  {
    RowsAreApart(img.step, r, img.height);
  }

  /** Every written index is inside the buffer exactly when the extent fits; and when width times
      step does not overflow, that is so exactly when the image is not higher than wide. The buffer
      has the size of the image exactly when the image is square. */
  lemma InBoundsIff(img: Image)
    requires 3 * img.width <= img.step && 0 < img.height && 0 < img.width
    ensures FitsBuffer(img)
            <==> forall r: nat, c: nat, k: nat :: IsPixel(img, r, c, k) ==>
                   At(img.step, r, c, k) < BufferLength(img.width, img.step)
    ensures img.width * img.step < 0x1_0000_0000 ==>
              && (FitsBuffer(img) <==> img.height <= img.width)
              && (BufferLength(img.width, img.step) == img.height * img.step <==> img.height == img.width)
  {
    var h, w, step := img.height, img.width, img.step;
    forall r: nat, c: nat, k: nat | IsPixel(img, r, c, k)
      ensures At(step, r, c, k) < Extent(h, w, step)
    {
      PixelInExtent(img, r, c, k);
    }
    if forall r: nat, c: nat, k: nat :: IsPixel(img, r, c, k) ==> At(step, r, c, k) < BufferLength(w, step) {
      assert IsPixel(img, h - 1, w - 1, 2);
    }
    if w * step < UINT32_RANGE {
      SmallIsItself(w * step);
      HeightAgainstWidth(h, w, step);
    }
  }

  lemma SmallIsItself(n: nat)
    requires n < UINT32_RANGE
    ensures n % UINT32_RANGE == n
  {
  }

  lemma ProductOrder(a: nat, b: nat, step: nat)
    requires a < b
    ensures a * step + step <= b * step
  {
    RowsAreApart(step, a, b);
    RowsAreApart(step, b - 1, b);
  }

  /** A row before row r begins a step before it, or earlier; no other begins before it. */
  lemma RowsBefore(step: nat, q: nat, r: nat, row: nat)
    requires row == r * step
    ensures q < r ==> q * step <= row - step
    ensures r <= q ==> row <= q * step
  {
    if q < r {
      ProductOrder(q, r, step);
    } else if r < q {
      ProductOrder(r, q, step);
    }
  }

  lemma HeightAgainstWidth(h: nat, w: nat, step: nat)
    requires 3 * w <= step && 0 < h && 0 < w
    ensures (h - 1) * step + 3 * w <= w * step <==> h <= w
    ensures w * step == h * step <==> h == w
  {
    if h < w {
      ProductOrder(h, w, step);
    } else if w < h {
      ProductOrder(w, h, step);
    }
    RowsAreApart(step, h - 1, h);
  }

  // ----- The rewrite -----

  /** The row that byte i belongs to. */
  function RowOf(i: nat, step: nat): nat
    requires 0 < step
  {
    if i < step then 0 else 1 + RowOf(i - step, step)
  }

  lemma {:induction false} RowBounds(i: nat, step: nat)
    requires 0 < step
    ensures RowOf(i, step) * step <= i < RowOf(i, step) * step + step
  {
    if step <= i {
      RowBounds(i - step, step);
      RowsAreApart(step, RowOf(i - step, step), RowOf(i - step, step) + 1);
    }
  }

  lemma RowIsUnique(i: nat, step: nat, r: nat)
    requires 0 < step && r * step <= i < r * step + step
    ensures RowOf(i, step) == r
  {
    var q := RowOf(i, step);
    RowBounds(i, step);
    if q < r {
      RowsAreApart(step, q, r);
    } else if r < q {
      RowsAreApart(step, r, q);
    }
  }

  /** Byte i of the result: the swapped channel inside a row, zero behind the row's pixels. */
  function OutByte(img: Image, i: nat): Byte
    requires WellFormed(img)
  {
    if img.step == 0 then 0
    else
      RowBounds(i, img.step);
      ByteOfRow(img, RowOf(i, img.step), i - RowOf(i, img.step) * img.step)
  }

  function ByteOfRow(img: Image, r: nat, off: nat): Byte
    requires WellFormed(img)
  {
    if r < img.height && off < 3 * img.width then
      PixelInExtent(img, r, off / 3, 2 - off % 3);
      img.data[At(img.step, r, off / 3, 2 - off % 3)]
    else 0
  }

  lemma OutByteOfPixel(img: Image, r: nat, c: nat, k: nat)
    requires WellFormed(img) && IsPixel(img, r, c, k)
    ensures At(img.step, r, c, 2 - k) < |img.data|
    ensures OutByte(img, At(img.step, r, c, k)) == img.data[At(img.step, r, c, 2 - k)]
  {
    PixelInExtent(img, r, c, 2 - k);
    RowIsUnique(At(img.step, r, c, k), img.step, r);
    assert (3 * c + k) / 3 == c && (3 * c + k) % 3 == k;
    assert At(img.step, r, c, k) - r * img.step == 3 * c + k;
  }

  lemma OutByteOfPadding(img: Image, r: nat, i: nat)
    requires WellFormed(img) && 0 < img.step
    requires r * img.step + 3 * img.width <= i < r * img.step + img.step
    ensures OutByte(img, i) == 0
  {
    RowIsUnique(i, img.step, r);
  }

  lemma OutByteBelowRows(img: Image, i: nat)
    requires WellFormed(img) && 0 < img.step && img.height * img.step <= i
    ensures OutByte(img, i) == 0
  {
    RowBounds(i, img.step);
    if RowOf(i, img.step) < img.height {
      RowsAreApart(img.step, RowOf(i, img.step), img.height);
      RowsAreApart(img.step, img.height - 1, img.height);
    }
  }

  function Rewritten(img: Image): seq<Byte>
    requires WellFormed(img)
  {
    seq(BufferLength(img.width, img.step), i requires 0 <= i < BufferLength(img.width, img.step) => OutByte(img, i))
  }

  lemma BytesOfPixel(img: Image, r: nat, c: nat, pixel: nat)
    requires WellFormed(img) && IsPixel(img, r, c, 0) && pixel == At(img.step, r, c, 0)
    ensures pixel + 2 < |img.data|
    ensures OutByte(img, pixel) == img.data[pixel + 2]
    ensures OutByte(img, pixel + 1) == img.data[pixel + 1]
    ensures OutByte(img, pixel + 2) == img.data[pixel]
  {
    OutByteOfPixel(img, r, c, 0);
    OutByteOfPixel(img, r, c, 1);
    OutByteOfPixel(img, r, c, 2);
  }

  /** The first byte of [first, first + n) behind a buffer, if there is one. */
  function FirstPast(first: nat, n: nat, length: nat): (past: Option<nat>)
    ensures past.None? <==> n == 0 || first + n <= length
    ensures past.Some? ==> length <= past.value && first <= past.value < first + n
  {
    if n == 0 || first + n <= length then None
    else Some(if first < length then length else first)
  }

  /** One pixel: its three channels in the opposite order. The write stops at the end of the buffer,
      and `past` is the index that it would have used next. */
  method ConvertPixel(img: Image, r: nat, c: nat, pixel: nat, out: array<Byte>) returns (past: Option<nat>)
    requires WellFormed(img) && IsPixel(img, r, c, 0) && pixel == At(img.step, r, c, 0)
    modifies out
    ensures past == FirstPast(pixel, 3, out.Length)
    ensures forall i :: 0 <= i < out.Length ==>
              out[i] == if pixel <= i < pixel + 3 then OutByte(img, i) else old(out[i])
  {
    BytesOfPixel(img, r, c, pixel);
    if out.Length <= pixel {
      return Some(pixel);
    }
    out[pixel] := img.data[pixel + 2];
    if out.Length <= pixel + 1 {
      return Some(pixel + 1);
    }
    out[pixel + 1] := img.data[pixel + 1];
    if out.Length <= pixel + 2 {
      return Some(pixel + 2);
    }
    out[pixel + 2] := img.data[pixel];
    return None;
  }

  method ConvertRow(img: Image, r: nat, row: nat, out: array<Byte>) returns (past: Option<nat>)
    requires WellFormed(img) && r < img.height && 0 < img.width && row == RowStart(img.step, r)
    requires forall i :: row <= i < out.Length ==> out[i] == 0
    modifies out
    ensures past == FirstPast(row, 3 * img.width, out.Length)
    ensures forall i :: 0 <= i < out.Length ==>
              out[i] == if row <= i < row + img.step then OutByte(img, i) else old(out[i])
  {
    RowStartIs(img.step, r);
    past := None;
    var c := 0;
    while c < img.width && past.None?
      invariant c <= img.width
      invariant past == FirstPast(row, 3 * c, out.Length)
      invariant forall i :: 0 <= i < out.Length ==>
                  out[i] == if row <= i < row + 3 * c then OutByte(img, i) else old(out[i])
    {
      past := ConvertPixel(img, r, c, row + 3 * c, out);
      c := c + 1;
    }
    forall i | row + 3 * img.width <= i < row + img.step
      ensures OutByte(img, i) == 0
    {
      OutByteOfPadding(img, r, i);
    }
  }

  /** `past` is the first written index behind the buffer, in a conversion that writes the pixels in
      order; there is none exactly when the image fits. */
  ghost predicate StopsAt(img: Image, length: nat, past: Option<nat>) {
    match past
    case None => Extent(img.height, img.width, img.step) <= length
    case Some(i) =>
      && length <= i && IsPixelByte(img, i)
      && forall j: nat :: IsPixelByte(img, j) ==> j < length || i <= j
  }

  ghost predicate IsPixelByte(img: Image, i: nat) {
    exists r: nat, c: nat, k: nat :: IsPixel(img, r, c, k) && At(img.step, r, c, k) == i
  }

  lemma InRowIsPixelByte(img: Image, r: nat, i: nat)
    requires r < img.height && r * img.step <= i < r * img.step + 3 * img.width
    ensures IsPixelByte(img, i)
  {
    var off := i - r * img.step;
    assert IsPixel(img, r, off / 3, off % 3) && At(img.step, r, off / 3, off % 3) == i;
  }

  /** A row that does not fit makes the conversion stop in it, if the rows before it fit. */
  lemma StopsInRow(img: Image, r: nat, row: nat, length: nat)
    requires WellFormed(img) && r < img.height && 0 < img.width && row == RowStart(img.step, r)
    requires 0 < r ==> row - img.step + 3 * img.width <= length
    requires length < row + 3 * img.width
    ensures StopsAt(img, length, FirstPast(row, 3 * img.width, length))
  {
    RowStartIs(img.step, r);
    var past := FirstPast(row, 3 * img.width, length).value;
    InRowIsPixelByte(img, r, past);
    forall j: nat | IsPixelByte(img, j)
      ensures j < length || past <= j
    {
      var q: nat, c: nat, k: nat :| IsPixel(img, q, c, k) && At(img.step, q, c, k) == j;
      RowsBefore(img.step, q, r, row);
      assert q * img.step <= j < q * img.step + 3 * img.width;
    }
  }

  /** Where row r begins: r steps behind the first byte. */
  function RowStart(step: nat, r: nat): nat {
    if r == 0 then 0 else RowStart(step, r - 1) + step
  }

  lemma {:induction false} RowStartIs(step: nat, r: nat)
    ensures RowStart(step, r) == r * step
  {
    if r > 0 {
      RowStartIs(step, r - 1);
      RowsAreApart(step, r - 1, r);
    }
  }

  /** The rows, one behind the other, until one does not fit. */
  method ConvertRows(img: Image, out: array<Byte>) returns (past: Option<nat>)
    requires WellFormed(img) && 0 < img.width
    requires forall i :: 0 <= i < out.Length ==> out[i] == 0
    modifies out
    ensures forall i :: 0 <= i < out.Length ==> out[i] == OutByte(img, i)
    ensures StopsAt(img, out.Length, past)
  {
    past := None;
    var r, row := 0, 0;
    while r < img.height && past.None?
      invariant r <= img.height && row == RowStart(img.step, r)
      invariant past.None? && 0 < r ==> row - img.step + 3 * img.width <= out.Length
      invariant past.Some? ==> StopsAt(img, out.Length, past) && out.Length <= row
      invariant forall i :: 0 <= i < out.Length ==> out[i] == if i < row then OutByte(img, i) else 0
    {
      past := ConvertRow(img, r, row, out);
      if past.Some? {
        StopsInRow(img, r, row, out.Length);
      }
      r, row := r + 1, row + img.step;
    }
    if past.None? {
      AllRowsFit(img, row, out.Length);
      forall i | row <= i < out.Length
        ensures OutByte(img, i) == 0
      {
        BelowRowsIsZero(img, row, i);
      }
    }
  }

  lemma AllRowsFit(img: Image, row: nat, length: nat)
    requires row == RowStart(img.step, img.height)
    requires 0 < img.height ==> row - img.step + 3 * img.width <= length
    ensures Extent(img.height, img.width, img.step) <= length
  {
    if 0 < img.height {
      RowStartIs(img.step, img.height - 1);
    }
  }

  lemma BelowRowsIsZero(img: Image, row: nat, i: nat)
    requires WellFormed(img) && 0 < img.step && row == RowStart(img.step, img.height) && row <= i
    ensures OutByte(img, i) == 0
  {
    RowStartIs(img.step, img.height);
    OutByteBelowRows(img, i);
  }

  /** The conversion, row by row, into a buffer of zeros. The code does not check the buffer's end; the
      model stops where the code would write behind it. All bytes of the buffer are then what they
      should be. */
  method ConvertBgrToRgb(img: Image) returns (out: array<Byte>, past: Option<nat>)
    requires WellFormed(img)
    ensures out[..] == Rewritten(img)
    ensures out.Length == (img.width * img.step) % 0x1_0000_0000
    ensures StopsAt(img, out.Length, past)
    ensures past.None? <==> FitsBuffer(img)
  {
    out := new Byte[BufferLength(img.width, img.step)](_ => 0);
    past := None;
    if 0 < img.width {
      past := ConvertRows(img, out);
    } else {
      forall i | 0 <= i < out.Length
        ensures OutByte(img, i) == 0
      {
        NoPixelsIsZero(img, i);
      }
    }
    StopsOnlyBehind(img, out.Length, past);
  }

  lemma NoPixelsIsZero(img: Image, i: nat)
    requires WellFormed(img) && img.width == 0
    ensures OutByte(img, i) == 0
  {
    if 0 < img.step {
      RowBounds(i, img.step);
    }
  }

  lemma StopsOnlyBehind(img: Image, length: nat, past: Option<nat>)
    requires StopsAt(img, length, past)
    ensures past.None? <==> Extent(img.height, img.width, img.step) <= length
  {
    if past.Some? {
      var r: nat, c: nat, k: nat :| IsPixel(img, r, c, k) && At(img.step, r, c, k) == past.value;
      PixelInExtent(img, r, c, k);
    }
  }

  /** An image that is higher than wide makes the code write behind the buffer, from its very end on. */
  lemma TallImageOverruns(img: Image)
    requires WellFormed(img) && 0 < img.width < img.height && img.width * img.step < 0x1_0000_0000
    ensures StopsAt(img, BufferLength(img.width, img.step), Some(img.width * img.step))
  {
    SmallIsItself(img.width * img.step);
    InRowIsPixelByte(img, img.width, img.width * img.step);
  }

  /** The smallest such image. */
  lemma TwoPixelsOverrun() returns (img: Image)
    ensures img == Image(2, 1, 3, [1, 2, 3, 4, 5, 6]) && WellFormed(img) && !FitsBuffer(img)
    ensures StopsAt(img, 3, Some(3))
  {
    img := Image(2, 1, 3, [1, 2, 3, 4, 5, 6]);
    TallImageOverruns(img);
  }

  /** The result at (row, column, channel k) is the input at (row, column, channel 2 - k), and every
      byte that belongs to no pixel is zero. */
  lemma ChannelsAreSwapped(img: Image, r: nat, c: nat, k: nat)
    requires WellFormed(img) && FitsBuffer(img) && IsPixel(img, r, c, k)
    ensures At(img.step, r, c, k) < |Rewritten(img)| && At(img.step, r, c, 2 - k) < |img.data|
    ensures Rewritten(img)[At(img.step, r, c, k)] == img.data[At(img.step, r, c, 2 - k)]
  {
    PixelInExtent(img, r, c, k);
    OutByteOfPixel(img, r, c, k);
  }

  /** The same by index, for the images that the node asks for: not higher than wide, and of a size
      below 2^32. */
  lemma ChannelsByIndex(img: Image, r: nat, c: nat, k: nat)
    requires WellFormed(img) && r < img.height <= img.width && c < img.width && k < 3
    requires img.width * img.step < 0x1_0000_0000
    ensures |Rewritten(img)| == img.width * img.step
    ensures r * img.step + 3 * c + k < |Rewritten(img)| && r * img.step + 3 * c + (2 - k) < |img.data|
    ensures Rewritten(img)[r * img.step + 3 * c + k] == img.data[r * img.step + 3 * c + (2 - k)]
  {
    SmallIsItself(img.width * img.step);
    InBoundsIff(img);
    ChannelsAreSwapped(img, r, c, k);
  }

  /** Bytes behind a row's pixels, and behind the rows, are zero. */
  lemma PaddingIsZero(img: Image, r: nat, i: nat)
    requires WellFormed(img) && 0 < img.step && i < |Rewritten(img)|
    requires r * img.step + 3 * img.width <= i < r * img.step + img.step || img.height * img.step <= i
    ensures Rewritten(img)[i] == 0
  {
    if img.height * img.step <= i {
      OutByteBelowRows(img, i);
    } else {
      OutByteOfPadding(img, r, i);
    }
  }

  /** Rewriting the result once more gives back every pixel. */
  lemma TwiceIsIdentity(img: Image, r: nat, c: nat, k: nat)
    requires WellFormed(img) && FitsBuffer(img) && IsPixel(img, r, c, k)
    ensures var once := img.(data := Rewritten(img));
            && WellFormed(once) && FitsBuffer(once)
            && At(img.step, r, c, k) < |Rewritten(once)| && At(img.step, r, c, k) < |img.data|
            && Rewritten(once)[At(img.step, r, c, k)] == img.data[At(img.step, r, c, k)]
  {
    var once := img.(data := Rewritten(img));
    ChannelsAreSwapped(once, r, c, k);
    ChannelsAreSwapped(img, r, c, 2 - k);
  }
}
