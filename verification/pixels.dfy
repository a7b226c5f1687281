/** The RGBA frame buffer of src/bin/worker.rs: a flat byte vector of
    `4 * win_width * win_height` entries, row after row, four bytes per
    pixel, written by `set_pixel`. */
module Pixels {
  import opened Outcomes

  /** A `u8`. */
  newtype byte = x: int | 0 <= x < 256

  /** The colour of a pixel, without its alpha byte. */
  datatype Rgb = Rgb(r: byte, g: byte, b: byte)

  /** The alpha byte `set_pixel` always writes. */
  const Opaque: byte := 255

  /** First byte of pixel `(x, y)` in a buffer of rows `w` pixels wide. */
  function PixelIndex(w: nat, x: nat, y: nat): nat
  {
    (x + y * w) * 4
  }

  /** The zeroed buffer allocated on a recalculation. */
  function NewImage(w: nat, h: nat): (data: seq<byte>)
    ensures |data| == 4 * w * h
    ensures forall i :: 0 <= i < |data| ==> data[i] == 0
  {
    seq(4 * w * h, _ => 0)
  }

  /** `set_pixel`: the four bytes of pixel `(x, y)` become `r, g, b, 255`
      and nothing else changes. The writes go in order, so when the buffer
      is too short the first write past its end panics. */
  function SetPixel(data: seq<byte>, w: nat, x: nat, y: nat, c: Rgb): (res: Result<seq<byte>, Panic>)
    ensures res.Ok? <==> PixelIndex(w, x, y) + 3 < |data|
    ensures res.Err? ==> res.error == IndexOutOfBounds(if PixelIndex(w, x, y) < |data| then |data| else PixelIndex(w, x, y))
    ensures res.Ok? ==>
              var i := PixelIndex(w, x, y);
              && |res.value| == |data|
              && res.value[i] == c.r && res.value[i + 1] == c.g && res.value[i + 2] == c.b && res.value[i + 3] == Opaque
              && forall k :: 0 <= k < |data| && !(i <= k < i + 4) ==> res.value[k] == data[k]
  {
    var i := PixelIndex(w, x, y);
    if i + 3 < |data| then
      Ok(data[i := c.r][i + 1 := c.g][i + 2 := c.b][i + 3 := Opaque])
    else
      Err(IndexOutOfBounds(if i < |data| then |data| else i))
  }

  /** The colour and alpha stored for pixel `(x, y)`, if the buffer holds it. */
  function GetPixel(data: seq<byte>, w: nat, x: nat, y: nat): Option<(Rgb, byte)>
  {
    var i := PixelIndex(w, x, y);
    if i + 3 < |data| then Some((Rgb(data[i], data[i + 1], data[i + 2]), data[i + 3])) else None
  }

  /** Every pixel of a `w` by `h` window lies inside a buffer of
      `4 * w * h` bytes, so `set_pixel` never panics on one. */
  lemma {:induction false} PixelInBuffer(w: nat, h: nat, x: nat, y: nat)
    requires x < w && y < h
    ensures PixelIndex(w, x, y) + 3 < 4 * w * h
  {
    assert y * w <= (h - 1) * w by {
      MulMono(y, h - 1, w);
    }
    assert (h - 1) * w == h * w - w;
    assert x + y * w <= h * w - 1;
    assert 4 * w * h == 4 * (h * w);
  }

  lemma {:induction false} MulMono(a: nat, b: nat, c: nat)
    requires a <= b
    ensures a * c <= b * c
  {
    if a < b {
      MulMono(a, b - 1, c);
    }
  }

  /** Distinct pixels of one row width occupy disjoint groups of four bytes. */
  lemma {:induction false} PixelsDisjoint(w: nat, x: nat, y: nat, x': nat, y': nat)
    requires x < w && x' < w && (x, y) != (x', y')
    ensures PixelIndex(w, x, y) + 4 <= PixelIndex(w, x', y') || PixelIndex(w, x', y') + 4 <= PixelIndex(w, x, y)
  {
    if y == y' {
      assert x != x';
    } else if y < y' {
      MulMono(y + 1, y', w);
      assert x + y * w < (y + 1) * w;
    } else {
      MulMono(y' + 1, y, w);
      assert x' + y' * w < (y' + 1) * w;
    }
  }

  /** Reading a pixel back yields what `set_pixel` wrote, opaque. */
  lemma SetThenGet(data: seq<byte>, w: nat, x: nat, y: nat, c: Rgb)
    requires SetPixel(data, w, x, y, c).Ok?
    ensures GetPixel(SetPixel(data, w, x, y, c).value, w, x, y) == Some((c, Opaque))
  {
  }

  /** Writing one pixel leaves every other pixel of the window as it was. */
  lemma {:induction false} SetKeepsOthers(data: seq<byte>, w: nat, x: nat, y: nat, x': nat, y': nat, c: Rgb)
    requires x < w && x' < w && (x, y) != (x', y')
    requires SetPixel(data, w, x, y, c).Ok?
    ensures GetPixel(SetPixel(data, w, x, y, c).value, w, x', y') == GetPixel(data, w, x', y')
  {
    PixelsDisjoint(w, x, y, x', y');
  }
}
