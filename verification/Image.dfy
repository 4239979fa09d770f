/** Images: four bytes a pixel, row by row, whatever the image type keeps of them. */
module Images {

  type Byte = x: int | 0 <= x < 256

  datatype Color = Color(red: Byte, green: Byte, blue: Byte, alpha: Byte)

  datatype Type = Invalid | Grayscale | RGB | RGBA

  datatype Result<+T> = Ok(value: T) | Err

  function Depth(t: Type): nat {
    match t
    case Invalid => 0
    case Grayscale => 1
    case RGB => 3
    case RGBA => 4
  }

  /** What reading gives of a color written: the channels that the type keeps. */
  function Kept(t: Type, c: Color): Color {
    match t
    case Invalid => Color(0, 0, 0, 255)
    case Grayscale => Color(c.red, c.red, c.red, 255)
    case RGB => Color(c.red, c.green, c.blue, 255)
    case RGBA => c
  }

  function Min(a: nat, b: nat): nat {
    if a < b then a else b
  }

  // ----- where a pixel is

  predicate InRange(width: nat, height: nat, x: nat, y: nat) {
    x < width && y < height
  }

  function Pixel(width: nat, x: nat, y: nat): nat {
    y * width + x
  }

  lemma RowsFit(width: nat, height: nat, y: nat)
    requires y < height
    ensures y * width + width <= height * width
  {
    var rest := height - y - 1;
    Distributes(y, rest + 1, width);
    Distributes(rest, 1, width);
  }

  lemma Distributes(a: nat, b: nat, c: nat)
    ensures (a + b) * c == a * c + b * c && a * c >= 0
  {
  }

  /** Every pixel is inside the buffer, and different coordinates are different pixels. */
  lemma PixelsApart(width: nat, height: nat, x: nat, y: nat, u: nat, v: nat)
    requires InRange(width, height, x, y) && InRange(width, height, u, v)
    ensures Pixel(width, x, y) < width * height
    ensures Pixel(width, x, y) == Pixel(width, u, v) <==> x == u && y == v
  {
    RowsFit(width, height, y);
    if y < v {
      RowsFit(width, v, y);
    } else if v < y {
      RowsFit(width, y, v);
    }
  }

  // ----- a pixel's color, as bytes of the buffer

  function ColorAt(t: Type, data: seq<Byte>, p: nat): Color
    requires 4 * p + 4 <= |data|
  {
    match t
    case Invalid => Color(0, 0, 0, 255)
    case Grayscale => Color(data[4 * p], data[4 * p], data[4 * p], 255)
    case RGB => Color(data[4 * p], data[4 * p + 1], data[4 * p + 2], 255)
    case RGBA => Color(data[4 * p], data[4 * p + 1], data[4 * p + 2], data[4 * p + 3])
  }

  function Put(t: Type, data: seq<Byte>, p: nat, c: Color): (r: seq<Byte>)
    requires 4 * p + 4 <= |data|
    ensures |r| == |data|
  {
    match t
    case Invalid => data
    case Grayscale => data[4 * p := c.red]
    case RGB => data[4 * p := c.red][4 * p + 1 := c.green][4 * p + 2 := c.blue]
    case RGBA => data[4 * p := c.red][4 * p + 1 := c.green][4 * p + 2 := c.blue][4 * p + 3 := c.alpha]
  }

  /** A color written is read back as far as the type keeps it, and every other pixel stays as it is. */
  lemma ColorAfterPut(t: Type, data: seq<Byte>, p: nat, c: Color, q: nat)
    requires 4 * p + 4 <= |data| && 4 * q + 4 <= |data|
    ensures ColorAt(t, Put(t, data, p, c), q) == if q == p then Kept(t, c) else ColorAt(t, data, q)
  {
  }

  class Image {
    const kind: Type
    const width: nat
    const height: nat
    const data: array<Byte>

    ghost predicate Valid() {
      data.Length == width * height * 4
    }

    ghost function Index(x: nat, y: nat): (p: nat)
      requires Valid() && InRange(width, height, x, y)
      ensures p == Pixel(width, x, y) && 4 * p + 4 <= data.Length
    {
      PixelsApart(width, height, x, y, x, y);
      Pixel(width, x, y)
    }

    /** The color at a pixel, as `GetColor` reads it. */
    ghost function At(x: nat, y: nat): Color
      reads this, data
      requires Valid() && InRange(width, height, x, y)
    {
      ColorAt(kind, data[..], Index(x, y))
    }

    /** All pixels transparent black. */
    constructor (kind: Type, width: nat, height: nat)
      ensures Valid() && fresh(data)
      ensures this.kind == kind && this.width == width && this.height == height
      ensures forall i :: 0 <= i < data.Length ==> data[i] == 0
    {
      this.kind, this.width, this.height := kind, width, height;
      data := new Byte[width * height * 4](_ => 0);
    }

    /** The bytes given are copied as far as both buffers reach; the rest stays zero. */
    constructor Copying(kind: Type, width: nat, height: nat, bytes: seq<Byte>)
      ensures Valid() && fresh(data)
      ensures this.kind == kind && this.width == width && this.height == height
      ensures data[..] == Loaded(bytes, width * height * 4)
    {
      this.kind, this.width, this.height := kind, width, height;
      var size := width * height * 4;
      var buffer := new Byte[size](_ => 0);
      var n := Min(|bytes|, size);
      for i := 0 to n
        invariant forall j :: 0 <= j < i ==> buffer[j] == bytes[j]
        invariant forall j :: i <= j < size ==> buffer[j] == 0
      {
        buffer[i] := bytes[i];
      }
      data := buffer;
    }

    method GetColor(x: nat, y: nat) returns (c: Color)
      requires Valid() && InRange(width, height, x, y)
      ensures c == At(x, y)
      ensures kind == RGBA ==>
                var at := 4 * Index(x, y); c == Color(data[at], data[at + 1], data[at + 2], data[at + 3])
    {
      PixelsApart(width, height, x, y, x, y);
      var idx := (y * width + x) * 4;
      var r, g, b, a := 0, 0, 0, 255;
      match kind {
        case Grayscale =>
          r := data[idx];
          g := r;
          b := r;
        case RGB =>
          r := data[idx];
          g := data[idx + 1];
          b := data[idx + 2];
        case RGBA =>
          r := data[idx];
          g := data[idx + 1];
          b := data[idx + 2];
          a := data[idx + 3];
        case Invalid =>
      }
      c := Color(r, g, b, a);
    }

    method SetColor(x: nat, y: nat, c: Color)
      requires Valid() && InRange(width, height, x, y)
      modifies data
      ensures data[..] == Put(kind, old(data[..]), Index(x, y), c)
      ensures At(x, y) == Kept(kind, c)
      ensures forall u: nat, v: nat :: InRange(width, height, u, v) && (u, v) != (x, y) ==> At(u, v) == old(At(u, v))
    {
      ghost var before, p := data[..], Index(x, y);
      var idx := (y * width + x) * 4;
      match kind {
        case Grayscale =>
          data[idx] := c.red;
        case RGB =>
          data[idx] := c.red;
          data[idx + 1] := c.green;
          data[idx + 2] := c.blue;
        case RGBA =>
          data[idx] := c.red;
          data[idx + 1] := c.green;
          data[idx + 2] := c.blue;
          data[idx + 3] := c.alpha;
        case Invalid =>
      }
      assert data[..] == Put(kind, before, p, c);
      ColorAfterPut(kind, before, p, c, p);
      forall u: nat, v: nat | InRange(width, height, u, v) && (u, v) != (x, y)
        ensures At(u, v) == old(At(u, v))
      {
        PixelsApart(width, height, x, y, u, v);
        ColorAfterPut(kind, before, p, c, Index(u, v));
      }
    }
  }

  // ----- which byte is whose

  /** Row after row from the top, each from the left. */
  lemma RowMajor(width: nat, x: nat, y: nat)
    ensures Pixel(width, 0, 0) == 0 && Pixel(width, x + 1, y) == Pixel(width, x, y) + 1
    ensures Pixel(width, 0, y + 1) == Pixel(width, 0, y) + width
    ensures Pixel(width, x, y) == y * width + x
  {
    assert (y + 1) * width == y * width + width;
  }

  /** Of a color written, red, green, blue and alpha come in this order, as many of them as the type keeps. */
  lemma PutBytes(t: Type, data: seq<Byte>, p: nat, c: Color)
    requires 4 * p + 4 <= |data|
    ensures var r, n := Put(t, data, p, c), Depth(t);
            && r[..4 * p] == data[..4 * p] && r[4 * p + n..] == data[4 * p + n..]
            && (t == Grayscale ==> r[4 * p] == c.red)
            && (t == RGB ==> r[4 * p..4 * p + 3] == [c.red, c.green, c.blue])
            && (t == RGBA ==> r[4 * p..4 * p + 4] == [c.red, c.green, c.blue, c.alpha])
  {
  }

  // ----- packed buffers

  function Loaded(bytes: seq<Byte>, size: nat): (r: seq<Byte>)
    ensures |r| == size
  {
    seq(size, i => if 0 <= i < |bytes| then bytes[i] else 0)
  }

  /** The color of a pixel in a buffer that has exactly the bytes the type needs, `Depth` a pixel. */
  function PackedColor(t: Type, bytes: seq<Byte>, p: nat): Color
    requires Depth(t) * p + Depth(t) <= |bytes|
  {
    match t
    case Invalid => Color(0, 0, 0, 255)
    case Grayscale => Color(bytes[p], bytes[p], bytes[p], 255)
    case RGB => Color(bytes[3 * p], bytes[3 * p + 1], bytes[3 * p + 2], 255)
    case RGBA => Color(bytes[4 * p], bytes[4 * p + 1], bytes[4 * p + 2], bytes[4 * p + 3])
  }

  /** A buffer of the wrong size, or for an invalid type, is refused. */
  method FromBuffer(kind: Type, width: nat, height: nat, buffer: seq<Byte>) returns (r: Result<Image>)
    ensures r.Ok? <==> kind != Invalid && |buffer| == width * height * Depth(kind)
    ensures r.Ok? ==>
              && fresh(r.value) && r.value.Valid()
              && r.value.kind == kind && r.value.width == width && r.value.height == height
              && r.value.data[..] == Loaded(buffer, width * height * 4)
  {
    if kind == Invalid {
      return Err;
    }
    if |buffer| != width * height * Depth(kind) {
      return Err;
    }
    var image := new Image.Copying(kind, width, height, buffer);
    return Ok(image);
  }

  /** A buffer of zeros but for one byte. */
  function Spot(size: nat, at: nat): (r: seq<Byte>)
    ensures |r| == size && forall i :: 0 <= i < size ==> r[i] == if i == at then 1 else 0
  {
    seq(size, i => if i == at then 1 else 0)
  }

  /**
   * Exactly which pixels of a packed buffer are read as they were packed, whatever the buffer holds: all of them
   * for four bytes a pixel, but only the first for one or three, because reading always steps by four.
   */
  lemma PackedReadExactly(t: Type, n: nat, p: nat)
    requires t != Invalid && p < n
    ensures Depth(t) * p + Depth(t) <= Depth(t) * n
    ensures (forall bytes: seq<Byte> :: |bytes| == Depth(t) * n
              ==> ColorAt(t, Loaded(bytes, 4 * n), p) == PackedColor(t, bytes, p))
            <==> t == RGBA || p == 0
  {
    if t != RGBA && p > 0 {
      var bytes := Spot(Depth(t) * n, Depth(t) * p);
      assert Loaded(bytes, 4 * n)[4 * p] == 0;
      assert ColorAt(t, Loaded(bytes, 4 * n), p) != PackedColor(t, bytes, p);
    }
  }

  /** What is read at a pixel of an image made from a packed RGBA buffer, and what of one with fewer bytes a pixel. */
  lemma PackedByteRead(width: nat, height: nat, bytes: seq<Byte>, x: nat, y: nat)
    requires InRange(width, height, x, y)
    ensures 4 * Pixel(width, x, y) + 4 <= width * height * 4
    ensures var at := 4 * (y * width + x);
            var loaded := Loaded(bytes, width * height * 4);
            && (|bytes| == width * height * 4 ==>
                  ColorAt(RGBA, loaded, Pixel(width, x, y))
                  == Color(bytes[at], bytes[at + 1], bytes[at + 2], bytes[at + 3]))
            && (ColorAt(Grayscale, loaded, Pixel(width, x, y)).red == if at < |bytes| then bytes[at] else 0)
            && (ColorAt(RGB, loaded, Pixel(width, x, y)).blue == if at + 2 < |bytes| then bytes[at + 2] else 0)
  {
    PixelsApart(width, height, x, y, x, y);
  }
}
