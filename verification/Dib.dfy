/**
 Device-independent bitmaps of a page band (internal/adapters/printing/driver/gdi/dib.go and
 packMono1bpp in raster_prep.go), with readers that follow BITMAPINFOHEADER: rows padded to four
 bytes, bottom-up when the height is positive, top-down when it is negative.
 */
module Dib {
  import opened Bytes
  import opened Mono
  import opened Numbers
  import opened Downscale

  // BITMAPINFOHEADER and the colour table that follows it.
  datatype Header = Header(width: int, height: int, planes: nat, bitCount: nat, compression: nat, sizeImage: u32,
                           colors: nat, table: seq<Rgb>)

  // What RGBA() gives: sixteen bits a channel.
  datatype Rgb16 = Rgb16(r: u16, g: u16, b: u16)
  datatype Rgb = Rgb(r: byte, g: byte, b: byte)

  // An image of any kind: the corner of its bounds and its colours by coordinate.
  datatype Picture = Picture(minX: int, minY: int, at: (int, int) -> Rgb16)

  function Stride24(w: nat): nat { (w * 3 + 3) / 4 * 4 }

  function Stride1(w: nat): nat { (w + 31) / 32 * 4 }

  // ----- readers -----

  // The row of the buffer that holds row y of the picture.
  function StoredRow(h: Header, y: nat): int {
    if h.height > 0 then h.height - 1 - y else y
  }

  // GDI's rule for the length of a row, for any number of bits per pixel.
  function RowBytes(h: Header): int { (h.width * h.bitCount + 31) / 32 * 4 }

  lemma StridesAgree(w: nat)
    ensures (w * 24 + 31) / 32 * 4 == Stride24(w) && (w * 1 + 31) / 32 * 4 == Stride1(w)
    ensures 3 * w <= Stride24(w) < 3 * w + 4 && w <= 8 * Stride1(w) && StrideOf(w) <= Stride1(w)
  {
    WordsOf(3 * w);
    WordsOfBits(w);
  }

  // Four bytes to a word, of bytes and of bits.
  lemma WordsOf(m: nat)
    ensures (8 * m + 31) / 32 == (m + 3) / 4 && m <= (m + 3) / 4 * 4 < m + 4
  {
    var q, r := m / 4, m % 4;
    assert m == 4 * q + r;
    assert (m + 3) / 4 == if r == 0 then q else q + 1;
  }

  lemma WordsOfBits(w: nat)
    ensures w <= 32 * ((w + 31) / 32) && (w + 7) / 8 <= 4 * ((w + 31) / 32)
  {
  }

  // A 24-bit pixel: blue, green, red.
  ghost predicate Reads24(buf: seq<byte>, h: Header, x: nat, y: nat, c: Rgb) {
    var row := StoredRow(h, y);
    && h.planes == 1 && h.bitCount == 24 && h.compression == 0 && h.sizeImage == Trunc32(|buf|) && h.colors == 0
    && row >= 0 && RowBytes(h) >= 0
    && Pos(RowBytes(h), 3 * x + 2, row) < |buf|
    && buf[Pos(RowBytes(h), 3 * x, row)] == c.b
    && buf[Pos(RowBytes(h), 3 * x + 1, row)] == c.g
    && buf[Pos(RowBytes(h), 3 * x + 2, row)] == c.r
  }

  // A 1-bit pixel: an index into a colour table of two.
  ghost predicate Reads1(buf: seq<byte>, h: Header, x: nat, y: nat, c: Rgb) {
    var row := StoredRow(h, y);
    && h.planes == 1 && h.bitCount == 1 && h.compression == 0 && h.sizeImage == Trunc32(|buf|)
    && h.colors == |h.table| == 2
    && row >= 0 && RowBytes(h) >= 0
    && c == h.table[if Dot(buf, RowBytes(h), x, row) then 1 else 0]
  }

  // ----- the 24-bit band -----

  // Byte c of stored row y of a band of h rows: the channels of the pixels, then zeros.
  ghost function BandByte(px: (int, int) -> Rgb, w: nat, h: nat, c: nat, y: nat): byte {
    var p := px(c / 3, h - 1 - y);
    if c >= 3 * w then 0 else if c % 3 == 0 then p.b else if c % 3 == 1 then p.g else p.r
  }

  ghost predicate Band(buf: seq<byte>, px: (int, int) -> Rgb, w: nat, h: nat) {
    && |buf| == Stride24(w) * h
    && forall c: nat, y: nat :: c < Stride24(w) && y < h ==>
         Pos(Stride24(w), c, y) < |buf| && buf[Pos(Stride24(w), c, y)] == BandByte(px, w, h, c, y)
  }

  // A band is determined by its pixels.
  lemma BandOne(a: seq<byte>, b: seq<byte>, px: (int, int) -> Rgb, w: nat, h: nat)
    requires Band(a, px, w, h) && Band(b, px, w, h)
    ensures a == b
  {
    hide BandByte, Stride24;
    var stride := Stride24(w);
    forall k | 0 <= k < |a| ensures a[k] == b[k] {
      CellOfByte(stride, h, k);
      assert Pos(stride, k % stride, k / stride) == k;
    }
  }

  function Header24(w: nat, h: nat, sizeImage: u32): Header {
    Header(w, h, 1, 24, 0, sizeImage, 0, [])
  }

  // White and black, and a negative height: top-down.
  function HeaderMono(w: nat, h: nat, sizeImage: u32): Header {
    var height: int := h;
    Header(w, -height, 1, 1, 0, sizeImage, 2, [Rgb(0xFF, 0xFF, 0xFF), Rgb(0, 0, 0)])
  }

  // Reading a band gives every pixel of the picture, the right way up.
  lemma BandShows(buf: seq<byte>, px: (int, int) -> Rgb, w: nat, h: nat, x: nat, y: nat)
    requires Band(buf, px, w, h) && x < w && y < h
    ensures Reads24(buf, Header24(w, h, Trunc32(|buf|)), x, y, px(x, y))
  {
    hide Stride24, Pos, Band, BandByte;
    StridesAgree(w);
    var row: nat := h - 1 - y;
    BandAt(buf, px, w, h, 3 * x, row);
    BandAt(buf, px, w, h, 3 * x + 1, row);
    BandAt(buf, px, w, h, 3 * x + 2, row);
    Channels(px, w, h, x, row);
  }

  lemma BandAt(buf: seq<byte>, px: (int, int) -> Rgb, w: nat, h: nat, c: nat, y: nat)
    requires Band(buf, px, w, h) && c < Stride24(w) && y < h
    ensures Pos(Stride24(w), c, y) < |buf| && buf[Pos(Stride24(w), c, y)] == BandByte(px, w, h, c, y)
  {
  }

  lemma Channels(px: (int, int) -> Rgb, w: nat, h: nat, x: nat, y: nat)
    requires x < w && y < h
    ensures var c := px(x, h - 1 - y);
            BandByte(px, w, h, 3 * x, y) == c.b && BandByte(px, w, h, 3 * x + 1, y) == c.g
              && BandByte(px, w, h, 3 * x + 2, y) == c.r
  {
  }

  ghost function GrayPx(g: GrayImage, top: nat): (int, int) -> Rgb
    requires g.Valid()
  {
    (x, y) =>
      if 0 <= x < g.width && 0 <= y && top + y < g.height then
        var v := Px(g, x, top + y);
        Rgb(v, v, v)
      else Rgb(0, 0, 0)
  }

  function Narrow(c: Rgb16): Rgb { Rgb(c.r / 0x100, c.g / 0x100, c.b / 0x100) }

  ghost function PicturePx(p: Picture, top: nat): (int, int) -> Rgb {
    (x, y) => Narrow(p.at(p.minX + x, p.minY + top + y))
  }

  // Bytes c0..c0 + 3 of stored row y, then row y so far, then nothing.
  ghost predicate Filled(buf: seq<byte>, px: (int, int) -> Rgb, w: nat, h: nat, upto: nat, y: nat) {
    && |buf| == Stride24(w) * h
    && forall c: nat, y': nat :: c < Stride24(w) && y' < h ==>
         && Pos(Stride24(w), c, y') < |buf|
         && buf[Pos(Stride24(w), c, y')] == if Reached(c, y', upto, y) then BandByte(px, w, h, c, y') else 0
  }

  method PutPixel(buf: array<byte>, stride: nat, x: nat, y: nat, c: Rgb)
    requires Pos(stride, 3 * x + 2, y) < buf.Length
    modifies buf
    ensures forall k :: 0 <= k < buf.Length ==>
              buf[k] == if k == Pos(stride, 3 * x, y) then c.b
                        else if k == Pos(stride, 3 * x + 1, y) then c.g
                        else if k == Pos(stride, 3 * x + 2, y) then c.r
                        else old(buf[k])
  {
    var row := y * stride;
    buf[row + x * 3] := c.b;
    buf[row + x * 3 + 1] := c.g;
    buf[row + x * 3 + 2] := c.r;
  }

  // One pixel more.
  lemma FilledNext(buf: seq<byte>, buf': seq<byte>, px: (int, int) -> Rgb, w: nat, h: nat, x: nat, y: nat)
    requires Filled(buf, px, w, h, 3 * x, y) && x < w && y < h && |buf'| == |buf|
    requires var stride, c := Stride24(w), px(x, h - 1 - y);
             forall k :: 0 <= k < |buf| ==>
               buf'[k] == if k == Pos(stride, 3 * x, y) then c.b
                          else if k == Pos(stride, 3 * x + 1, y) then c.g
                          else if k == Pos(stride, 3 * x + 2, y) then c.r
                          else buf[k]
    ensures Filled(buf', px, w, h, 3 * (x + 1), y)
  {
    hide Stride24, Pos;
    StridesAgree(w);
    var stride := Stride24(w);
    forall c: nat, y': nat | c < stride && y' < h
      ensures Pos(stride, c, y') < |buf'|
      ensures buf'[Pos(stride, c, y')] == if Reached(c, y', 3 * x + 3, y) then BandByte(px, w, h, c, y') else 0
    {
      assert Pos(stride, c, y') < |buf|;
      forall d: nat | d < stride && Pos(stride, c, y') == Pos(stride, d, y) ensures c == d && y' == y {
        PosInjective(stride, c, y', d, y);
      }
    }
  }

  lemma FilledNextRow(buf: seq<byte>, px: (int, int) -> Rgb, w: nat, h: nat, y: nat)
    requires Filled(buf, px, w, h, 3 * w, y) && y < h
    ensures Filled(buf, px, w, h, 0, y + 1)
  {
    hide Stride24, Pos;
  }

  lemma FilledNothing(buf: seq<byte>, px: (int, int) -> Rgb, w: nat, h: nat)
    requires |buf| == Stride24(w) * h && forall k :: 0 <= k < |buf| ==> buf[k] == 0
    requires HasRoom(|buf|, Stride24(w), h)
    ensures Filled(buf, px, w, h, 0, 0)
  {
    hide Stride24, Pos;
  }

  // Every place of h rows lies in a buffer of n bytes.
  ghost predicate HasRoom(n: nat, stride: nat, h: nat) {
    forall c: nat, y: nat :: c < stride && y < h ==> Pos(stride, c, y) < n
  }

  lemma RoomForAll(stride: nat, h: nat)
    ensures HasRoom(stride * h, stride, h)
  {
    forall c: nat, y: nat | c < stride && y < h ensures Pos(stride, c, y) < stride * h {
      PosInside(stride, h, c, y);
    }
  }

  lemma FilledBand(buf: seq<byte>, px: (int, int) -> Rgb, w: nat, h: nat)
    requires Filled(buf, px, w, h, 0, h)
    ensures Band(buf, px, w, h)
  {
    hide Stride24, Pos, BandByte;
  }

  // buildBandDIB24FromGray: every gray byte three times.
  method BandFromGray(g: GrayImage, bandTop: nat, bandH: nat) returns (buf: array<byte>, header: Header)
    requires g.Valid() && bandTop + bandH <= g.height
    ensures Band(buf[..], GrayPx(g, bandTop), g.width, bandH)
    ensures header == Header24(g.width, bandH, Trunc32(buf.Length))
    ensures forall x: nat, y: nat :: x < g.width && y < bandH ==> ShowsGray(buf[..], header, g, bandTop, x, y)
  {
    hide Filled, HasRoom, Stride24, Pos, Px, Band, ShowsGray, Trunc32, Header24;
    var w := g.width;
    var stride := Stride24(w);
    ghost var px := GrayPx(g, bandTop);
    buf := new byte[stride * bandH](_ => 0);
    RoomForAll(stride, bandH);
    FilledNothing(buf[..], px, w, bandH);
    for y := 0 to bandH
      invariant Filled(buf[..], px, w, bandH, 0, y)
    {
      var srcRow := bandTop + (bandH - 1 - y);
      var off := (g.minY + srcRow - g.minY) * g.stride + (g.minX - g.minX);
      for x := 0 to w
        invariant Filled(buf[..], px, w, bandH, 3 * x, y)
      {
        GrayRead(g, x, srcRow);
        var v := g.pix[off + x];
        PixelFits(w, bandH, x, y, buf.Length);
        ghost var before := buf[..];
        PutPixel(buf, stride, x, y, Rgb(v, v, v));
        FilledNext(before, buf[..], px, w, bandH, x, y);
      }
      FilledNextRow(buf[..], px, w, bandH, y);
    }
    FilledBand(buf[..], px, w, bandH);
    header := Header24(w, bandH, Trunc32(stride * bandH));
    BandLength(buf[..], px, w, bandH);
    GrayShows(g, bandTop, bandH, buf[..]);
  }

  lemma BandLength(buf: seq<byte>, px: (int, int) -> Rgb, w: nat, h: nat)
    requires Band(buf, px, w, h)
    ensures |buf| == Stride24(w) * h
  {
  }

  // Pixel x, y of the band is the byte of the image, three times.
  ghost predicate ShowsGray(buf: seq<byte>, h: Header, g: GrayImage, top: nat, x: nat, y: nat) {
    var at := (top + y) * g.stride + x;
    at < |g.pix| && Reads24(buf, h, x, y, Rgb(g.pix[at], g.pix[at], g.pix[at]))
  }

  lemma GrayShows(g: GrayImage, top: nat, h: nat, buf: seq<byte>)
    requires g.Valid() && top + h <= g.height && Band(buf, GrayPx(g, top), g.width, h)
    ensures forall x: nat, y: nat :: x < g.width && y < h ==>
              ShowsGray(buf, Header24(g.width, h, Trunc32(|buf|)), g, top, x, y)
  {
    hide Band, Reads24, Trunc32;
    forall x: nat, y: nat | x < g.width && y < h
      ensures ShowsGray(buf, Header24(g.width, h, Trunc32(|buf|)), g, top, x, y)
    {
      GrayRead(g, x, top + y);
      BandShows(buf, GrayPx(g, top), g.width, h, x, y);
    }
  }

  lemma GrayRead(g: GrayImage, x: nat, row: nat)
    requires g.Valid() && x < g.width && row < g.height
    ensures row * g.stride + x < |g.pix| && g.pix[row * g.stride + x] == Px(g, x, row)
  {
    OffsetInside(g, x, row);
  }

  lemma PixelFits(w: nat, h: nat, x: nat, y: nat, n: nat)
    requires n == Stride24(w) * h && x < w && y < h
    ensures Pos(Stride24(w), 3 * x + 2, y) < n
  {
    StridesAgree(w);
    PosInside(Stride24(w), h, 3 * x + 2, y);
  }

  // buildBandDIB24FromAny: the high byte of each channel.
  method BandFromAny(p: Picture, width: nat, bandTop: nat, bandH: nat) returns (buf: array<byte>, header: Header)
    ensures Band(buf[..], PicturePx(p, bandTop), width, bandH)
    ensures header == Header24(width, bandH, Trunc32(buf.Length))
    ensures forall x: nat, y: nat :: x < width && y < bandH ==> ShowsColour(buf[..], header, p, bandTop, x, y)
  {
    hide Filled, HasRoom, Stride24, Pos, Band, ShowsColour, PicturePx, Narrow, Trunc32, Header24;
    var stride := Stride24(width);
    ghost var px := PicturePx(p, bandTop);
    buf := new byte[stride * bandH](_ => 0);
    RoomForAll(stride, bandH);
    FilledNothing(buf[..], px, width, bandH);
    for y := 0 to bandH
      invariant Filled(buf[..], px, width, bandH, 0, y)
    {
      var srcRow := bandTop + (bandH - 1 - y);
      for x := 0 to width
        invariant Filled(buf[..], px, width, bandH, 3 * x, y)
      {
        var c := p.at(p.minX + x, p.minY + srcRow);
        PixelFits(width, bandH, x, y, buf.Length);
        ghost var before := buf[..];
        PictureAt(p, bandTop, x, bandH - 1 - y);
        PutPixel(buf, stride, x, y, Narrow(c));
        FilledNext(before, buf[..], px, width, bandH, x, y);
      }
      FilledNextRow(buf[..], px, width, bandH, y);
    }
    FilledBand(buf[..], px, width, bandH);
    header := Header24(width, bandH, Trunc32(stride * bandH));
    BandLength(buf[..], px, width, bandH);
    ColourShows(p, width, bandTop, bandH, buf[..]);
  }

  lemma PictureAt(p: Picture, top: nat, x: int, y: int)
    ensures PicturePx(p, top)(x, y) == Narrow(p.at(p.minX + x, p.minY + top + y))
  {
    hide Narrow;
  }

  // Pixel x, y of the band has the high byte of each channel.
  ghost predicate ShowsColour(buf: seq<byte>, h: Header, p: Picture, top: nat, x: nat, y: nat) {
    var c := p.at(p.minX + x, p.minY + top + y);
    Reads24(buf, h, x, y, Rgb(c.r / 0x100, c.g / 0x100, c.b / 0x100))
  }

  lemma ColourShows(p: Picture, width: nat, top: nat, h: nat, buf: seq<byte>)
    requires Band(buf, PicturePx(p, top), width, h)
    ensures forall x: nat, y: nat :: x < width && y < h ==>
              ShowsColour(buf, Header24(width, h, Trunc32(|buf|)), p, top, x, y)
  {
    hide Band, Reads24, Trunc32, PicturePx, Header24;
    forall x: nat, y: nat | x < width && y < h
      ensures ShowsColour(buf, Header24(width, h, Trunc32(|buf|)), p, top, x, y)
    {
      PictureAt(p, top, x, y);
      BandShows(buf, PicturePx(p, top), width, h, x, y);
    }
  }

  function Doubled(v: byte): u16 { 0x101 * (v as int) }

  // A gray image seen as a picture: color.Gray gives each channel the byte twice.
  ghost function AsPicture(g: GrayImage): Picture
    requires g.Valid()
  {
    Picture(g.minX, g.minY, (x, y) =>
      if 0 <= x - g.minX < g.width && 0 <= y - g.minY < g.height then
        var v := Doubled(Px(g, x - g.minX, y - g.minY));
        Rgb16(v, v, v)
      else Rgb16(0, 0, 0))
  }

  // On a gray image the fast path and the generic path build the same bytes.
  lemma FastPathAgrees(g: GrayImage, bandTop: nat, bandH: nat, fast: seq<byte>, generic: seq<byte>)
    requires g.Valid() && bandTop + bandH <= g.height
    requires Band(fast, GrayPx(g, bandTop), g.width, bandH)
    requires Band(generic, PicturePx(AsPicture(g), bandTop), g.width, bandH)
    ensures fast == generic
  {
    hide Px, Pos, Stride24;
    var a, b := GrayPx(g, bandTop), PicturePx(AsPicture(g), bandTop);
    forall c: nat, y: nat | c < Stride24(g.width) && y < bandH
      ensures BandByte(b, g.width, bandH, c, y) == BandByte(a, g.width, bandH, c, y)
    {
      if c < 3 * g.width {
        PixelsAgree(g, bandTop, c / 3, bandH - 1 - y);
      }
    }
    BandOne(fast, generic, a, g.width, bandH);
  }

  lemma PixelsAgree(g: GrayImage, top: nat, x: nat, y: nat)
    requires g.Valid() && x < g.width && top + y < g.height
    ensures PicturePx(AsPicture(g), top)(x, y) == GrayPx(g, top)(x, y)
  {
    hide Px;
    var v, p := Px(g, x, top + y), AsPicture(g);
    TwiceHigh(v);
    var c := p.at(p.minX + x, p.minY + top + y);
    assert c == Rgb16(Doubled(v), Doubled(v), Doubled(v));
    assert GrayPx(g, top)(x, y) == Rgb(v, v, v);
    assert PicturePx(p, top)(x, y) == Narrow(c);
  }

  lemma TwiceHigh(v: byte)
    ensures Doubled(v) / 0x100 == v
  {
  }

  // ----- the 1-bit page -----

  // Where row y starts; with y the height, the size of all rows.
  function RowAt(stride: nat, y: nat): nat { y * stride }

  method PackMono1bpp(width: nat, height: nat, bits: seq<byte>, srcStride: nat)
    returns (buf: array<byte>, header: Header)
    requires srcStride == StrideOf(width) && |bits| == RowAt(srcStride, height)
    ensures header == HeaderMono(width, height, Trunc32(buf.Length))
    ensures buf.Length == RowAt(Stride1(width), height)
    ensures RowsCopied(buf[..], Stride1(width), height, bits, srcStride, height)
    ensures forall x: nat, y: nat :: x < width && y < height ==>
              Reads1(buf[..], header, x, y,
                     if Dot(bits, srcStride, x, y) then Rgb(0, 0, 0) else Rgb(0xFF, 0xFF, 0xFF))
  {
    hide Stride1, StrideOf, RowsCopied, CopiedRow, Patch, RowAt, Reads1, Dot;
    var dibStride := Stride1(width);
    StridesAgree(width);
    buf := new byte[RowAt(dibStride, height)](_ => 0);
    NoDots(buf[..], dibStride);
    NoRows(buf[..], dibStride, height, bits, srcStride);
    for y := 0 to height
      invariant RowsCopied(buf[..], dibStride, height, bits, srcStride, y)
    {
      RowRoom(srcStride, height, y);
      RowRoom(dibStride, height, y);
      var row := bits[RowAt(srcStride, y)..RowAt(srcStride, y) + srcStride];
      ghost var before := buf[..];
      CopyInto(buf, RowAt(dibStride, y), row);
      IsCopied(before, buf[..], dibStride, height, bits, srcStride, y);
      NextCopied(before, buf[..], dibStride, height, bits, srcStride, y);
    }
    header := HeaderMono(width, height, Trunc32(buf.Length));
    forall x: nat, y: nat | x < width && y < height
      ensures Reads1(buf[..], header, x, y,
                     if Dot(bits, srcStride, x, y) then Rgb(0, 0, 0) else Rgb(0xFF, 0xFF, 0xFF))
    {
      MonoShows(buf[..], header, width, height, bits, srcStride, x, y);
    }
  }

  // The first upto rows show the dots of the bits, the rest and the padding are white.
  ghost predicate RowsCopied(buf: seq<byte>, ds: nat, height: nat, bits: seq<byte>, ss: nat, upto: nat) {
    forall x: nat, y: nat :: x < 8 * ds && y < height ==>
      (Dot(buf, ds, x, y) <==> y < upto && x < 8 * ss && Dot(bits, ss, x, y))
  }

  lemma NoRows(buf: seq<byte>, ds: nat, height: nat, bits: seq<byte>, ss: nat)
    requires forall x: nat, y: nat :: !Dot(buf, ds, x, y)
    ensures RowsCopied(buf, ds, height, bits, ss, 0)
  {
    hide Dot;
  }

  lemma NextCopied(before: seq<byte>, after: seq<byte>, ds: nat, height: nat, bits: seq<byte>, ss: nat, y: nat)
    requires RowsCopied(before, ds, height, bits, ss, y) && CopiedRow(before, after, ds, height, bits, ss, y)
    ensures RowsCopied(after, ds, height, bits, ss, y + 1)
  {
    hide Dot, CopiedRow;
    RowCopied(before, after, ds, height, bits, ss, y);
  }

  lemma RowRoom(stride: nat, height: nat, y: nat)
    requires y < height
    ensures RowAt(stride, y) + stride <= RowAt(stride, height)
  {
    RowOrder(stride, y, height);
  }

  lemma NoDots(buf: seq<byte>, stride: nat)
    requires forall k :: 0 <= k < |buf| ==> buf[k] == 0
    ensures forall x: nat, y: nat :: !Dot(buf, stride, x, y)
  {
    forall x: nat, y: nat ensures !Dot(buf, stride, x, y) {
      ZeroFromRight(7 - x % 8);
    }
  }

  // after is before with row y of the bits copied to row y.
  ghost predicate CopiedRow(before: seq<byte>, after: seq<byte>, ds: nat, height: nat, bits: seq<byte>, ss: nat,
                            y: nat) {
    && |before| == RowAt(ds, height) && |bits| == RowAt(ss, height) && ss <= ds && y < height
    && RowAt(ss, y) + ss <= |bits| && RowAt(ds, y) + ss <= |before|
    && after == Patch(before, RowAt(ds, y), bits[RowAt(ss, y)..RowAt(ss, y) + ss])
  }

  lemma IsCopied(before: seq<byte>, after: seq<byte>, ds: nat, height: nat, bits: seq<byte>, ss: nat, y: nat)
    requires |before| == RowAt(ds, height) && |bits| == RowAt(ss, height) && ss <= ds && y < height
    requires RowAt(ss, y) + ss <= |bits| && RowAt(ds, y) + ss <= |before|
    requires after == Patch(before, RowAt(ds, y), bits[RowAt(ss, y)..RowAt(ss, y) + ss])
    ensures CopiedRow(before, after, ds, height, bits, ss, y)
  {
    hide RowAt, Patch;
  }

  // Only the dots of that row change.
  lemma RowCopied(before: seq<byte>, after: seq<byte>, ds: nat, height: nat, bits: seq<byte>, ss: nat, y: nat)
    requires CopiedRow(before, after, ds, height, bits, ss, y)
    ensures forall x: nat, y': nat :: x < 8 * ds && y' < height ==>
              (Dot(after, ds, x, y') <==> if y' == y && x < 8 * ss then Dot(bits, ss, x, y) else Dot(before, ds, x, y'))
  {
    hide Dot, CopiedRow;
    forall x: nat, y': nat | x < 8 * ds && y' < height
      ensures Dot(after, ds, x, y')
              <==> if y' == y && x < 8 * ss then Dot(bits, ss, x, y) else Dot(before, ds, x, y')
    {
      if y' == y && x < 8 * ss {
        DotInRow(before, after, ds, height, bits, ss, y, x);
      } else {
        DotElsewhere(before, after, ds, height, bits, ss, y, x, y');
      }
    }
  }

  lemma DotInRow(before: seq<byte>, after: seq<byte>, ds: nat, height: nat, bits: seq<byte>, ss: nat, y: nat, x: nat)
    requires CopiedRow(before, after, ds, height, bits, ss, y) && x < 8 * ss
    ensures Dot(after, ds, x, y) <==> Dot(bits, ss, x, y)
  {
    hide Bit, Patch;
    var row := bits[y * ss..y * ss + ss];
    PatchHolds(before, y * ds, row);
    assert after[y * ds..y * ds + ss][x / 8] == row[x / 8];
  }

  lemma DotElsewhere(before: seq<byte>, after: seq<byte>, ds: nat, height: nat, bits: seq<byte>, ss: nat, y: nat,
                     x: nat, y': nat)
    requires CopiedRow(before, after, ds, height, bits, ss, y) && y' < height && x < 8 * ds
    requires y' != y || x >= 8 * ss
    ensures Dot(after, ds, x, y') <==> Dot(before, ds, x, y')
  {
    hide Bit, Patch;
    CellInside(ds, height, x, y');
    PatchHolds(before, y * ds, bits[y * ss..y * ss + ss]);
    RowOrder(ds, y, y');
    RowOrder(ds, y', y);
  }

  // A reader of the 1-bit bitmap sees the dots of the bitmap it was made from, black on white.
  lemma MonoShows(buf: seq<byte>, header: Header, width: nat, height: nat, bits: seq<byte>, ss: nat, x: nat, y: nat)
    requires ss == StrideOf(width) && x < width && y < height
    requires header == HeaderMono(width, height, Trunc32(|buf|))
    requires RowsCopied(buf, Stride1(width), height, bits, ss, height)
    ensures Reads1(buf, header, x, y, if Dot(bits, ss, x, y) then Rgb(0, 0, 0) else Rgb(0xFF, 0xFF, 0xFF))
  {
    hide Dot, Stride1;
    StridesAgree(width);
  }
}
