/**
 The ESC/POS raster encoder (internal/adapters/printing/encoder/escpos/raster.go) and an
 interpreter of the commands it uses, as the Epson ESC/POS command reference gives them:
 ESC @, GS v 0, ESC J, ESC p, GS V. The interpreter recovers the rows the encoder was given.
 */
module EscPos {
  import opened Bytes
  import opened Mono
  import opened Numbers

  const BAND_ROWS: nat := 128
  const DEFAULT_CUT_FEED_DOTS: int := 232
  const DEFAULT_TOP_MARGIN_DOTS: int := 16
  const ESC_J_MAX: int := 255
  const MAX_FEED_DOTS: int := 2000

  datatype Artifact = Raster(pages: seq<MonoBitmap>) | Text | Raw
  datatype Options = Options(cut: bool, openDrawer: bool, cutFeedDots: int, topMarginDots: int)

  // ----- the interpreter -----

  datatype Event = Reset | Image(rows: seq<seq<byte>>) | Feed(dots: nat) | Kick(pin: byte, on: byte, off: byte) | Cut

  // Height rows of width bytes each.
  function Split(data: seq<byte>, width: nat, height: nat): (rows: seq<seq<byte>>)
    requires |data| == width * height
    ensures |rows| == height
    decreases height
  {
    if height == 0 then []
    else
      assert width <= |data| && |data[width..]| == width * (height - 1) by { SplitSize(width, height); }
      [data[..width]] + Split(data[width..], width, height - 1)
  }

  lemma SplitSize(width: nat, height: nat)
    requires height > 0
    ensures width * height == width + width * (height - 1)
  {
  }

  function Prepend(events: seq<Event>, rest: Option<seq<Event>>): Option<seq<Event>> {
    if rest.None? then None else Some(events + rest.value)
  }

  // GS v 0, after the four bytes that introduce it.
  function ImageSize(b: seq<byte>): (nat, nat)
    requires |b| >= 8
  {
    (U16(b, 4), U16(b, 6))
  }

  // What a printer does with a stream of bytes; None if it meets an unknown or truncated command.
  function Interpret(b: seq<byte>): Option<seq<Event>> {
    if b == [] then Some([])
    else if |b| >= 2 && b[0] == 0x1B && b[1] == 0x40 then Prepend([Reset], Interpret(b[2..]))
    else if |b| >= 3 && b[0] == 0x1B && b[1] == 0x4A then Prepend([Feed(b[2])], Interpret(b[3..]))
    else if |b| >= 5 && b[0] == 0x1B && b[1] == 0x70 then Prepend([Kick(b[2], b[3], b[4])], Interpret(b[5..]))
    else if |b| >= 3 && b[0] == 0x1D && b[1] == 0x56 && b[2] == 0 then Prepend([Cut], Interpret(b[3..]))
    else if |b| >= 8 && b[0] == 0x1D && b[1] == 0x76 && b[2] == 0x30 && b[3] == 0 then
      var (width, height) := ImageSize(b);
      var n := width * height;
      if 8 + n > |b| then None
      else Prepend([Image(Split(b[8..8 + n], width, height))], Interpret(b[8 + n..]))
    else None
  }

  // The bytes b make the printer do events, whatever follows.
  ghost predicate Emits(b: seq<byte>, events: seq<Event>) {
    forall rest :: Interpret(b + rest) == Prepend(events, Interpret(rest))
  }

  lemma EmitsAppend(a: seq<byte>, ea: seq<Event>, b: seq<byte>, eb: seq<Event>)
    requires Emits(a, ea) && Emits(b, eb)
    ensures Emits(a + b, ea + eb)
  {
    hide Interpret;
    forall rest ensures Interpret(a + b + rest) == Prepend(ea + eb, Interpret(rest)) {
      assert a + b + rest == a + (b + rest);
      var r := Interpret(rest);
      if r.Some? {
        assert ea + (eb + r.value) == ea + eb + r.value;
      }
    }
  }

  lemma EmitsWhole(b: seq<byte>, events: seq<Event>)
    requires Emits(b, events)
    ensures Interpret(b) == Some(events)
  {
    assert b + [] == b && Interpret(b + []) == Prepend(events, Interpret([]));
    assert events + [] == events;
  }

  lemma EmitsNothing()
    ensures Emits([], [])
  {
    forall rest ensures Interpret([] + rest) == Prepend([], Interpret(rest)) {
      assert [] + rest == rest;
      var r := Interpret(rest);
      assert r.Some? ==> [] + r.value == r.value;
    }
  }

  const CMD_INIT: seq<byte> := [0x1B, 0x40]
  const CMD_FULL_CUT: seq<byte> := [0x1D, 0x56, 0x00]
  const CMD_DRAWER: seq<byte> := [0x1B, 0x70, 0x00, 0x19, 0xFA]
  const RASTER_START: seq<byte> := [0x1D, 0x76, 0x30, 0x00]

  lemma EmitsCommands(n: byte)
    ensures Emits(CMD_INIT, [Reset]) && Emits(CMD_FULL_CUT, [Cut]) && Emits(CMD_DRAWER, [Kick(0, 0x19, 0xFA)])
    ensures Emits([0x1B, 0x4A, n], [Feed(n)])
  {
    hide Interpret;
    forall rest
      ensures Interpret(CMD_INIT + rest) == Prepend([Reset], Interpret(rest))
      ensures Interpret(CMD_FULL_CUT + rest) == Prepend([Cut], Interpret(rest))
      ensures Interpret(CMD_DRAWER + rest) == Prepend([Kick(0, 0x19, 0xFA)], Interpret(rest))
      ensures Interpret([0x1B, 0x4A, n] + rest) == Prepend([Feed(n)], Interpret(rest))
    {
      ReadsShort(rest, n);
      ReadsDrawer(rest);
    }
  }

  lemma ReadsShort(rest: seq<byte>, n: byte)
    ensures Interpret(CMD_INIT + rest) == Prepend([Reset], Interpret(rest))
    ensures Interpret(CMD_FULL_CUT + rest) == Prepend([Cut], Interpret(rest))
    ensures Interpret([0x1B, 0x4A, n] + rest) == Prepend([Feed(n)], Interpret(rest))
  {
    assert (CMD_INIT + rest)[2..] == rest;
    assert (CMD_FULL_CUT + rest)[3..] == rest;
    assert ([0x1B, 0x4A, n] + rest)[3..] == rest;
  }

  lemma ReadsDrawer(rest: seq<byte>)
    ensures Interpret(CMD_DRAWER + rest) == Prepend([Kick(0, 0x19, 0xFA)], Interpret(rest))
  {
    assert (CMD_DRAWER + rest)[5..] == rest;
  }

  function BandHeader(stride: nat, h: nat): (b: seq<byte>)
    ensures |b| == 8
  {
    RASTER_START + [stride % 0x100, stride / 0x100 % 0x100, h % 0x100, h / 0x100 % 0x100]
  }

  lemma FirstRow(data: seq<byte>, width: nat, height: nat)
    requires |data| == width * height && height > 0
    ensures |Split(data, width, height)[0]| == width
  {
    SplitSize(width, height);
  }

  lemma HeaderRead(d: seq<byte>, data: seq<byte>, b: seq<byte>)
    requires |d| == 4 && b == RASTER_START + d + data
    ensures |b| >= 8 && b[..4] == RASTER_START && ImageSize(b) == (U16(d, 0), U16(d, 2))
  {
    assert b[..4] == RASTER_START && b[4..8] == d;
    assert b[4] == d[0] && b[5] == d[1] && b[6] == d[2] && b[7] == d[3];
  }

  lemma TwoDigits(n: nat)
    ensures n < 0x1_0000 ==> n % 0x100 + 0x100 * (n / 0x100 % 0x100) == n
  {
  }

  lemma HeaderSize(stride: nat, h: nat, data: seq<byte>) returns (width: nat)
    requires h < 0x1_0000
    ensures var b := BandHeader(stride, h) + data;
            |b| >= 8 && b[..4] == RASTER_START && width < 0x1_0000 && ImageSize(b) == (width, h)
    ensures stride < 0x1_0000 ==> width == stride
  {
    hide ImageSize;
    TwoDigits(stride);
    TwoDigits(h);
    var d: seq<byte> := [stride % 0x100, stride / 0x100 % 0x100, h % 0x100, h / 0x100 % 0x100];
    width := U16(d, 0);
    HeaderRead(d, data, BandHeader(stride, h) + data);
  }

  // The row length has two bytes: a band is read back exactly when its rows are shorter than
  // 65536 bytes.
  lemma BandReadBack(stride: nat, h: nat, data: seq<byte>)
    requires 0 < h <= BAND_ROWS && |data| == stride * h
    ensures Interpret(BandHeader(stride, h) + data) == Some([Image(Split(data, stride, h))]) <==> stride < 0x1_0000
  {
    if stride < 0x1_0000 {
      hide *;
      EmitsBand(stride, h, data);
      EmitsWhole(BandHeader(stride, h) + data, [Image(Split(data, stride, h))]);
    } else {
      WideMisread(stride, h, data);
    }
  }

  // A row of 65536 bytes with one black dot.
  function WideRow(): (row: seq<byte>)
    ensures |row| == 0x1_0000 && row[0] == 0x80
  {
    [0x80] + Zeros(0xFFFF)
  }

  // A band of that one row is not read back.
  lemma WideRowLost()
    ensures Interpret(BandHeader(0x1_0000, 1) + WideRow()) != Some([Image(Split(WideRow(), 0x1_0000, 1))])
  {
    hide Interpret, Split, BandHeader, WideRow;
    BandReadBack(0x1_0000, 1, WideRow());
  }

  lemma WideMisread(stride: nat, h: nat, data: seq<byte>)
    requires 0 < h <= BAND_ROWS && |data| == stride * h && stride >= 0x1_0000
    ensures Interpret(BandHeader(stride, h) + data) != Some([Image(Split(data, stride, h))])
  {
    hide Split, Interpret, BandHeader;
    WideRead(stride, h, data, []);
    assert BandHeader(stride, h) + data + [] == BandHeader(stride, h) + data;
  }

  lemma ReadsImage(b: seq<byte>, width: nat, h: nat)
    requires |b| >= 8 && b[..4] == RASTER_START && ImageSize(b) == (width, h)
    ensures var n := width * h;
            if 8 + n > |b| then Interpret(b) == None
            else Interpret(b) == Prepend([Image(Split(b[8..8 + n], width, h))], Interpret(b[8 + n..]))
  {
    hide Split;
    assert b[0] == b[..4][0] && b[1] == b[..4][1] && b[2] == b[..4][2] && b[3] == b[..4][3];
  }

  lemma EmitsBand(stride: nat, h: nat, data: seq<byte>)
    requires stride < 0x1_0000 && h < 0x1_0000 && |data| == stride * h
    ensures Emits(BandHeader(stride, h) + data, [Image(Split(data, stride, h))])
  {
    hide Split, Interpret, BandHeader, ImageSize;
    forall rest
      ensures Interpret(BandHeader(stride, h) + data + rest)
          == Prepend([Image(Split(data, stride, h))], Interpret(rest))
    {
      var b := BandHeader(stride, h) + (data + rest);
      assert BandHeader(stride, h) + data + rest == b;
      var width := HeaderSize(stride, h, data + rest);
      ReadsImage(b, stride, h);
      AfterHeader(BandHeader(stride, h), data, rest);
    }
  }

  lemma AfterHeader(header: seq<byte>, data: seq<byte>, rest: seq<byte>)
    requires |header| == 8
    ensures var b := header + (data + rest);
            |b| >= 8 + |data| && b[8..8 + |data|] == data && b[8 + |data|..] == rest
  {
  }

  // ----- rows of a bitmap -----

  ghost function Rows(mb: MonoBitmap): (rows: seq<seq<byte>>)
    requires mb.Valid()
    ensures |rows| == mb.height
  {
    Split(mb.bits, mb.Stride(), mb.height)
  }

  lemma SplitStep(data: seq<byte>, width: nat, height: nat)
    requires |data| == width * height && height > 0
    ensures width <= |data| && |data[width..]| == width * (height - 1)
    ensures Split(data, width, height) == [data[..width]] + Split(data[width..], width, height - 1)
  {
    SplitSize(width, height);
  }

  lemma SliceShift(data: seq<byte>, shift: nat, at: nat, n: nat)
    requires shift + at + n <= |data|
    ensures data[shift..][at..at + n] == data[shift + at..shift + at + n]
  {
  }

  lemma {:induction false} SplitRow(data: seq<byte>, width: nat, height: nat, i: nat)
    requires |data| == width * height && i < height
    ensures i * width + width <= |data|
    ensures Split(data, width, height)[i] == data[i * width..i * width + width]
    decreases height
  {
    hide Split;
    SplitStep(data, width, height);
    if i == 0 {
      assert i * width == 0;
    } else {
      var at := (i - 1) * width;
      SplitRow(data[width..], width, height - 1, i - 1);
      RowNext(width, i - 1);
      SliceShift(data, width, at, width);
    }
  }

  lemma SplitSlice(data: seq<byte>, width: nat, height: nat, a: nat, b: nat)
    requires |data| == width * height && a <= b <= height
    ensures a * width <= b * width <= |data| && b * width - a * width == width * (b - a)
    ensures Split(data, width, height)[a..b] == Split(data[a * width..b * width], width, b - a)
  {
    hide Split;
    SliceSize(width, height, a, b);
    var part := data[a * width..b * width];
    forall i | 0 <= i < b - a ensures Split(data, width, height)[a..b][i] == Split(part, width, b - a)[i] {
      SliceRow(data, width, height, a, b, i);
    }
  }

  lemma SliceRow(data: seq<byte>, width: nat, height: nat, a: nat, b: nat, i: nat)
    requires |data| == width * height && a <= b <= height && i < b - a
    requires a * width <= b * width <= |data| && b * width - a * width == width * (b - a)
    ensures Split(data, width, height)[a + i] == Split(data[a * width..b * width], width, b - a)[i]
  {
    hide Split;
    var part := data[a * width..b * width];
    SplitRow(data, width, height, a + i);
    SplitRow(part, width, b - a, i);
    TimesSum(a, i, width);
    SliceOf(data, a * width, b * width, i * width, width);
  }

  lemma SliceOf(data: seq<byte>, from: nat, to: nat, at: nat, n: nat)
    requires from <= to <= |data| && from + at + n <= to
    ensures data[from..to][at..at + n] == data[from + at..from + at + n]
  {
    var a, b := data[from..to][at..at + n], data[from + at..from + at + n];
    forall k | 0 <= k < n ensures a[k] == b[k] {
      assert data[from..to][at + k] == data[from + at + k];
    }
    assert a == b;
  }

  lemma TimesSum(a: nat, i: nat, width: nat)
    ensures (a + i) * width == a * width + i * width
  {
  }

  lemma SliceSize(width: nat, height: nat, a: nat, b: nat)
    requires a <= b <= height
    ensures a * width <= b * width <= width * height && b * width - a * width == width * (b - a)
  {
    assert b * width == a * width + width * (b - a);
    assert width * height == b * width + width * (height - b);
  }

  ghost predicate Blank(row: seq<byte>) {
    forall k :: 0 <= k < |row| ==> row[k] == 0
  }

  // The rows without the blank ones at the end.
  ghost function WithoutTrailing(rows: seq<seq<byte>>): (r: seq<seq<byte>>)
    ensures r <= rows && (r == [] || !Blank(r[|r| - 1]))
    ensures forall y :: |r| <= y < |rows| ==> Blank(rows[y])
  {
    if rows == [] || !Blank(rows[|rows| - 1]) then rows else WithoutTrailing(rows[..|rows| - 1])
  }

  // How many rows at the top are blank.
  ghost function Leading(rows: seq<seq<byte>>): (n: nat)
    ensures n <= |rows| && (n < |rows| ==> !Blank(rows[n]))
    ensures forall y :: 0 <= y < n ==> Blank(rows[y])
  {
    if rows == [] || !Blank(rows[0]) then 0 else 1 + Leading(rows[1..])
  }

  // The rows with at most keep blank ones at the top.
  ghost function WithoutLeading(rows: seq<seq<byte>>, keep: nat): (r: seq<seq<byte>>)
    ensures |r| <= |rows| && r == rows[|rows| - |r|..]
    ensures forall y :: 0 <= y < |rows| - |r| ==> Blank(rows[y])
    ensures |rows| - |r| == if Leading(rows) <= keep then 0 else Leading(rows) - keep
  {
    var blank := Leading(rows);
    if blank <= keep then rows else rows[blank - keep..]
  }

  ghost function Min(a: nat, b: nat): nat { if a < b then a else b }

  lemma LeadingOf(rows: seq<seq<byte>>, n: nat)
    requires n <= |rows| && (n < |rows| ==> !Blank(rows[n])) && forall y :: 0 <= y < n ==> Blank(rows[y])
    ensures Leading(rows) == n
  {
    hide Blank;
  }

  // The smaller of what was blank and what may stay is blank at the top.
  lemma LeadingKept(rows: seq<seq<byte>>, keep: nat)
    ensures Leading(WithoutLeading(rows, keep)) == Min(Leading(rows), keep)
  {
    hide Blank;
    LeadingOf(WithoutLeading(rows, keep), Min(Leading(rows), keep));
  }

  method IsBlank(row: seq<byte>) returns (blank: bool)
    ensures blank <==> Blank(row)
  {
    blank := true;
    for k := 0 to |row|
      invariant blank && forall i :: 0 <= i < k ==> row[i] == 0
    {
      if row[k] != 0 {
        blank := false;
        return;
      }
    }
  }

  // Row y of the bitmap, as the code slices it.
  lemma RowSlice(mb: MonoBitmap, y: nat)
    requires mb.Valid() && y < mb.height
    ensures y * mb.Stride() <= (y + 1) * mb.Stride() <= |mb.bits|
    ensures mb.bits[y * mb.Stride()..(y + 1) * mb.Stride()] == Rows(mb)[y]
  {
    RowNext(mb.Stride(), y);
    SplitRow(mb.bits, mb.Stride(), mb.height, y);
  }

  // Cutting the bytes cuts the rows.
  lemma TopRows(mb: MonoBitmap, h: nat)
    requires mb.Valid() && h <= mb.height
    ensures h * mb.Stride() <= |mb.bits|
    ensures var r := MonoBitmap(mb.width, h, mb.bits[..h * mb.Stride()]); r.Valid() && Rows(r) == Rows(mb)[..h]
  {
    hide Split;
    SplitSlice(mb.bits, mb.Stride(), mb.height, 0, h);
    assert mb.bits[0 * mb.Stride()..h * mb.Stride()] == mb.bits[..h * mb.Stride()];
  }

  lemma TrailingStep(rows: seq<seq<byte>>, h: nat)
    requires 0 < h <= |rows|
    ensures WithoutTrailing(rows[..h]) == if Blank(rows[h - 1]) then WithoutTrailing(rows[..h - 1]) else rows[..h]
  {
    hide Blank;
    assert rows[..h][..h - 1] == rows[..h - 1];
  }

  method TrimTrailingBlank(mb: MonoBitmap) returns (r: MonoBitmap)
    requires mb.Valid()
    ensures r.Valid() && r.width == mb.width
    ensures Rows(r) == WithoutTrailing(Rows(mb))
  {
    hide Rows, Blank, WithoutTrailing;
    var stride, h := mb.Stride(), mb.height;
    assert Rows(mb)[..h] == Rows(mb);
    while h > 0
      invariant 0 <= h <= mb.height
      invariant WithoutTrailing(Rows(mb)[..h]) == WithoutTrailing(Rows(mb))
    {
      RowSlice(mb, h - 1);
      TrailingStep(Rows(mb), h);
      var blank := IsBlank(mb.bits[(h - 1) * stride..h * stride]);
      if !blank {
        break;
      }
      h := h - 1;
    }
    TopRows(mb, h);
    if h == mb.height {
      return mb;
    }
    r := MonoBitmap(mb.width, h, mb.bits[..h * stride]);
  }

  method CountLeadingBlank(mb: MonoBitmap) returns (blank: nat)
    requires mb.Valid()
    ensures blank == Leading(Rows(mb))
  {
    hide Split, Blank;
    var stride := mb.Stride();
    blank := 0;
    while blank < mb.height
      invariant 0 <= blank <= mb.height
      invariant Leading(Rows(mb)) == blank + Leading(Rows(mb)[blank..])
    {
      RowSlice(mb, blank);
      var allWhite := IsBlank(mb.bits[blank * stride..(blank + 1) * stride]);
      if !allWhite {
        break;
      }
      assert Rows(mb)[blank..][1..] == Rows(mb)[blank + 1..];
      blank := blank + 1;
    }
  }

  // Cutting bytes at the top cuts rows.
  lemma BottomRows(mb: MonoBitmap, from: nat)
    requires mb.Valid() && from <= mb.height
    ensures from * mb.Stride() <= |mb.bits|
    ensures var r := MonoBitmap(mb.width, mb.height - from, mb.bits[from * mb.Stride()..]);
            r.Valid() && Rows(r) == Rows(mb)[from..]
  {
    hide Split;
    var stride := mb.Stride();
    SplitSlice(mb.bits, stride, mb.height, from, mb.height);
    assert Rows(mb)[from..mb.height] == Rows(mb)[from..];
    assert mb.bits[from * stride..mb.height * stride] == mb.bits[from * stride..];
  }

  lemma WithoutLeadingIs(rows: seq<seq<byte>>, keep: nat)
    ensures WithoutLeading(rows, keep) == if Leading(rows) <= keep then rows else rows[Leading(rows) - keep..]
  {
    hide Leading;
  }

  lemma RowsAre(mb: MonoBitmap)
    requires mb.Valid()
    ensures |Rows(mb)| == mb.height
  {
    hide Split;
  }

  method TrimLeadingBlankTo(mb: MonoBitmap, keep: int) returns (r: MonoBitmap)
    requires mb.Valid()
    ensures r.Valid() && r.width == mb.width
    ensures Rows(r) == WithoutLeading(Rows(mb), if keep < 0 then 0 else keep)
    ensures Leading(Rows(r)) == Min(Leading(Rows(mb)), if keep < 0 then 0 else keep)
    ensures r.height <= mb.height && Rows(r) == Rows(mb)[mb.height - r.height..]
    ensures forall y :: 0 <= y < mb.height - r.height ==> Blank(Rows(mb)[y])
  {
    hide Rows, Blank, Leading, WithoutLeading, MonoBitmap.Valid, MonoBitmap.Stride;
    var kept := if keep < 0 then 0 else keep;
    var stride := mb.Stride();
    var blank := CountLeadingBlank(mb);
    LeadingKept(Rows(mb), kept);
    WithoutLeadingIs(Rows(mb), kept);
    RowsAre(mb);
    if blank <= kept {
      return mb;
    }
    var remove := blank - kept;
    BottomRows(mb, remove);
    r := MonoBitmap(mb.width, mb.height - remove, mb.bits[remove * stride..]);
  }

  // ----- bands -----

  // The rows in images of at most BAND_ROWS rows.
  ghost function Bands(rows: seq<seq<byte>>): (events: seq<Event>)
    ensures forall k :: 0 <= k < |events| ==> events[k].Image? && 1 <= |events[k].rows| <= BAND_ROWS
    ensures forall k :: 0 <= k < |events| - 1 ==> |events[k].rows| == 128
    ensures Printed(events) == rows
  {
    if rows == [] then []
    else
      var h := if |rows| < BAND_ROWS then |rows| else BAND_ROWS;
      var rest := Bands(rows[h..]);
      assert ([Image(rows[..h])] + rest)[1..] == rest;
      [Image(rows[..h])] + rest
  }

  // All the rows that a list of events prints.
  function Printed(events: seq<Event>): seq<seq<byte>> {
    if events == [] then []
    else (if events[0].Image? then events[0].rows else []) + Printed(events[1..])
  }

  lemma {:induction false} PrintedAppend(a: seq<Event>, b: seq<Event>)
    ensures Printed(a + b) == Printed(a) + Printed(b)
  {
    if a == [] {
      assert a + b == b;
    } else {
      assert (a + b)[1..] == a[1..] + b;
      PrintedAppend(a[1..], b);
    }
  }

  lemma BandsStep(rows: seq<seq<byte>>, y: nat, h: nat)
    requires y < |rows| && h == (if |rows| - y < BAND_ROWS then |rows| - y else BAND_ROWS)
    ensures Bands(rows[y..]) == [Image(rows[y..y + h])] + Bands(rows[y + h..])
  {
    hide Printed;
    assert rows[y..][..h] == rows[y..y + h] && rows[y..][h..] == rows[y + h..];
  }

  lemma MoveEvent(a: seq<Event>, b: seq<Event>, e: Event, c: seq<Event>)
    ensures a + b + [e] == a + (b + [e])
    ensures b + ([e] + c) == b + [e] + c
  {
  }

  // Whatever follows b, a printer either fails on it or does not begin with events.
  ghost predicate Misread(b: seq<byte>, events: seq<Event>) {
    forall rest :: Interpret(b + rest).Some? ==> !(events <= Interpret(b + rest).value)
  }

  ghost predicate Prints(b: seq<byte>, events: seq<Event>, ok: bool) {
    if ok then Emits(b, events) else Misread(b, events)
  }

  // Once misread, always misread.
  lemma MisreadMore(b: seq<byte>, events: seq<Event>, x: seq<byte>, more: seq<Event>)
    requires Misread(b, events)
    ensures Misread(b + x, events + more)
  {
    hide Interpret;
    forall rest | Interpret(b + x + rest).Some? ensures !(events + more <= Interpret(b + x + rest).value) {
      assert b + x + rest == b + (x + rest);
      PrefixShorter(events, more, Interpret(b + (x + rest)).value);
    }
  }

  lemma PrefixShorter(a: seq<Event>, b: seq<Event>, r: seq<Event>)
    ensures a + b <= r ==> a <= r
  {
    assert (a + b)[..|a|] == a;
  }

  lemma PrefixNext(a: seq<Event>, e: Event, r: seq<Event>)
    ensures a + [e] <= a + r ==> r != [] && r[0] == e
  {
    assert (a + [e])[|a|] == e && (r != [] ==> (a + r)[|a|] == r[0]);
  }

  // A band with rows too long for its header.
  lemma WideBand(b: seq<byte>, events: seq<Event>, stride: nat, h: nat, data: seq<byte>)
    requires Emits(b, events) && stride >= 0x1_0000 && 0 < h <= BAND_ROWS && |data| == stride * h
    ensures Misread(b + (BandHeader(stride, h) + data), events + [Image(Split(data, stride, h))])
  {
    hide Interpret, Split, BandHeader, ImageSize;
    var x := BandHeader(stride, h) + data;
    forall rest | Interpret(b + x + rest).Some?
      ensures !(events + [Image(Split(data, stride, h))] <= Interpret(b + x + rest).value)
    {
      assert b + x + rest == b + (x + rest);
      WideRead(stride, h, data, rest);
      var r := Interpret(x + rest);
      assert Interpret(b + x + rest) == Prepend(events, r);
      PrefixNext(events, Image(Split(data, stride, h)), r.value);
    }
  }

  // The first event of such a band, if there is one, is another image.
  lemma WideRead(stride: nat, h: nat, data: seq<byte>, rest: seq<byte>)
    requires stride >= 0x1_0000 && 0 < h <= BAND_ROWS && |data| == stride * h
    ensures var r := Interpret(BandHeader(stride, h) + data + rest);
            r.Some? ==> r.value != [] && r.value[0] != Image(Split(data, stride, h))
  {
    hide Interpret, Split, BandHeader, ImageSize;
    var b := BandHeader(stride, h) + (data + rest);
    assert BandHeader(stride, h) + data + rest == b;
    var width := HeaderSize(stride, h, data + rest);
    ReadsImage(b, width, h);
    FirstRow(data, stride, h);
    if 8 + width * h <= |b| {
      var rows, tail := Split(b[8..8 + width * h], width, h), Interpret(b[8 + width * h..]);
      FirstRow(b[8..8 + width * h], width, h);
      assert tail.Some? ==> ([Image(rows)] + tail.value)[0] == Image(rows);
    }
  }

  // One band more.
  lemma BandPrints(b: seq<byte>, events: seq<Event>, ok: bool, mb: MonoBitmap, y: nat, h: nat)
    requires mb.Valid() && 0 < h <= BAND_ROWS && y + h <= mb.height && Prints(b, events, ok)
    ensures y * mb.Stride() <= (y + h) * mb.Stride() <= |mb.bits|
    ensures Prints(b + (BandHeader(mb.Stride(), h) + mb.bits[y * mb.Stride()..(y + h) * mb.Stride()]),
                   events + [Image(Rows(mb)[y..y + h])], ok && mb.Stride() < 0x1_0000)
  {
    hide Emits, Misread, Split, BandHeader;
    var stride := mb.Stride();
    SplitSlice(mb.bits, stride, mb.height, y, y + h);
    var data := mb.bits[y * stride..(y + h) * stride];
    if !ok {
      MisreadMore(b, events, BandHeader(stride, h) + data, [Image(Rows(mb)[y..y + h])]);
    } else if stride < 0x1_0000 {
      EmitsBand(stride, h, data);
      EmitsAppend(b, events, BandHeader(stride, h) + data, [Image(Rows(mb)[y..y + h])]);
    } else {
      WideBand(b, events, stride, h, data);
    }
  }

  // The rows of the bitmap in bands; a printer reads them back exactly if there are none or they
  // are shorter than 65536 bytes.
  method WriteRaster(buf: seq<byte>, mb: MonoBitmap, ghost events: seq<Event>, ghost ok: bool) returns (out: seq<byte>)
    requires mb.Valid() && Prints(buf, events, ok)
    ensures Prints(out, events + Bands(Rows(mb)), ok && (mb.height == 0 || mb.Stride() < 0x1_0000))
  {
    hide Prints, Rows, Printed, Bands, BandHeader, Interpret;
    var stride := mb.Stride();
    ghost var rows := Rows(mb);
    out := buf;
    var y0 := 0;
    ghost var done: seq<Event> := [];
    assert rows[0..] == rows && events + done == events && done + Bands(rows) == Bands(rows);
    while y0 < mb.height
      invariant 0 <= y0 <= mb.height
      invariant done + Bands(rows[y0..]) == Bands(rows)
      invariant Prints(out, events + done, ok && (y0 == 0 || stride < 0x1_0000))
      decreases mb.height - y0
    {
      var h := BAND_ROWS;
      if y0 + h > mb.height {
        h := mb.height - y0;
      }
      BandPrints(out, events + done, ok && (y0 == 0 || stride < 0x1_0000), mb, y0, h);
      var data := mb.bits[y0 * stride..(y0 + h) * stride];
      ghost var image := Image(rows[y0..y0 + h]);
      out := WriteBand(out, stride, h, data);
      BandsStep(rows, y0, h);
      MoveEvent(events, done, image, Bands(rows[y0 + h..]));
      done := done + [image];
      y0 := y0 + h;
    }
    NoBands(rows[y0..]);
    assert done + [] == done;
  }

  lemma NoBands(rows: seq<seq<byte>>)
    requires rows == []
    ensures Bands(rows) == []
  {
  }

  method WriteBand(buf: seq<byte>, stride: nat, h: nat, data: seq<byte>) returns (out: seq<byte>)
    ensures out == buf + (BandHeader(stride, h) + data)
  {
    BandBytes(buf, stride, h, data);
    out := buf + RASTER_START;
    out := out + [stride % 0x100];
    out := out + [stride / 0x100 % 0x100];
    out := out + [h % 0x100];
    out := out + [h / 0x100 % 0x100];
    out := out + data;
  }

  lemma BandBytes(out: seq<byte>, stride: nat, h: nat, data: seq<byte>)
    ensures out + RASTER_START + [stride % 0x100] + [stride / 0x100 % 0x100] + [h % 0x100] + [h / 0x100 % 0x100] + data
         == out + (BandHeader(stride, h) + data)
  {
  }

  // ----- the feed before a cut -----

  function ClampFeed(dots: int): (n: nat)
    ensures 1 <= n <= MAX_FEED_DOTS
  {
    if dots <= 0 then DEFAULT_CUT_FEED_DOTS else if dots > MAX_FEED_DOTS then MAX_FEED_DOTS else dots
  }

  function Fed(events: seq<Event>): nat {
    if events == [] then 0 else (if events[0].Feed? then events[0].dots else 0) + Fed(events[1..])
  }

  // n dots in steps of 1 to 255.
  ghost predicate FeedsOf(events: seq<Event>, n: nat) {
    (forall k :: 0 <= k < |events| ==> events[k].Feed? && 1 <= events[k].dots <= 255) && Fed(events) == n
  }

  lemma AreFeeds(events: seq<Event>)
    ensures forall n :: FeedsOf(events, n) ==> forall e :: e in events ==> e.Feed?
  {
    hide Fed;
  }

  lemma {:induction false} FedSnoc(events: seq<Event>, n: nat)
    ensures Fed(events + [Feed(n)]) == Fed(events) + n
  {
    if events == [] {
    } else {
      assert (events + [Feed(n)])[1..] == events[1..] + [Feed(n)];
      FedSnoc(events[1..], n);
    }
  }

  // The bytes b feed n dots, and do nothing else.
  ghost predicate FeedsDots(b: seq<byte>, n: nat) {
    exists events :: Emits(b, events) && FeedsOf(events, n)
  }

  method EscJFeed(dots: int) returns (b: seq<byte>)
    ensures FeedsDots(b, if dots <= 0 then 232 else if dots > 2000 then 2000 else dots)
  {
    hide Emits, Interpret;
    var left := dots;
    if left <= 0 {
      left := DEFAULT_CUT_FEED_DOTS;
    }
    if left > MAX_FEED_DOTS {
      left := MAX_FEED_DOTS;
    }
    b := [];
    ghost var events := [];
    EmitsNothing();
    while left > 0
      invariant left >= 0 && Emits(b, events) && FeedsOf(events, ClampFeed(dots) - left)
    {
      var n := left;
      if n > ESC_J_MAX {
        n := ESC_J_MAX;
      }
      EmitsCommands(n);
      EmitsAppend(b, events, [0x1B, 0x4A, n], [Feed(n)]);
      FedSnoc(events, n);
      b := b + [0x1B, 0x4A, n];
      events := events + [Feed(n)];
      left := left - n;
    }
  }

  // ----- the encoder -----

  function ResolveTopMargin(dots: int): (n: nat)
    ensures n > 0
  {
    if dots <= 0 then DEFAULT_TOP_MARGIN_DOTS else dots
  }

  // The rows of page i that are printed.
  ghost function PageRows(pages: seq<MonoBitmap>, i: nat, opts: Options): seq<seq<byte>>
    requires i < |pages| && pages[i].Valid()
  {
    var rows := WithoutTrailing(Rows(pages[i]));
    if i == 0 then WithoutLeading(rows, ResolveTopMargin(opts.topMarginDots)) else rows
  }

  ghost function PageBands(pages: seq<MonoBitmap>, n: nat, opts: Options): seq<Event>
    requires n <= |pages| && forall i :: 0 <= i < |pages| ==> pages[i].Valid()
  {
    if n == 0 then [] else PageBands(pages, n - 1, opts) + Bands(PageRows(pages, n - 1, opts))
  }

  // Every page that has rows left has them short enough for their header.
  ghost predicate Printable(pages: seq<MonoBitmap>, n: nat, opts: Options)
    requires n <= |pages| && forall i :: 0 <= i < |pages| ==> pages[i].Valid()
  {
    forall i :: 0 <= i < n ==> PageRows(pages, i, opts) == [] || pages[i].Stride() < 0x1_0000
  }

  ghost predicate AllValid(pages: seq<MonoBitmap>) { forall i :: 0 <= i < |pages| ==> pages[i].Valid() }

  lemma PageRowsAre(pages: seq<MonoBitmap>, i: nat, opts: Options)
    requires i < |pages| && pages[i].Valid()
    ensures var rows := WithoutTrailing(Rows(pages[i]));
            PageRows(pages, i, opts)
            == if i == 0 then WithoutLeading(rows, ResolveTopMargin(opts.topMarginDots)) else rows
  {
    hide Rows, WithoutTrailing, WithoutLeading, ResolveTopMargin;
  }

  // A page of one row that is not blank keeps it, and can be printed exactly if the row is short
  // enough.
  lemma OneRowPage(page: MonoBitmap, opts: Options)
    requires page.Valid() && page.height == 1 && !Blank(page.bits)
    ensures PageRows([page], 0, opts) == [page.bits]
    ensures Printable([page], 1, opts) <==> page.Stride() < 0x1_0000
  {
    OneRow(page.bits);
    WholeRow(page.bits);
  }

  // The page of that wide row.
  const WIDE_PAGE: MonoBitmap := MonoBitmap(0x8_0000, 1, WideRow())

  lemma WidePageLost(opts: Options)
    ensures AllValid([WIDE_PAGE]) && !Blank(WIDE_PAGE.bits) && !Printable([WIDE_PAGE], 1, opts)
  {
    hide WideRow, Zeros;
    OneRowPage(WIDE_PAGE, opts);
  }

  lemma OneRow(row: seq<byte>)
    ensures Split(row, |row|, 1) == [row]
  {
    assert row[..|row|] == row;
    assert Split(row[|row|..], |row|, 0) == [];
  }

  lemma WholeRow(row: seq<byte>)
    requires !Blank(row)
    ensures WithoutTrailing([row]) == [row] && forall keep :: WithoutLeading([row], keep) == [row]
  {
    hide Blank;
    assert [row][..1] == [row];
  }

  method EncodePages(pages: seq<MonoBitmap>, opts: Options) returns (buf: seq<byte>)
    requires AllValid(pages)
    ensures Prints(buf, [Reset] + PageBands(pages, |pages|, opts), Printable(pages, |pages|, opts))
  {
    hide Prints, Interpret, Bands, Rows, PageRows, PageBands, Printable, ResolveTopMargin, WithoutTrailing,
      WithoutLeading;
    StartPrints();
    buf := CMD_INIT;
    NoPages(pages, opts);
    for i := 0 to |pages|
      invariant Prints(buf, [Reset] + PageBands(pages, i, opts), Printable(pages, i, opts))
    {
      var mb := TrimTrailingBlank(pages[i]);
      if i == 0 {
        mb := TrimLeadingBlankTo(mb, ResolveTopMargin(opts.topMarginDots));
      }
      PageRowsAre(pages, i, opts);
      RowCount(mb);
      ghost var events := [Reset] + PageBands(pages, i, opts);
      NextPage(pages, i, opts);
      if mb.height == 0 {
        NoBands(Rows(mb));
        assert events + [] == events;
        continue;
      }
      buf := WriteRaster(buf, mb, events, Printable(pages, i, opts));
    }
  }

  lemma NoPages(pages: seq<MonoBitmap>, opts: Options)
    requires AllValid(pages)
    ensures [Reset] + PageBands(pages, 0, opts) == [Reset] && Printable(pages, 0, opts)
  {
  }

  lemma NextPage(pages: seq<MonoBitmap>, i: nat, opts: Options)
    requires AllValid(pages) && i < |pages|
    ensures [Reset] + PageBands(pages, i + 1, opts)
        == [Reset] + PageBands(pages, i, opts) + Bands(PageRows(pages, i, opts))
    ensures Printable(pages, i + 1, opts)
            <==> Printable(pages, i, opts) && (PageRows(pages, i, opts) == [] || pages[i].Stride() < 0x1_0000)
  {
    hide PageRows, Bands;
    MoveEvents([Reset], PageBands(pages, i, opts), Bands(PageRows(pages, i, opts)));
  }

  lemma StartPrints()
    ensures Prints(CMD_INIT, [Reset], true)
  {
    hide Emits;
    EmitsCommands(0);
  }

  lemma RowCount(mb: MonoBitmap)
    requires mb.Valid()
    ensures Rows(mb) == [] <==> mb.height == 0
  {
    hide Split;
  }

  method EncodeTail(buf: seq<byte>, opts: Options, ghost events: seq<Event>, ghost ok: bool)
    returns (out: seq<byte>, ghost feeds: seq<Event>)
    requires Prints(buf, events, ok)
    ensures FeedsOf(feeds, if opts.cut then ClampFeed(opts.cutFeedDots) else 0)
    ensures ok ==> Interpret(out) == Some(events + (if opts.openDrawer then [Kick(0, 0x19, 0xFA)] else [])
                                          + feeds + if opts.cut then [Cut] else [])
    ensures !ok && Interpret(out).Some? ==> !(events <= Interpret(out).value)
  {
    hide Prints, Emits, Misread, Interpret;
    EmitsCommands(0);
    var tail: seq<byte> := [];
    feeds := [];
    ghost var more: seq<Event> := [];
    EmitsNothing();
    if opts.openDrawer {
      EmitsAppend(tail, more, CMD_DRAWER, [Kick(0, 0x19, 0xFA)]);
      tail := tail + CMD_DRAWER;
      more := more + [Kick(0, 0x19, 0xFA)];
    }
    if opts.cut {
      var feed := EscJFeed(opts.cutFeedDots);
      feeds :| Emits(feed, feeds) && FeedsOf(feeds, ClampFeed(opts.cutFeedDots));
      EmitsAppend(tail, more, feed, feeds);
      EmitsAppend(tail + feed, more + feeds, CMD_FULL_CUT, [Cut]);
      tail := tail + feed + CMD_FULL_CUT;
      more := more + feeds + [Cut];
    }
    out := buf + tail;
    PrintsWhole(buf, events, ok, tail, more);
    assert events + more == events + (if opts.openDrawer then [Kick(0, 0x19, 0xFA)] else [])
                            + feeds + if opts.cut then [Cut] else [];
  }

  lemma PrintsWhole(buf: seq<byte>, events: seq<Event>, ok: bool, tail: seq<byte>, more: seq<Event>)
    requires Prints(buf, events, ok) && Emits(tail, more)
    ensures ok ==> Interpret(buf + tail) == Some(events + more)
    ensures !ok && Interpret(buf + tail).Some? ==> !(events <= Interpret(buf + tail).value)
  {
    hide Interpret;
    if ok {
      EmitsAppend(buf, events, tail, more);
      EmitsWhole(buf + tail, events + more);
    }
  }

  // A printer takes the whole output: it resets, prints the rows left of every page in bands of 1
  // to 128 rows, opens the drawer if asked to, and, if asked to cut, feeds the calibrated
  // distance in steps of 1 to 255 dots and cuts. It does so exactly if every page with rows left
  // is less than 524,281 dots wide; otherwise it does not even print the pages.
  method Encode(a: Artifact, opts: Options) returns (r: Result<seq<byte>>, ghost feeds: seq<Event>)
    requires a.Raster? ==> AllValid(a.pages)
    ensures r.Ok? <==> a.Raster?
    ensures r.Ok? ==>
              var dots := opts.cutFeedDots;
              FeedsOf(feeds, if !opts.cut then 0 else if dots <= 0 then 232 else if dots > 2000 then 2000 else dots)
    ensures r.Ok? && Printable(a.pages, |a.pages|, opts) ==>
              Interpret(r.value) == Some(
                [Reset] + PageBands(a.pages, |a.pages|, opts)
                + (if opts.openDrawer then [Kick(0, 0x19, 0xFA)] else [])
                + feeds + if opts.cut then [Cut] else [])
    ensures r.Ok? && !Printable(a.pages, |a.pages|, opts) && Interpret(r.value).Some? ==>
              !([Reset] + PageBands(a.pages, |a.pages|, opts) <= Interpret(r.value).value)
    ensures r.Ok? && Printable(a.pages, |a.pages|, opts) ==>
              Printed(Interpret(r.value).value) == AllRows(a.pages, |a.pages|, opts)
    ensures r.Ok? && Printable(a.pages, |a.pages|, opts) && a.pages != [] && HasInk(Rows(a.pages[0])) ==>
              var rows := Printed(Interpret(r.value).value);
              var top := Min(Leading(Rows(a.pages[0])), if opts.topMarginDots <= 0 then 16 else opts.topMarginDots);
              top < |rows| && !Blank(rows[top]) && forall y :: 0 <= y < top ==> Blank(rows[y])
  {
    hide Prints, Interpret, Bands, FeedsOf, Printable, AllRows, Leading, Blank, HasInk, Rows, Printed;
    feeds := [];
    if !a.Raster? {
      return Err("expected raster artifact"), feeds;
    }
    ghost var ok := Printable(a.pages, |a.pages|, opts);
    var buf := EncodePages(a.pages, opts);
    var out;
    out, feeds := EncodeTail(buf, opts, [Reset] + PageBands(a.pages, |a.pages|, opts), ok);
    AreFeeds(feeds);
    WholePrints(a.pages, opts, if opts.openDrawer then [Kick(0, 0x19, 0xFA)] else [], feeds,
                if opts.cut then [Cut] else []);
    if a.pages != [] && HasInk(Rows(a.pages[0])) {
      TopMargin(a.pages, opts);
    }
    r := Ok(out);
  }

  lemma MoveEvents(a: seq<Event>, b: seq<Event>, c: seq<Event>)
    ensures a + b + c == a + (b + c)
  {
  }

  // ----- what stays of a page -----

  // The rows of all pages, one page after the other.
  ghost function AllRows(pages: seq<MonoBitmap>, n: nat, opts: Options): seq<seq<byte>>
    requires n <= |pages| && forall i :: 0 <= i < |pages| ==> pages[i].Valid()
  {
    if n == 0 then [] else AllRows(pages, n - 1, opts) + PageRows(pages, n - 1, opts)
  }

  lemma {:induction false} BandsPrintAll(pages: seq<MonoBitmap>, n: nat, opts: Options)
    requires n <= |pages| && forall i :: 0 <= i < |pages| ==> pages[i].Valid()
    ensures Printed(PageBands(pages, n, opts)) == AllRows(pages, n, opts)
    ensures forall k :: 0 <= k < |PageBands(pages, n, opts)| ==>
              PageBands(pages, n, opts)[k].Image? && 1 <= |PageBands(pages, n, opts)[k].rows| <= BAND_ROWS
  {
    hide PageRows, Printed;
    if n == 0 {
      NothingPrinted();
    } else {
      BandsPrintAll(pages, n - 1, opts);
      PrintedAppend(PageBands(pages, n - 1, opts), Bands(PageRows(pages, n - 1, opts)));
    }
  }

  // What stands before and after the pages prints no rows.
  lemma WholePrints(pages: seq<MonoBitmap>, opts: Options, kick: seq<Event>, feeds: seq<Event>, cut: seq<Event>)
    requires AllValid(pages)
    requires forall e :: e in kick + feeds + cut ==> !e.Image?
    ensures Printed([Reset] + PageBands(pages, |pages|, opts) + kick + feeds + cut) == AllRows(pages, |pages|, opts)
  {
    hide PageBands, AllRows, Printed;
    var bands := PageBands(pages, |pages|, opts);
    BandsPrintAll(pages, |pages|, opts);
    PrintedAppend([Reset], bands);
    PrintedAppend([Reset] + bands, kick);
    PrintedAppend([Reset] + bands + kick, feeds);
    PrintedAppend([Reset] + bands + kick + feeds, cut);
    NoImages([Reset]);
    NoImages(kick);
    NoImages(feeds);
    NoImages(cut);
  }

  lemma {:induction false} NoImages(events: seq<Event>)
    requires forall e :: e in events ==> !e.Image?
    ensures Printed(events) == []
  {
    if events != [] {
      NoImages(events[1..]);
    }
  }

  ghost predicate HasInk(rows: seq<seq<byte>>) { exists y :: 0 <= y < |rows| && !Blank(rows[y]) }

  // Trimming the bottom of a page with ink leaves its top as it is.
  lemma TopStays(rows: seq<seq<byte>>)
    requires HasInk(rows)
    ensures Leading(WithoutTrailing(rows)) == Leading(rows) < |WithoutTrailing(rows)|
  {
    hide Blank;
    var kept := WithoutTrailing(rows);
    var y :| 0 <= y < |rows| && !Blank(rows[y]);
    assert Leading(rows) <= y < |kept|;
    LeadingOf(kept, Leading(rows));
  }

  lemma {:induction false} AllRowsStart(pages: seq<MonoBitmap>, n: nat, opts: Options)
    requires 0 < n <= |pages| && forall i :: 0 <= i < |pages| ==> pages[i].Valid()
    ensures PageRows(pages, 0, opts) <= AllRows(pages, n, opts)
  {
    hide PageRows;
    if n > 1 {
      AllRowsStart(pages, n - 1, opts);
    } else {
      assert AllRows(pages, 0, opts) == [];
    }
  }

  // The print starts with the blank rows that the first page has, or with the margin if those are
  // more: 16 unless the option is positive.
  lemma TopMargin(pages: seq<MonoBitmap>, opts: Options)
    requires AllValid(pages) && pages != [] && HasInk(Rows(pages[0]))
    ensures var rows := AllRows(pages, |pages|, opts);
            var top := Min(Leading(Rows(pages[0])), if opts.topMarginDots <= 0 then 16 else opts.topMarginDots);
            top < |rows| && !Blank(rows[top]) && forall y :: 0 <= y < top ==> Blank(rows[y])
  {
    hide Blank, Rows, AllRows, HasInk, PageRows, WithoutTrailing, WithoutLeading;
    AllRowsStart(pages, |pages|, opts);
    PageRowsAre(pages, 0, opts);
    var kept, margin := WithoutTrailing(Rows(pages[0])), ResolveTopMargin(opts.topMarginDots);
    TopStays(Rows(pages[0]));
    LeadingKept(kept, margin);
    TopOf(WithoutLeading(kept, margin), AllRows(pages, |pages|, opts));
  }

  lemma TopOf(rows: seq<seq<byte>>, all: seq<seq<byte>>)
    requires rows <= all && Leading(rows) < |rows|
    ensures Leading(rows) < |all| && !Blank(all[Leading(rows)])
    ensures forall y :: 0 <= y < Leading(rows) ==> Blank(all[y])
  {
    hide Blank;
  }

  lemma NothingPrinted()
    ensures Printed([]) == []
  {
  }

  // A dot of the bitmap is a bit of its row.
  lemma DotOfRow(mb: MonoBitmap, x: nat, y: nat)
    requires mb.Valid() && x < 8 * mb.Stride() && y < mb.height
    ensures x / 8 < |Rows(mb)[y]|
    ensures Dot(mb.bits, mb.Stride(), x, y) <==> Bit(Rows(mb)[y][x / 8], x % 8)
  {
    hide Split, Bit;
    SplitRow(mb.bits, mb.Stride(), mb.height, y);
  }

  lemma BlankHasNoInk(row: seq<byte>, x: nat)
    requires Blank(row) && x / 8 < |row|
    ensures !Bit(row[x / 8], x % 8)
  {
    ZeroFromRight(7 - x % 8);
  }

  // Of a blank page nothing is printed. Of any other page the rows end with ink, and they start with
  // the blank rows of the page, of which on the first page no more stay than the margin.
  lemma PageKept(pages: seq<MonoBitmap>, i: nat, opts: Options)
    requires i < |pages| && pages[i].Valid()
    ensures !HasInk(Rows(pages[i])) ==> PageRows(pages, i, opts) == []
    ensures HasInk(Rows(pages[i])) ==>
              var rows, blank := PageRows(pages, i, opts), Leading(Rows(pages[i]));
              var margin := if opts.topMarginDots <= 0 then 16 else opts.topMarginDots;
              && rows != [] && !Blank(rows[|rows| - 1])
              && Leading(rows) == if i == 0 then Min(blank, margin) else blank
  {
    hide Blank, Rows, WithoutLeading, WithoutTrailing, Leading;
    var page := Rows(pages[i]);
    var kept, margin := WithoutTrailing(page), ResolveTopMargin(opts.topMarginDots);
    PageRowsAre(pages, i, opts);
    LeadingKept(kept, margin);
    if kept != [] {
      InkThere(page);
    }
    if HasInk(page) {
      TopStays(page);
    }
  }

  lemma InkThere(rows: seq<seq<byte>>)
    requires WithoutTrailing(rows) != []
    ensures HasInk(rows)
  {
    hide Blank;
    assert !Blank(rows[|WithoutTrailing(rows)| - 1]);
  }

  // How many rows the encoder removes above the rows it prints.
  ghost function RemovedAbove(pages: seq<MonoBitmap>, i: nat, opts: Options): nat
    requires i < |pages| && pages[i].Valid()
  {
    |WithoutTrailing(Rows(pages[i]))| - |PageRows(pages, i, opts)|
  }

  // Every dot of a page is printed in its column, moved up by the rows removed above it: black
  // dots are never lost, and what is printed at their place in the page is what the page shows.
  lemma InkKept(pages: seq<MonoBitmap>, i: nat, opts: Options, x: nat, y: nat)
    requires i < |pages| && pages[i].Valid() && x < 8 * pages[i].Stride() && y < pages[i].height
    ensures var mb, rows, up := pages[i], PageRows(pages, i, opts), RemovedAbove(pages, i, opts);
            if up <= y < up + |rows| then
              x / 8 < |rows[y - up]| && (Dot(mb.bits, mb.Stride(), x, y) <==> Bit(rows[y - up][x / 8], x % 8))
            else !Dot(mb.bits, mb.Stride(), x, y)
  {
    hide Bit, Dot, Rows, Blank, WithoutLeading, WithoutTrailing, Leading, MonoBitmap.Valid, MonoBitmap.Stride;
    var mb := pages[i];
    RowsAre(mb);
    DotOfRow(mb, x, y);
    if Blank(Rows(mb)[y]) {
      BlankHasNoInk(Rows(mb)[y], x);
    }
  }
}
