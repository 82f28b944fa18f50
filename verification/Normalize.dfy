/** Profile normalisation for Windows (internal/adapters/printing/platform/normalize.go). */
module Normalize {
  type DeviceFormat = string

  const DEVICE_PDF: DeviceFormat := "pdf"
  const DEVICE_GDI: DeviceFormat := "gdi-raster"
  const MIN_DPI := 600
  const MIN_WIDTH := 4960

  // Whatever is not the image mode is the vector mode.
  datatype PageMode = Image | Vector

  datatype Profile = Profile(
    printerID: string,
    nativeFormats: seq<DeviceFormat>,
    widthDots: int,
    dpi: int,
    supportsCut: bool,
    supportsDrawer: bool,
    meta: map<string, string>)

  // ----- what the loops build -----

  function Rastered(f: DeviceFormat): DeviceFormat {
    if f == DEVICE_PDF then DEVICE_GDI else f
  }

  // The formats with every pdf made a gdi-raster, each at its first occurrence.
  function Firsts(s: seq<DeviceFormat>): seq<DeviceFormat> {
    if s == [] then []
    else
      var before, f := Firsts(s[..|s| - 1]), Rastered(s[|s| - 1]);
      if f in before then before else before + [f]
  }

  // The formats with a pdf right before every gdi-raster.
  function WithPdf(s: seq<DeviceFormat>): seq<DeviceFormat> {
    if s == [] then []
    else
      var f := s[|s| - 1];
      WithPdf(s[..|s| - 1]) + if f == DEVICE_GDI then [DEVICE_PDF, f] else [f]
  }

  predicate IsPage(s: seq<DeviceFormat>) {
    DEVICE_PDF in s || DEVICE_GDI in s
  }

  function Max(a: int, b: int): int { if a < b then b else a }

  function ImageProfile(p: Profile): Profile {
    if IsPage(p.nativeFormats) then
      p.(nativeFormats := Firsts(p.nativeFormats), dpi := Max(p.dpi, MIN_DPI), widthDots := Max(p.widthDots, MIN_WIDTH))
    else
      p.(nativeFormats := Firsts(p.nativeFormats))
  }

  function Normalized(p: Profile, mode: PageMode): Profile {
    var image := ImageProfile(p);
    if mode == Image then image else image.(nativeFormats := WithPdf(image.nativeFormats))
  }

  // ----- the code -----

  method NormalizeForGDIRaster(p: Profile) returns (r: Profile)
    ensures r == ImageProfile(p)
  {
    if |p.nativeFormats| == 0 {
      return p;
    }
    var out: seq<DeviceFormat> := [];
    var seen: set<DeviceFormat> := {};
    var rasterTarget := false;
    for n := 0 to |p.nativeFormats|
      invariant out == Firsts(p.nativeFormats[..n])
      invariant forall f :: f in seen <==> f in out
      invariant rasterTarget <==> IsPage(p.nativeFormats[..n])
    {
      assert p.nativeFormats[..n + 1] == p.nativeFormats[..n] + [p.nativeFormats[n]];
      var f := p.nativeFormats[n];
      if f == DEVICE_PDF {
        f := DEVICE_GDI;
      }
      if f == DEVICE_GDI {
        rasterTarget := true;
      }
      if f in seen {
        continue;
      }
      seen := seen + {f};
      out := out + [f];
    }
    assert p.nativeFormats[..|p.nativeFormats|] == p.nativeFormats;
    r := p.(nativeFormats := out);
    if rasterTarget {
      if r.dpi < MIN_DPI {
        r := r.(dpi := MIN_DPI);
      }
      if r.widthDots < MIN_WIDTH {
        r := r.(widthDots := MIN_WIDTH);
      }
    }
  }

  method NormalizeForWindows(p: Profile, mode: PageMode) returns (r: Profile)
    ensures r == Normalized(p, mode)
  {
    r := NormalizeForGDIRaster(p);
    if mode == Image {
      return;
    }
    var formats: seq<DeviceFormat> := [];
    for n := 0 to |r.nativeFormats|
      invariant formats == WithPdf(r.nativeFormats[..n])
    {
      assert r.nativeFormats[..n + 1] == r.nativeFormats[..n] + [r.nativeFormats[n]];
      if r.nativeFormats[n] == DEVICE_GDI {
        formats := formats + [DEVICE_PDF];
      }
      formats := formats + [r.nativeFormats[n]];
    }
    assert r.nativeFormats[..|r.nativeFormats|] == r.nativeFormats;
    r := r.(nativeFormats := formats);
  }

  // ----- what it means -----

  // x stands for f: a pdf for gdi-raster, and any other format for itself.
  ghost predicate StandsFor(x: DeviceFormat, f: DeviceFormat) {
    (x == "pdf" && f == "gdi-raster") || (x != "pdf" && x == f)
  }

  // The first place where s names f.
  ghost predicate FirstAt(s: seq<DeviceFormat>, f: DeviceFormat, at: nat) {
    && at < |s| && StandsFor(s[at], f)
    && forall k :: 0 <= k < at ==> !StandsFor(s[k], f)
  }

  ghost predicate Named(s: seq<DeviceFormat>, f: DeviceFormat) {
    exists k :: 0 <= k < |s| && StandsFor(s[k], f)
  }

  // Duplicates go and priority stays: exactly the formats named, each once, in the order in which
  // they are first named.
  lemma {:induction false} PriorityKept(s: seq<DeviceFormat>)
    ensures forall f :: f in Firsts(s) <==> Named(s, f)
    ensures forall i, j, a, b ::
              0 <= i < j < |Firsts(s)| && FirstAt(s, Firsts(s)[i], a) && FirstAt(s, Firsts(s)[j], b) ==> a < b
    ensures forall i, j :: 0 <= i < j < |Firsts(s)| ==> Firsts(s)[i] != Firsts(s)[j]
  {
    if s != [] {
      var n := |s| - 1;
      var before := s[..n];
      PriorityKept(before);
      forall f | f in Firsts(s) ensures Named(s, f) {
        if f in Firsts(before) {
          var k :| 0 <= k < n && StandsFor(before[k], f);
          assert StandsFor(s[k], f);
        } else {
          assert StandsFor(s[n], f);
        }
      }
      forall k, f | 0 <= k < |s| && StandsFor(s[k], f) ensures f in Firsts(s) {
        assert k < n ==> StandsFor(before[k], f);
      }
      forall i, j, a, b | 0 <= i < j < |Firsts(s)| && FirstAt(s, Firsts(s)[i], a) && FirstAt(s, Firsts(s)[j], b)
        ensures a < b
      {
        FirstInPrefix(s, before, Firsts(s)[i], a);
        FirstInPrefix(s, before, Firsts(s)[j], b);
      }
    }
  }

  lemma FirstInPrefix(s: seq<DeviceFormat>, before: seq<DeviceFormat>, f: DeviceFormat, at: nat)
    requires s != [] && before == s[..|s| - 1] && FirstAt(s, f, at)
    ensures if Named(before, f) then FirstAt(before, f, at) else at == |s| - 1
  {
    if Named(before, f) {
      var k :| 0 <= k < |before| && StandsFor(before[k], f);
      assert StandsFor(s[k], f);
    }
    assert at < |before| ==> StandsFor(before[at], f);
  }

  // The image formats are the vector formats without pdf, and pdf stands only right before gdi-raster.
  function WithoutPdf(s: seq<DeviceFormat>): seq<DeviceFormat> {
    if s == [] then []
    else WithoutPdf(s[..|s| - 1]) + if s[|s| - 1] == DEVICE_PDF then [] else [s[|s| - 1]]
  }

  lemma {:induction false} NoPdfLeft(s: seq<DeviceFormat>)
    ensures DEVICE_PDF !in Firsts(s)
    ensures IsPage(Firsts(s)) <==> IsPage(s)
  {
    if s != [] {
      NoPdfLeft(s[..|s| - 1]);
      assert s == s[..|s| - 1] + [s[|s| - 1]];
    }
  }

  // Every pdf is followed by a gdi-raster, and every gdi-raster preceded by a pdf.
  ghost predicate PdfLeads(w: seq<DeviceFormat>) {
    && (forall i :: 0 <= i < |w| && w[i] == DEVICE_PDF ==> i + 1 < |w| && w[i + 1] == DEVICE_GDI)
    && (forall i :: 0 <= i < |w| && w[i] == DEVICE_GDI ==> i > 0 && w[i - 1] == DEVICE_PDF)
  }

  lemma LeadsMore(w: seq<DeviceFormat>, f: DeviceFormat)
    requires PdfLeads(w)
    ensures f != DEVICE_PDF && f != DEVICE_GDI ==> PdfLeads(w + [f])
    ensures PdfLeads(w + [DEVICE_PDF, DEVICE_GDI])
  {
    var t := w + [DEVICE_PDF, DEVICE_GDI];
    forall i | 0 <= i < |t| && t[i] == DEVICE_PDF ensures i + 1 < |t| && t[i + 1] == DEVICE_GDI {
      assert i < |w| ==> t[i] == w[i];
      assert i + 1 < |w| ==> t[i + 1] == w[i + 1];
    }
  }

  lemma WithoutSnoc(w: seq<DeviceFormat>, f: DeviceFormat)
    ensures WithoutPdf(w + [f]) == WithoutPdf(w) + if f == DEVICE_PDF then [] else [f]
  {
    assert (w + [f])[..|w|] == w;
  }

  lemma {:induction false} PdfBeforeRaster(s: seq<DeviceFormat>)
    requires DEVICE_PDF !in s
    ensures WithoutPdf(WithPdf(s)) == s && PdfLeads(WithPdf(s))
  {
    hide WithoutPdf, PdfLeads;
    if s == [] {
      NothingLeads();
    } else {
      var before, f := s[..|s| - 1], s[|s| - 1];
      PdfBeforeRaster(before);
      var w := WithPdf(before);
      LeadsMore(w, f);
      assert s == before + [f];
      if f == DEVICE_GDI {
        WithoutSnoc(w, DEVICE_PDF);
        WithoutSnoc(w + [DEVICE_PDF], f);
        assert WithPdf(s) == w + [DEVICE_PDF] + [f];
      } else {
        WithoutSnoc(w, f);
      }
    }
  }

  lemma NothingLeads()
    ensures WithoutPdf([]) == [] && PdfLeads([])
  {
  }

  lemma FirstsSnoc(s: seq<DeviceFormat>, f: DeviceFormat)
    ensures Firsts(s + [f]) == if Rastered(f) in Firsts(s) then Firsts(s) else Firsts(s) + [Rastered(f)]
  {
    assert (s + [f])[..|s|] == s;
  }

  // Normal formats are left alone, with or without the pdf in front.
  lemma {:induction false} FirstsOfNormal(s: seq<DeviceFormat>)
    requires DEVICE_PDF !in s
    requires forall i, j :: 0 <= i < j < |s| ==> s[i] != s[j]
    ensures Firsts(s) == s && Firsts(WithPdf(s)) == s
  {
    hide Firsts, WithPdf;
    if s == [] {
      NormalNothing();
    } else {
      var before, f := s[..|s| - 1], s[|s| - 1];
      FirstsOfNormal(before);
      assert s == before + [f] && f !in before;
      NormalSnoc(before, f);
    }
  }

  lemma NormalNothing()
    ensures Firsts([]) == [] && Firsts(WithPdf([])) == []
  {
  }

  lemma WithPdfSnoc(s: seq<DeviceFormat>, f: DeviceFormat)
    ensures WithPdf(s + [f]) == if f == DEVICE_GDI then WithPdf(s) + [DEVICE_PDF] + [f] else WithPdf(s) + [f]
  {
    assert (s + [f])[..|s|] == s;
    assert WithPdf(s) + [DEVICE_PDF, f] == WithPdf(s) + [DEVICE_PDF] + [f];
  }

  lemma NormalSnoc(before: seq<DeviceFormat>, f: DeviceFormat)
    requires Firsts(before) == before == Firsts(WithPdf(before)) && f !in before && f != DEVICE_PDF
    ensures Firsts(before + [f]) == before + [f] == Firsts(WithPdf(before + [f]))
  {
    hide Firsts, WithPdf;
    var w := WithPdf(before);
    FirstsSnoc(before, f);
    WithPdfSnoc(before, f);
    if f == DEVICE_GDI {
      FirstsSnoc(w, DEVICE_PDF);
      FirstsSnoc(w + [DEVICE_PDF], f);
    } else {
      FirstsSnoc(w, f);
    }
  }

  lemma {:induction false} PageWithPdf(s: seq<DeviceFormat>)
    ensures IsPage(WithPdf(s)) <==> IsPage(s)
  {
    if s != [] {
      PageWithPdf(s[..|s| - 1]);
      assert s == s[..|s| - 1] + [s[|s| - 1]];
    }
  }

  // Normalisation absorbs itself, whatever the two modes.
  lemma Absorbs(p: Profile, first: PageMode, second: PageMode)
    ensures Normalized(Normalized(p, first), second) == Normalized(p, second)
  {
    var formats := Firsts(p.nativeFormats);
    NoPdfLeft(p.nativeFormats);
    PriorityKept(p.nativeFormats);
    FirstsOfNormal(formats);
    PageWithPdf(formats);
  }

  // Resolution is never lowered, a page profile reaches the raster minimum, and the formats and
  // the two resolution fields are all that changes.
  lemma OnlyRaised(p: Profile, mode: PageMode)
    ensures var r := Normalized(p, mode);
            && p.dpi <= r.dpi && p.widthDots <= r.widthDots
            && var page := "pdf" in p.nativeFormats || "gdi-raster" in p.nativeFormats;
            && (page ==> r.dpi >= 600 && r.widthDots >= 4960)
            && (r.dpi != p.dpi ==> page && r.dpi == 600)
            && (r.widthDots != p.widthDots ==> page && r.widthDots == 4960)
            && r == p.(nativeFormats := r.nativeFormats, dpi := r.dpi, widthDots := r.widthDots)
  {
  }

  // A profile without a page format keeps its formats but for duplicates.
  lemma OtherPrintersKept(p: Profile, mode: PageMode)
    requires !IsPage(p.nativeFormats)
    requires forall i, j :: 0 <= i < j < |p.nativeFormats| ==> p.nativeFormats[i] != p.nativeFormats[j]
    ensures Normalized(p, mode) == p
  {
    FirstsOfNormal(p.nativeFormats);
    NoGdi(p.nativeFormats);
  }

  lemma {:induction false} NoGdi(s: seq<DeviceFormat>)
    requires DEVICE_GDI !in s
    ensures WithPdf(s) == s
  {
    if s != [] {
      var n := |s| - 1;
      assert s == s[..n] + [s[n]] && s[n] in s;
      assert forall f :: f in s[..n] ==> f in s;
      NoGdi(s[..n]);
    }
  }
}
