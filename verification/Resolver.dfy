/** Capability resolution (internal/app/print/resolver.go). */
module Resolver {
  import opened Bytes
  import opened Normalize

  type SourceFormat = string
  type Kind = string

  datatype Renderer = Renderer(name: string, canRender: SourceFormat -> bool, produces: Kind)
  datatype Encoder = Encoder(name: string, accepts: Kind, produces: DeviceFormat)
  datatype Driver = Driver(name: string, accepts: DeviceFormat -> bool)
  datatype Registry = Registry(renderers: seq<Renderer>, encoders: seq<Encoder>, drivers: seq<Driver>)

  // The renderer and encoder of a pipeline, or the pair that passes a device format through.
  datatype Conversion = Passthrough(format: DeviceFormat) | Convert(renderer: Renderer, encoder: Encoder)
  datatype Pipeline = Pipeline(conversion: Conversion, driver: Driver)

  datatype Reason = NoDriver(target: DeviceFormat) | NoEncoder(target: DeviceFormat) | NoRenderer(target: DeviceFormat)
  datatype Resolution = Resolved(pipeline: Pipeline) | NoFormats(printerID: string)
                      | Unprintable(format: SourceFormat, printerID: string, reasons: seq<Reason>)

  const DEVICE_OF_SOURCE: map<SourceFormat, DeviceFormat> := map[
    "application/pdf" := "pdf",
    "image/png" := "png",
    "application/vnd.escpos" := "escpos",
    "application/vnd.zpl" := "zpl"]

  predicate SourceIsDevice(source: SourceFormat, device: DeviceFormat) {
    source in DEVICE_OF_SOURCE && DEVICE_OF_SOURCE[source] == device
  }

  // ----- what Resolve promises -----

  ghost predicate Reachable(reg: Registry, target: DeviceFormat) {
    exists d :: 0 <= d < |reg.drivers| && reg.drivers[d].accepts(target)
  }

  ghost predicate FirstDriver(reg: Registry, target: DeviceFormat, d: int) {
    && 0 <= d < |reg.drivers| && reg.drivers[d].accepts(target)
    && forall k :: 0 <= k < d ==> !reg.drivers[k].accepts(target)
  }

  // Encoder e makes the target out of what renderer r makes of the source.
  ghost predicate Chain(reg: Registry, format: SourceFormat, target: DeviceFormat, e: int, r: int) {
    && 0 <= e < |reg.encoders| && 0 <= r < |reg.renderers|
    && reg.encoders[e].produces == target
    && reg.renderers[r].canRender(format)
    && reg.renderers[r].produces == reg.encoders[e].accepts
  }

  ghost predicate FirstChain(reg: Registry, format: SourceFormat, target: DeviceFormat, e: int, r: int) {
    && Chain(reg, format, target, e, r)
    && forall e', r' :: Chain(reg, format, target, e', r') ==> e < e' || (e == e' && r <= r')
  }

  // The source can be printed as that device format.
  ghost predicate Servable(reg: Registry, format: SourceFormat, target: DeviceFormat) {
    && Reachable(reg, target)
    && (SourceIsDevice(format, target) || exists e, r :: Chain(reg, format, target, e, r))
  }

  // The pipeline for one device format: the first driver, and the source as it is or the first
  // encoder with its first renderer.
  ghost predicate Best(reg: Registry, format: SourceFormat, target: DeviceFormat, p: Pipeline) {
    && (exists d :: FirstDriver(reg, target, d) && p.driver == reg.drivers[d])
    && if SourceIsDevice(format, target) then
         p.conversion == Passthrough(target)
       else
         exists e, r :: FirstChain(reg, format, target, e, r)
           && p.conversion == Convert(reg.renderers[r], reg.encoders[e])
  }

  ghost predicate NoneServable(reg: Registry, format: SourceFormat, targets: seq<DeviceFormat>) {
    forall t :: t in targets ==> !Servable(reg, format, t)
  }

  // The pipeline of the first format that can be served.
  ghost predicate ChosenAt(reg: Registry, format: SourceFormat, targets: seq<DeviceFormat>, i: int, p: Pipeline) {
    0 <= i < |targets| && NoneServable(reg, format, targets[..i]) && Servable(reg, format, targets[i])
      && Best(reg, format, targets[i], p)
  }

  ghost predicate Chosen(reg: Registry, format: SourceFormat, targets: seq<DeviceFormat>, p: Pipeline) {
    exists i :: ChosenAt(reg, format, targets, i, p)
  }

  ghost predicate Made(reg: Registry, target: DeviceFormat) {
    exists e :: 0 <= e < |reg.encoders| && reg.encoders[e].produces == target
  }

  // What is said about a format that cannot be served.
  ghost predicate Explains(reg: Registry, target: DeviceFormat, why: Reason) {
    why.target == target &&
    match why
    case NoDriver(_) => !Reachable(reg, target)
    case NoEncoder(_) => Reachable(reg, target) && !Made(reg, target)
    case NoRenderer(_) => Reachable(reg, target) && Made(reg, target)
  }

  ghost predicate Outcome(reg: Registry, format: SourceFormat, profile: Profile, res: Resolution) {
    match res
    case NoFormats(id) => profile.nativeFormats == [] && id == profile.printerID
    case Resolved(p) => Chosen(reg, format, profile.nativeFormats, p)
    case Unprintable(f, id, reasons) =>
      && profile.nativeFormats != [] && f == format && id == profile.printerID
      && NoneServable(reg, format, profile.nativeFormats)
      && |reasons| == |profile.nativeFormats|
      && forall i :: 0 <= i < |reasons| ==> Explains(reg, profile.nativeFormats[i], reasons[i])
  }

  // ----- the code -----

  method DriverFor(reg: Registry, f: DeviceFormat) returns (driver: Option<Driver>)
    ensures driver.Some? <==> Reachable(reg, f)
    ensures driver.Some? ==> exists d :: FirstDriver(reg, f, d) && driver.value == reg.drivers[d]
  {
    for d := 0 to |reg.drivers|
      invariant forall k :: 0 <= k < d ==> !reg.drivers[k].accepts(f)
    {
      if reg.drivers[d].accepts(f) {
        assert FirstDriver(reg, f, d);
        return Some(reg.drivers[d]);
      }
    }
    driver := None;
  }

  // The two inner loops: the first encoder that makes the target with the first renderer that feeds it.
  method FindChain(reg: Registry, format: SourceFormat, target: DeviceFormat)
    returns (found: Option<Conversion>, encoderFound: bool)
    ensures found.Some? <==> exists e, r :: Chain(reg, format, target, e, r)
    ensures found.Some? ==> exists e, r ::
        FirstChain(reg, format, target, e, r)
        && found.value == Convert(reg.renderers[r], reg.encoders[e])
    ensures found.None? ==> (encoderFound <==> Made(reg, target))
  {
    encoderFound := false;
    for e := 0 to |reg.encoders|
      invariant forall e', r' :: Chain(reg, format, target, e', r') ==> e <= e'
      invariant encoderFound <==> exists e' :: 0 <= e' < e && reg.encoders[e'].produces == target
    {
      var enc := reg.encoders[e];
      if enc.produces != target {
        continue;
      }
      encoderFound := true;
      for r := 0 to |reg.renderers|
        invariant forall e', r' :: Chain(reg, format, target, e', r') ==> e < e' || (e == e' && r <= r')
      {
        if reg.renderers[r].canRender(format) && reg.renderers[r].produces == enc.accepts {
          assert FirstChain(reg, format, target, e, r);
          return Some(Convert(reg.renderers[r], enc)), true;
        }
      }
    }
    found := None;
  }

  method Resolve(reg: Registry, format: SourceFormat, profile: Profile) returns (res: Resolution)
    ensures Outcome(reg, format, profile, res)
  {
    var targets := profile.nativeFormats;
    if |targets| == 0 {
      return NoFormats(profile.printerID);
    }
    var reasons: seq<Reason> := [];
    for i := 0 to |targets|
      invariant NoneServable(reg, format, targets[..i])
      invariant |reasons| == i
      invariant forall k :: 0 <= k < i ==> Explains(reg, targets[k], reasons[k])
    {
      var target := targets[i];
      assert targets[..i + 1] == targets[..i] + [target];
      var driver := DriverFor(reg, target);
      if driver.None? {
        reasons := reasons + [NoDriver(target)];
        continue;
      }
      if SourceIsDevice(format, target) {
        res := Resolved(Pipeline(Passthrough(target), driver.value));
        assert ChosenAt(reg, format, targets, i, res.pipeline);
        return;
      }
      var conversion, encoderFound := FindChain(reg, format, target);
      if conversion.Some? {
        res := Resolved(Pipeline(conversion.value, driver.value));
        assert Best(reg, format, target, res.pipeline);
        assert ChosenAt(reg, format, targets, i, res.pipeline);
        return;
      }
      reasons := reasons + [if encoderFound then NoRenderer(target) else NoEncoder(target)];
    }
    assert targets[..|targets|] == targets;
    res := Unprintable(format, profile.printerID, reasons);
  }

  // ----- vector mode without a pdf driver is image mode -----

  lemma ChosenOrder(reg: Registry, format: SourceFormat, targets: seq<DeviceFormat>, i: int, p: Pipeline, j: int,
                    q: Pipeline)
    requires ChosenAt(reg, format, targets, i, p) && ChosenAt(reg, format, targets, j, q)
    ensures i <= j
  {
    hide Best, Servable;
    assert forall k, m :: 0 <= k < m < |targets| ==> targets[k] in targets[..m];
  }

  // The outcome is fixed by the registries, the source and the formats: one pipeline at most.
  lemma OnePipeline(reg: Registry, format: SourceFormat, targets: seq<DeviceFormat>, p: Pipeline, q: Pipeline)
    requires Chosen(reg, format, targets, p) && Chosen(reg, format, targets, q)
    ensures p == q
  {
    hide Best, Servable, NoneServable;
    var i :| ChosenAt(reg, format, targets, i, p);
    var j :| ChosenAt(reg, format, targets, j, q);
    ChosenOrder(reg, format, targets, i, p, j, q);
    ChosenOrder(reg, format, targets, j, q, i, p);
    OneBest(reg, format, targets[i], p, q);
  }

  lemma OneBest(reg: Registry, format: SourceFormat, target: DeviceFormat, p: Pipeline, q: Pipeline)
    requires Best(reg, format, target, p) && Best(reg, format, target, q)
    ensures p == q
  {
    var d :| FirstDriver(reg, target, d) && p.driver == reg.drivers[d];
    var d' :| FirstDriver(reg, target, d') && q.driver == reg.drivers[d'];
    assert d == d';
    if !SourceIsDevice(format, target) {
      var e, r :| FirstChain(reg, format, target, e, r) && p.conversion == Convert(reg.renderers[r], reg.encoders[e]);
      var e', r' :| FirstChain(reg, format, target, e', r')
        && q.conversion == Convert(reg.renderers[r'], reg.encoders[e']);
      assert Chain(reg, format, target, e, r) && Chain(reg, format, target, e', r');
    }
  }

  // One format more at the end of the list.
  lemma ChosenSnoc(reg: Registry, format: SourceFormat, targets: seq<DeviceFormat>, last: DeviceFormat, p: Pipeline)
    ensures NoneServable(reg, format, targets + [last])
        <==> NoneServable(reg, format, targets) && !Servable(reg, format, last)
    ensures Chosen(reg, format, targets + [last], p) <==>
            || Chosen(reg, format, targets, p)
            || (NoneServable(reg, format, targets) && Servable(reg, format, last) && Best(reg, format, last, p))
  {
    hide Best, Servable;
    var all, n := targets + [last], |targets|;
    assert targets[..n] == targets == all[..n] && all[n] == last;
    forall i | 0 <= i < n ensures ChosenAt(reg, format, all, i, p) <==> ChosenAt(reg, format, targets, i, p) {
      assert all[..i] == targets[..i];
    }
    assert ChosenAt(reg, format, all, n, p) <==>
           NoneServable(reg, format, targets) && Servable(reg, format, last) && Best(reg, format, last, p);
    if Chosen(reg, format, all, p) {
      var i :| ChosenAt(reg, format, all, i, p);
      assert i < n ==> ChosenAt(reg, format, targets, i, p);
    }
    if Chosen(reg, format, targets, p) {
      var i :| ChosenAt(reg, format, targets, i, p);
      assert ChosenAt(reg, format, all, i, p);
    }
  }

  lemma {:induction false} PdfMakesNoDifference(reg: Registry, format: SourceFormat, targets: seq<DeviceFormat>,
                                                p: Pipeline)
    requires !Servable(reg, format, DEVICE_PDF)
    ensures NoneServable(reg, format, WithPdf(targets)) <==> NoneServable(reg, format, targets)
    ensures Chosen(reg, format, WithPdf(targets), p) <==> Chosen(reg, format, targets, p)
  {
    hide Best, Servable, Chosen, NoneServable;
    if targets != [] {
      var before, f := targets[..|targets| - 1], targets[|targets| - 1];
      PdfMakesNoDifference(reg, format, before, p);
      assert targets == before + [f];
      ChosenSnoc(reg, format, before, f, p);
      ChosenSnoc(reg, format, WithPdf(before), f, p);
      if f == DEVICE_GDI {
        ChosenSnoc(reg, format, WithPdf(before), DEVICE_PDF, p);
        ChosenSnoc(reg, format, WithPdf(before) + [DEVICE_PDF], f, p);
        assert WithPdf(before) + [DEVICE_PDF, f] == WithPdf(before) + [DEVICE_PDF] + [f];
      }
    }
  }

  // Without a driver for pdf, both modes resolve every source on every profile to the same
  // pipeline, and fail together.
  lemma VectorIsImage(reg: Registry, format: SourceFormat, profile: Profile, vector: Resolution, image: Resolution)
    requires forall d :: 0 <= d < |reg.drivers| ==> !reg.drivers[d].accepts(DEVICE_PDF)
    requires Outcome(reg, format, Normalized(profile, Vector), vector)
    requires Outcome(reg, format, Normalized(profile, Image), image)
    ensures vector.Resolved? <==> image.Resolved?
    ensures vector.Resolved? ==> vector == image
    ensures vector.NoFormats? <==> image.NoFormats?
  {
    hide Best, Servable, Normalized, ImageProfile, WithPdf, Chosen, NoneServable;
    var v, i := Normalized(profile, Vector).nativeFormats, Normalized(profile, Image).nativeFormats;
    SameLists(profile);
    NotServed(reg, format);
    if vector.Resolved? {
      PdfMakesNoDifference(reg, format, i, vector.pipeline);
      ChosenServes(reg, format, v, vector.pipeline);
    }
    if image.Resolved? {
      PdfMakesNoDifference(reg, format, i, image.pipeline);
      ChosenServes(reg, format, i, image.pipeline);
    }
    if vector.Resolved? && image.Resolved? {
      OnePipeline(reg, format, i, vector.pipeline, image.pipeline);
    }
  }

  lemma SameLists(profile: Profile)
    ensures Normalized(profile, Vector).nativeFormats == WithPdf(Normalized(profile, Image).nativeFormats)
    ensures Normalized(profile, Vector).nativeFormats == [] <==> Normalized(profile, Image).nativeFormats == []
  {
  }

  lemma NotServed(reg: Registry, format: SourceFormat)
    requires forall d :: 0 <= d < |reg.drivers| ==> !reg.drivers[d].accepts(DEVICE_PDF)
    ensures !Servable(reg, format, DEVICE_PDF)
  {
  }

  lemma ChosenServes(reg: Registry, format: SourceFormat, targets: seq<DeviceFormat>, p: Pipeline)
    requires Chosen(reg, format, targets, p)
    ensures targets != [] && !NoneServable(reg, format, targets)
  {
    hide Best, Servable;
    var i :| ChosenAt(reg, format, targets, i, p);
    assert targets[i] in targets;
  }

  // With a driver for pdf, a pdf of a printer whose only format is pdf goes through untouched in
  // the vector mode, to the first such driver.
  lemma VectorPrintsPdf(reg: Registry, profile: Profile, res: Resolution)
    requires profile.nativeFormats == [DEVICE_PDF]
    requires Reachable(reg, DEVICE_PDF)
    requires Outcome(reg, "application/pdf", Normalized(profile, Vector), res)
    ensures res.Resolved? && res.pipeline.conversion == Passthrough(DEVICE_PDF)
    ensures exists d :: FirstDriver(reg, DEVICE_PDF, d) && res.pipeline.driver == reg.drivers[d]
  {
    hide Best, Servable, Normalized;
    var targets := Normalized(profile, Vector).nativeFormats;
    PdfTargets(profile);
    PdfServed(reg);
    assert targets[0] in targets;
    var p := res.pipeline;
    assert forall m :: 0 < m <= |targets| ==> targets[0] in targets[..m];
    var i :| ChosenAt(reg, "application/pdf", targets, i, p);
    PdfBest(reg, p);
  }

  lemma PdfTargets(profile: Profile)
    requires profile.nativeFormats == [DEVICE_PDF]
    ensures Normalized(profile, Vector).nativeFormats == [DEVICE_PDF, DEVICE_GDI]
  {
    FirstsSnoc([], DEVICE_PDF);
    assert Firsts([]) == [] && [] + [DEVICE_PDF] == [DEVICE_PDF];
    assert WithPdf([DEVICE_GDI]) == [DEVICE_PDF, DEVICE_GDI];
  }

  lemma PdfServed(reg: Registry)
    requires Reachable(reg, DEVICE_PDF)
    ensures Servable(reg, "application/pdf", DEVICE_PDF)
  {
  }

  lemma PdfBest(reg: Registry, p: Pipeline)
    requires Best(reg, "application/pdf", DEVICE_PDF, p)
    ensures p.conversion == Passthrough(DEVICE_PDF)
    ensures exists d :: FirstDriver(reg, DEVICE_PDF, d) && p.driver == reg.drivers[d]
  {
  }

  // The sources that are a device format of their own.
  ghost predicate Native(source: SourceFormat, device: DeviceFormat) {
    || (source == "application/pdf" && device == "pdf")
    || (source == "image/png" && device == "png")
    || (source == "application/vnd.escpos" && device == "escpos")
    || (source == "application/vnd.zpl" && device == "zpl")
  }

  // A pipeline passes the source through exactly if the source is the device format that was
  // chosen, and the driver takes that format.
  lemma PassesThroughIff(reg: Registry, source: SourceFormat, profile: Profile, res: Resolution)
    requires Outcome(reg, source, profile, res) && res.Resolved?
    ensures exists target ::
        && target in profile.nativeFormats && res.pipeline.driver.accepts(target)
        && (res.pipeline.conversion.Passthrough? <==> Native(source, target))
        && match res.pipeline.conversion
           case Passthrough(f) => f == target
           case Convert(r, e) => r.canRender(source) && r.produces == e.accepts && e.produces == target
  {
    hide Servable, NoneServable;
    var p, targets := res.pipeline, profile.nativeFormats;
    var i :| ChosenAt(reg, source, targets, i, p);
    assert targets[i] in targets;
    BestPasses(reg, source, targets[i], p);
  }

  lemma BestPasses(reg: Registry, source: SourceFormat, target: DeviceFormat, p: Pipeline)
    requires Best(reg, source, target, p)
    ensures p.driver.accepts(target) && (p.conversion.Passthrough? <==> Native(source, target))
    ensures match p.conversion
            case Passthrough(f) => f == target
            case Convert(r, e) => r.canRender(source) && r.produces == e.accepts && e.produces == target
  {
  }

  // Encoders are tried in the order they were registered, and for each the renderers: one more
  // encoder at the end never changes a chain that was found.
  lemma LaterEncoder(reg: Registry, last: Encoder, format: SourceFormat, target: DeviceFormat, e: int, r: int)
    requires FirstChain(reg, format, target, e, r)
    ensures FirstChain(reg.(encoders := reg.encoders + [last]), format, target, e, r)
  {
    var more := reg.(encoders := reg.encoders + [last]);
    forall e', r' | Chain(more, format, target, e', r') ensures e < e' || (e == e' && r <= r') {
      if e' < |reg.encoders| {
        assert Chain(reg, format, target, e', r');
      }
    }
  }
}
