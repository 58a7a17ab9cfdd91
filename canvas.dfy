/** The editor window's state and its canvas view: loading a project for
    editing, the view's transform and hexagon-background cache, the draw
    commands one paint issues, and the labels of the layer panel. */
module Canvas {
  import opened Common
  import opened Text
  import opened ProjectManifest
  import opened Viewport
  import opened HexTiling
  import Layers

  const DefaultCanvasWidth := 1920
  const DefaultCanvasHeight := 1080
  const BackgroundColour := "#1e1e1e"
  const DefaultLayerColour := "#ffffff"
  const SolidColour := "solid_color"

  // ---- loading a project

  /** `canvas.png` when the file exists: an image of the given size, or a
      file the pixmap cannot load (a null pixmap, which reports 0 x 0 and
      counts as false). */
  datatype ImageFile = Image(width: nat, height: nat) | Corrupt

  /** The canvas size the view takes: the image's when `canvas.png` exists;
      otherwise the manifest's resolution with 1920 and 1080 for absent
      fields, or 1920 x 1080 when the manifest cannot be read or parsed.
      `None`: the manifest does not decode or is JSON but not an object, and
      the constructor raises. */
  function CanvasSize(png: Option<ImageFile>, stored: ManifestFile): (size: Option<(int, int)>)
    ensures size.None? <==> png.None? && stored.RaisesUncaught()
    ensures png.None? && (stored.Missing? || stored.Unreadable?) ==> size == Some((DefaultCanvasWidth, DefaultCanvasHeight))
    ensures png.Some? && png.value.Image? ==> size == Some((png.value.width, png.value.height))
    ensures png == Some(Corrupt) ==> size == Some((0, 0))
  {
    match png
    case Some(Image(w, h)) => Some((w, h))
    case Some(Corrupt) => Some((0, 0))
    case None =>
      match stored
      case Missing => Some((DefaultCanvasWidth, DefaultCanvasHeight))
      case Unreadable => Some((DefaultCanvasWidth, DefaultCanvasHeight))
      case Undecodable => None
      case NotAnObject => None
      case Parsed(m) =>
        var res := m.resolution.GetOr(Resolution(None, None));
        Some((res.width.GetOr(DefaultCanvasWidth), res.height.GetOr(DefaultCanvasHeight)))
  }

  /** Without `canvas.png`, each dimension falls back on its own: a manifest
      resolution with only a width keeps that width and gets height 1080. */
  lemma CanvasSizeFieldDefaults(m: Manifest)
    ensures var size := CanvasSize(None, Parsed(m)).value;
      && (m.resolution.Some? && m.resolution.value.width.Some? ==> size.0 == m.resolution.value.width.value)
      && (m.resolution.None? || m.resolution.value.width.None? ==> size.0 == DefaultCanvasWidth)
      && (m.resolution.Some? && m.resolution.value.height.Some? ==> size.1 == m.resolution.value.height.value)
      && (m.resolution.None? || m.resolution.value.height.None? ==> size.1 == DefaultCanvasHeight)
  {
  }

  /** The editor's project name and layer list. */
  datatype EditorState = EditorState(projectName: string, layers: seq<Layer>)

  /** `CreatorWindow.__init__`'s manifest read: the manifest's `name` and
      `layers`, defaulting to the directory name and no layers, both also
      used when the manifest cannot be read or parsed. `None`: the manifest
      does not decode or is JSON but not an object, and the window raises. */
  function LoadEditor(dirName: string, stored: ManifestFile): (e: Option<EditorState>)
    ensures e.None? <==> stored.RaisesUncaught()
    ensures (stored.Missing? || stored.Unreadable?) ==> e == Some(EditorState(dirName, []))
    ensures stored.Parsed? && stored.manifest.name.None? ==> e.value.projectName == dirName
    ensures stored.Parsed? && stored.manifest.layers.None? ==> e.value.layers == []
  {
    match stored
    case Parsed(m) => Some(EditorState(m.name.GetOr(dirName), m.layers.GetOr([])))
    case Undecodable => None
    case NotAnObject => None
    case _ => Some(EditorState(dirName, []))
  }

  /** A new project opens in the editor with the name, the size and the empty
      layer list the library wrote. */
  lemma InitialManifestOpens(dirName: string, id: string, name: string, width: int, height: int)
    ensures LoadEditor(dirName, Parsed(InitialManifest(id, name, width, height))) == Some(EditorState(name, []))
    ensures CanvasSize(None, Parsed(InitialManifest(id, name, width, height))) == Some((width, height))
  {
  }

  // ---- the layer panel

  /** `layer.get("id", 0) != 0`: layers without an id, or with id 0, are not
      listed in the panel nor painted. */
  predicate HasNonZeroId(l: Layer) {
    l.id.GetOr(0) != 0
  }

  /** The layers the panel lists, in order. */
  function Shown(layers: seq<Layer>): seq<Layer> {
    if layers == [] then []
    else Shown(layers[..|layers| - 1]) + (if HasNonZeroId(layers[|layers| - 1]) then [layers[|layers| - 1]] else [])
  }

  /** The panel lists exactly the layers with a non-zero id. */
  lemma {:induction false} ShownExactly(layers: seq<Layer>, l: Layer)
    ensures l in Shown(layers) <==> l in layers && HasNonZeroId(l)
  {
    if layers != [] {
      var init, last := layers[..|layers| - 1], layers[|layers| - 1];
      ShownExactly(init, l);
      assert layers == init + [last];
    }
  }

  /** The panel keeps the layers' order: filtering a concatenation filters
      each part in turn. */
  lemma {:induction false} ShownAppend(a: seq<Layer>, b: seq<Layer>)
    ensures Shown(a + b) == Shown(a) + Shown(b)
    decreases |b|
  {
    if b != [] {
      var init, last := b[..|b| - 1], b[|b| - 1];
      assert (a + b)[..|a + b| - 1] == a + init;
      assert (a + b)[|a + b| - 1] == last;
      ShownAppend(a, init);
    } else {
      assert a + b == a;
    }
  }

  /** `layer.get("name", f"Layer {layer['id']}")`. */
  function PanelLabel(l: Layer): string
    requires HasNonZeroId(l)
  {
    l.name.GetOr("Layer " + IntToDecimal(l.id.value))
  }

  /** An unnamed layer's label is "Layer " followed by its id in decimal,
      with a minus sign before the digits of a negative id. */
  lemma UnnamedLabelShowsId(l: Layer)
    requires HasNonZeroId(l) && l.name.None?
    ensures |PanelLabel(l)| > 6 && PanelLabel(l)[..6] == "Layer "
    ensures l.id.value > 0 ==> AllDigits(PanelLabel(l)[6..]) && DecimalValue(PanelLabel(l)[6..]) == l.id.value
    ensures l.id.value < 0 ==>
      |PanelLabel(l)| > 7 && PanelLabel(l)[6] == '-' &&
      AllDigits(PanelLabel(l)[7..]) && DecimalValue(PanelLabel(l)[7..]) == -l.id.value
  {
    var shown := PanelLabel(l);
    var id := l.id.value;
    if id > 0 {
      assert shown[6..] == NatToDecimal(id);
      DecimalRoundTrip(id);
    } else {
      assert shown[6..] == "-" + NatToDecimal(-id);
      assert shown[7..] == NatToDecimal(-id);
      DecimalRoundTrip(-id);
    }
  }

  /** The loop that fills the layer panel: one label per listed layer, in
      order. */
  method LayerPanelLabels(layers: seq<Layer>) returns (labels: seq<string>)
    ensures |labels| == |Shown(layers)|
    ensures forall k :: 0 <= k < |labels| ==> HasNonZeroId(Shown(layers)[k]) && labels[k] == PanelLabel(Shown(layers)[k])
  {
    labels := [];
    var i := 0;
    while i < |layers|
      invariant 0 <= i <= |layers|
      invariant |labels| == |Shown(layers[..i])|
      invariant forall k :: 0 <= k < |labels| ==> HasNonZeroId(Shown(layers[..i])[k]) && labels[k] == PanelLabel(Shown(layers[..i])[k])
    {
      assert layers[..i + 1][..i] == layers[..i];
      if layers[i].id.GetOr(0) != 0 {
        labels := labels + [PanelLabel(layers[i])];
      }
      i := i + 1;
    }
    assert layers[..i] == layers;
  }

  // ---- what a paint draws

  datatype Rect = Rect(x: real, y: real, width: real, height: real)

  datatype DrawCmd =
    | FillBackground(colour: string)
    | DrawHexCache(target: Rect)
    | DrawCanvasImage(target: Rect)
    | FillLayer(area: Rect, colour: string)

  /** Where the canvas sits in the widget. */
  function CanvasRect(t: Transform, canvasW: int, canvasH: int): Rect {
    Rect(t.offsetX, t.offsetY, canvasW as real * t.scale, canvasH as real * t.scale)
  }

  /** A layer the paint loop fills: a non-zero id and type `solid_color`. */
  predicate Drawable(l: Layer) {
    HasNonZeroId(l) && l.kind == Some(SolidColour)
  }

  /** The fill for a drawable layer: its position and size in canvas pixels,
      mapped through the transform; absent, they are the origin and the whole
      canvas, and the colour is white. */
  function LayerFill(l: Layer, t: Transform, canvasW: int, canvasH: int): DrawCmd {
    var pos := l.position.GetOr(Point(0, 0));
    var size := l.size.GetOr(Extent(canvasW, canvasH));
    FillLayer(
      Rect(t.offsetX + pos.x as real * t.scale, t.offsetY + pos.y as real * t.scale,
           size.width as real * t.scale, size.height as real * t.scale),
      l.color.GetOr(DefaultLayerColour))
  }

  /** The layer fills of one paint, in list order. */
  function LayerDraws(layers: seq<Layer>, t: Transform, canvasW: int, canvasH: int): seq<DrawCmd> {
    if layers == [] then []
    else
      var last := layers[|layers| - 1];
      LayerDraws(layers[..|layers| - 1], t, canvasW, canvasH)
        + (if Drawable(last) then [LayerFill(last, t, canvasW, canvasH)] else [])
  }

  /** A layer that is not drawn (no id, id 0, or any type but `solid_color`)
      adds nothing wherever it stands in the list. */
  lemma {:induction false} UndrawnAddsNothing(before: seq<Layer>, l: Layer, after: seq<Layer>, t: Transform, canvasW: int, canvasH: int)
    requires !Drawable(l)
    ensures LayerDraws(before + [l] + after, t, canvasW, canvasH) == LayerDraws(before + after, t, canvasW, canvasH)
    decreases |after|
  {
    if after == [] {
      assert (before + [l] + after)[..|before| + 1 - 1] == before;
      assert before + after == before;
    } else {
      var init, last := after[..|after| - 1], after[|after| - 1];
      UndrawnAddsNothing(before, l, init, t, canvasW, canvasH);
      assert (before + [l] + after)[..|before + [l] + after| - 1] == before + [l] + init;
      assert (before + after)[..|before + after| - 1] == before + init;
    }
  }

  /** A drawable layer with neither position nor size covers exactly the
      canvas. */
  lemma DefaultLayerCoversCanvas(l: Layer, t: Transform, canvasW: int, canvasH: int)
    requires Drawable(l) && l.position.None? && l.size.None?
    ensures LayerFill(l, t, canvasW, canvasH) == FillLayer(CanvasRect(t, canvasW, canvasH), l.color.GetOr(DefaultLayerColour))
  {
  }

  /** `y` is `x` with at most `visible` changed. */
  predicate SameButVisible(x: Layer, y: Layer) {
    y == x.(visible := y.visible)
  }

  /** Painting never reads `visible`: lists that differ only in it draw the
      same. */
  lemma {:induction false} DrawsIgnoreVisibility(a: seq<Layer>, b: seq<Layer>, t: Transform, canvasW: int, canvasH: int)
    requires |a| == |b| && forall j :: 0 <= j < |a| ==> SameButVisible(a[j], b[j])
    ensures LayerDraws(a, t, canvasW, canvasH) == LayerDraws(b, t, canvasW, canvasH)
  {
    if a != [] {
      var n := |a| - 1;
      forall j | 0 <= j < n ensures SameButVisible(a[..n][j], b[..n][j]) {
        assert a[..n][j] == a[j] && b[..n][j] == b[j];
      }
      DrawsIgnoreVisibility(a[..n], b[..n], t, canvasW, canvasH);
      assert SameButVisible(a[n], b[n]);
      FillIgnoresVisibility(a[n], b[n], t, canvasW, canvasH);
    }
  }

  lemma FillIgnoresVisibility(x: Layer, y: Layer, t: Transform, canvasW: int, canvasH: int)
    requires SameButVisible(x, y)
    ensures Drawable(y) == Drawable(x)
    ensures LayerFill(y, t, canvasW, canvasH) == LayerFill(x, t, canvasW, canvasH)
  {
    assert y.id == x.id && y.kind == x.kind && y.position == x.position && y.size == x.size && y.color == x.color;
  }

  /** So the visibility toggle never changes what is painted. */
  lemma ToggleKeepsPaint(layers: seq<Layer>, layerId: int, visible: bool, t: Transform, canvasW: int, canvasH: int)
    ensures LayerDraws(Layers.SetVisibility(layers, layerId, visible), t, canvasW, canvasH)
         == LayerDraws(layers, t, canvasW, canvasH)
  {
    Layers.OtherFieldsKept(layers, layerId, visible);
    var toggled := Layers.SetVisibility(layers, layerId, visible);
    assert forall j :: 0 <= j < |layers| ==> SameButVisible(layers[j], toggled[j]);
    DrawsIgnoreVisibility(layers, Layers.SetVisibility(layers, layerId, visible), t, canvasW, canvasH);
  }

  /** The paint loop over the layers: one fill per drawable layer, in list
      order. */
  method DrawLayers(layers: seq<Layer>, t: Transform, canvasW: int, canvasH: int) returns (fills: seq<DrawCmd>)
    ensures fills == LayerDraws(layers, t, canvasW, canvasH)
  {
    fills := [];
    var i := 0;
    while i < |layers|
      invariant 0 <= i <= |layers|
      invariant fills == LayerDraws(layers[..i], t, canvasW, canvasH)
    {
      assert layers[..i + 1][..i] == layers[..i];
      var layer := layers[i];
      if layer.id.GetOr(0) != 0 && layer.kind.GetOr("") == SolidColour {
        fills := fills + [LayerFill(layer, t, canvasW, canvasH)];
      }
      i := i + 1;
    }
    assert layers[..i] == layers;
  }

  /** Python's `int()` of a float: truncation toward zero. */
  function Trunc(r: real): (i: int)
    ensures r >= 0.0 ==> i as real <= r < i as real + 1.0
    ensures r < 0.0 ==> i as real - 1.0 < r <= i as real
  {
    if r >= 0.0 then r.Floor else -((-r).Floor)
  }

  // ---- the view

  class CanvasView {
    var layers: seq<Layer>
    var scale: real
    var offsetX: real
    var offsetY: real
    var canvasW: int
    var canvasH: int
    /** A non-null canvas pixmap was loaded from `canvas.png`. */
    var hasPixmap: bool
    var hexCache: Option<seq<HexCell>>
    var hexCacheSize: Option<(int, int)>
    /** How many times the hexagon cache has been built. */
    ghost var builds: nat

    /** The cache and its recorded size are set together, and the cached
        hexagons are the tiling of the recorded size. */
    ghost predicate Valid()
      reads this
    {
      && (hexCache.Some? <==> hexCacheSize.Some?)
      && (hexCacheSize.Some? ==>
            var (w, h) := hexCacheSize.value;
            w > 0 && h > 0 && hexCache.value == Tiling(w, h, HexWidth))
    }

    function CurrentTransform(): Transform
      reads this
    {
      Transform(scale, offsetX, offsetY)
    }

    /** `CanvasView.__init__`: identity scale, zero offsets, no cache, the
        canvas size of `CanvasSize`. */
    constructor(layers: seq<Layer>, png: Option<ImageFile>, stored: ManifestFile)
      requires CanvasSize(png, stored).Some?
      ensures this.layers == layers
      ensures CurrentTransform() == InitialTransform
      ensures (canvasW, canvasH) == CanvasSize(png, stored).value
      ensures hasPixmap == (png.Some? && png.value.Image?)
      ensures hexCache.None? && hexCacheSize.None? && builds == 0
      ensures Valid()
    {
      this.layers := layers;
      scale := 1.0;
      offsetX := 0.0;
      offsetY := 0.0;
      var size := CanvasSize(png, stored).value;
      canvasW := size.0;
      canvasH := size.1;
      hasPixmap := png.Some? && png.value.Image?;
      hexCache := None;
      hexCacheSize := None;
      builds := 0;
    }

    /** `_update_transform` for a widget `width` x `height`: the fit
        transform, or the old one when `FitTransform` assigns nothing. */
    method UpdateTransform(width: int, height: int)
      requires Valid()
      modifies this
      ensures CurrentTransform() == FitTransform(width, height, canvasW, canvasH).GetOr(old(CurrentTransform()))
      ensures layers == old(layers) && canvasW == old(canvasW) && canvasH == old(canvasH) && hasPixmap == old(hasPixmap)
      ensures hexCache == old(hexCache) && hexCacheSize == old(hexCacheSize) && builds == old(builds)
      ensures Valid()
    {
      var availW := width - Padding * 2;
      var availH := height - Padding * 2;
      if availW <= 0 || availH <= 0 {
        return;
      }
      if canvasW == 0 || canvasH == 0 {
        return;             // ZeroDivisionError
      }
      var scaleX := availW as real / canvasW as real;
      var scaleY := availH as real / canvasH as real;
      scale := Min(scaleX, scaleY);
      var scaledW := canvasW as real * scale;
      var scaledH := canvasH as real * scale;
      offsetX := (width as real - scaledW) / 2.0;
      offsetY := (height as real - scaledH) / 2.0;
    }

    /** `_build_hex_cache`: the nested row and column loops paint the tiling
        of a `w` x `h` pixmap, which becomes the cache with its size. */
    method BuildHexCache(w: int, h: int)
      requires w > 0 && h > 0
      modifies this
      ensures hexCache == Some(Tiling(w, h, HexWidth)) && hexCacheSize == Some((w, h))
      ensures builds == old(builds) + 1
      ensures layers == old(layers) && CurrentTransform() == old(CurrentTransform())
      ensures canvasW == old(canvasW) && canvasH == old(canvasH) && hasPixmap == old(hasPixmap)
      ensures Valid()
    {
      var rows := RowCount(h);
      var cols := ColCount(w, HexWidth);
      var cells: seq<HexCell> := [];
      var row := -1;
      while row < rows
        invariant -1 <= row <= rows
        invariant cells == Rows(-1, row, cols, HexWidth)
      {
        ghost var done := cells;
        var col := -1;
        while col < cols
          invariant -1 <= col <= cols
          invariant cells == done + RowCells(row, cols, HexWidth)[..col + 1]
        {
          assert RowCells(row, cols, HexWidth)[..col + 2] == RowCells(row, cols, HexWidth)[..col + 1] + [Cell(row, col, HexWidth)];
          cells := cells + [Cell(row, col, HexWidth)];
          col := col + 1;
        }
        assert RowCells(row, cols, HexWidth)[..cols + 1] == RowCells(row, cols, HexWidth);
        row := row + 1;
      }
      hexCache := Some(cells);
      hexCacheSize := Some((w, h));
      builds := builds + 1;
    }

    /** `paintEvent`: the background, then the hexagon cache when the canvas
        covers at least one whole pixel each way (rebuilt first when there is
        none or its size differs), then the canvas image when loaded, then
        the layer fills in list order. */
    method Paint() returns (cmds: seq<DrawCmd>)
      requires Valid()
      modifies this
      ensures var t := CurrentTransform();
        var rect := CanvasRect(t, canvasW, canvasH);
        var cw, ch := Trunc(rect.width), Trunc(rect.height);
        cmds == [FillBackground(BackgroundColour)]
          + (if cw > 0 && ch > 0 then [DrawHexCache(rect)] else [])
          + (if hasPixmap then [DrawCanvasImage(rect)] else [])
          + LayerDraws(layers, t, canvasW, canvasH)
      ensures var rect := CanvasRect(CurrentTransform(), canvasW, canvasH);
        var size := (Trunc(rect.width), Trunc(rect.height));
        && (size.0 > 0 && size.1 > 0 ==> hexCacheSize == Some(size))
        && (size.0 > 0 && size.1 > 0 && old(hexCacheSize) != Some(size) ==> builds == old(builds) + 1)
        && (size.0 > 0 && size.1 > 0 && old(hexCacheSize) == Some(size) ==> builds == old(builds) && hexCache == old(hexCache))
        && (size.0 <= 0 || size.1 <= 0 ==> hexCache == old(hexCache) && hexCacheSize == old(hexCacheSize) && builds == old(builds))
      ensures layers == old(layers) && CurrentTransform() == old(CurrentTransform())
      ensures canvasW == old(canvasW) && canvasH == old(canvasH) && hasPixmap == old(hasPixmap)
      ensures Valid()
    {
      cmds := [FillBackground(BackgroundColour)];
      var rect := CanvasRect(CurrentTransform(), canvasW, canvasH);
      var cw := Trunc(rect.width);
      var ch := Trunc(rect.height);
      if cw > 0 && ch > 0 {
        if hexCache.None? || hexCacheSize != Some((cw, ch)) {
          BuildHexCache(cw, ch);
        }
        cmds := cmds + [DrawHexCache(rect)];
      }
      if hasPixmap {
        cmds := cmds + [DrawCanvasImage(rect)];
      }
      var fills := DrawLayers(layers, CurrentTransform(), canvasW, canvasH);
      cmds := cmds + fills;
    }
  }

  /** A second paint at the same size reuses the cache: one build for two
      paints of a 1920 x 1080 canvas in a 1000 x 580 widget. */
  method RepaintReusesCache() returns (first: seq<DrawCmd>, second: seq<DrawCmd>)
    ensures first == second
    ensures first == [FillBackground(BackgroundColour), DrawHexCache(Rect(20.0, 20.0, 960.0, 540.0))]
  {
    var view := new CanvasView([], None, Parsed(InitialManifest("140126093000-ABC", "Beach", 1920, 1080)));
    view.UpdateTransform(1000, 580);
    assert view.CurrentTransform() == Transform(0.5, 20.0, 20.0);
    first := view.Paint();
    assert view.builds == 1;
    second := view.Paint();
    assert view.builds == 1;
  }
}
