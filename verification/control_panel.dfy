/** The floating control panel: the slider table, the readout precision rule,
    the pause and export buttons, and the panel's own UI state (position,
    drag gesture, collapse, open sections), which never touches the record. */
module ControlPanel {
  import opened Uniforms
  import opened Geometry

  /** The collapsible groups of sliders, in display order. */
  datatype Section = Clouds | Iridescence | LightSource | Output

  /** `<Section defaultOpen>`: only "Output" starts closed. */
  const InitiallyOpen: set<Section> := {Clouds, Iridescence, LightSource}

  /** One `<SliderControl>`: caption, the parameter it edits, its range and step,
      and the section it sits in. */
  datatype Slider = Slider(caption: string, param: Param, min: real, max: real, step: real, section: Section)

  /** The sliders in the order the panel renders them. */
  const Sliders: seq<Slider> := [
    Slider("Scale", NoiseScale, 0.5, 8.0, 0.1, Clouds),
    Slider("Density", CloudDensity, 0.0, 1.0, 0.01, Clouds),
    Slider("Softness", CloudSoftness, 0.01, 1.0, 0.01, Clouds),
    Slider("Drift speed", DriftSpeed, 0.0, 0.5, 0.005, Clouds),
    Slider("Layer depth", LayerSeparation, 0.0, 2.0, 0.05, Clouds),
    Slider("Hue offset", HueOffset, 0.0, 1.0, 0.01, Iridescence),
    Slider("Hue range", HueRange, 0.0, 2.0, 0.01, Iridescence),
    Slider("Saturation", Saturation, 0.0, 1.0, 0.01, Iridescence),
    Slider("Brightness", Brightness, 0.1, 1.0, 0.01, Iridescence),
    Slider("Fresnel power", FresnelPower, 0.1, 5.0, 0.1, Iridescence),
    Slider("Fresnel intensity", FresnelIntensity, 0.0, 3.0, 0.05, Iridescence),
    Slider("Light X", LightX, 0.0, 1.0, 0.01, LightSource),
    Slider("Light Y", LightY, 0.0, 1.0, 0.01, LightSource),
    Slider("Warm shift", WarmShift, -2.0, 4.0, 0.05, LightSource),
    Slider("Cool shift", CoolShift, -2.0, 4.0, 0.05, LightSource),
    Slider("Mouse follow", MouseInfluence, 0.0, 1.0, 0.01, LightSource),
    Slider("Desaturation", Desaturation, 0.0, 1.0, 0.01, Output),
    Slider("Dark overlay", DarkOverlay, 0.0, 0.8, 0.01, Output),
    Slider("Render quality", PixelRatio, 0.25, 2.0, 0.25, Output)]

  /** The table has one slider per numeric parameter, in the record's order:
      the slider at index `i` edits a parameter exactly when `i` is that
      parameter's position, so no parameter is missing and none appears twice. */
  lemma SlidersCoverEachParamOnce()
    ensures |Sliders| == 19
    ensures forall p: Param, i :: 0 <= i < |Sliders| ==> (Sliders[i].param == p <==> i == Ordinal(p))
  {
    forall p: Param, i | 0 <= i < |Sliders| ensures Sliders[i].param == p <==> i == Ordinal(p) {
      assert Ordinal(Sliders[i].param) == i;
    }
  }

  /** A slider has a proper range, a positive step, and a range that contains
      the default value of its parameter. */
  predicate AdmitsDefault(s: Slider)
  {
    && s.min < s.max
    && s.step > 0.0
    && s.min <= ParamValue(Defaults, s.param) <= s.max
  }

  /** Every slider of the table admits its parameter's default. */
  lemma SlidersAdmitTheirDefaults()
    ensures forall i :: 0 <= i < |Sliders| ==> AdmitsDefault(Sliders[i])
  {
  }

  /** `v` is a whole number of steps above the slider's minimum, so dragging
      the slider can land on it. */
  predicate OnGrid(s: Slider, v: real)
    requires s.step > 0.0
  {
    var n := (v - s.min) / s.step;
    n.Floor as real == n
  }

  /** The defaults of the "Clouds" sliders are slider positions. */
  lemma CloudDefaultsOnGrid()
    ensures forall i :: 0 <= i < 5 ==>
              Sliders[i].step > 0.0 && OnGrid(Sliders[i], ParamValue(Defaults, Sliders[i].param))
  {
  }

  /** The defaults of the "Iridescence" sliders are slider positions. */
  lemma IridescenceDefaultsOnGrid()
    ensures forall i :: 5 <= i < 11 ==>
              Sliders[i].step > 0.0 && OnGrid(Sliders[i], ParamValue(Defaults, Sliders[i].param))
  {
  }

  /** The defaults of the "Light source" sliders are slider positions. */
  lemma LightDefaultsOnGrid()
    ensures forall i :: 11 <= i < 16 ==>
              Sliders[i].step > 0.0 && OnGrid(Sliders[i], ParamValue(Defaults, Sliders[i].param))
  {
    assert (0.9 - -2.0) / 0.05 == 58.0 && (2.5 - -2.0) / 0.05 == 90.0;
  }

  /** The defaults of the "Output" sliders are slider positions. */
  lemma OutputDefaultsOnGrid()
    ensures forall i :: 16 <= i < |Sliders| ==>
              Sliders[i].step > 0.0 && OnGrid(Sliders[i], ParamValue(Defaults, Sliders[i].param))
  {
  }

  /** Every default is a position its slider can be dragged to. */
  lemma DefaultsOnGrid()
    ensures forall i :: 0 <= i < |Sliders| ==>
              Sliders[i].step > 0.0 && OnGrid(Sliders[i], ParamValue(Defaults, Sliders[i].param))
  {
    CloudDefaultsOnGrid();
    IridescenceDefaultsOnGrid();
    LightDefaultsOnGrid();
    OutputDefaultsOnGrid();
  }

  /** `value.toFixed(step < 0.1 ? 2 : 1)`: decimal places of the readout. */
  function DecimalPlaces(step: real): (places: nat)
    ensures places == 1 || places == 2
    ensures places == 2 <==> step < 0.1
  {
    if step < 0.1 then 2 else 1
  }

  function Pow10(n: nat): (r: real)
    ensures r >= 1.0
  {
    if n == 0 then 1.0 else 10.0 * Pow10(n - 1)
  }

  /** The smallest difference a readout with `places` decimals can show. */
  function DisplayUnit(places: nat): real
  {
    1.0 / Pow10(places)
  }

  /** The rule on the steps the table uses: 0.01, 0.005 and 0.05 read out with
      two decimals, 0.1 and 0.25 with one. A finer step never gets fewer
      decimals than a coarser one. */
  lemma DecimalPlacesOfTableSteps(fine: real, coarse: real)
    ensures DecimalPlaces(0.01) == 2 && DecimalPlaces(0.005) == 2 && DecimalPlaces(0.05) == 2
    ensures DecimalPlaces(0.1) == 1 && DecimalPlaces(0.25) == 1
    ensures fine <= coarse ==> DecimalPlaces(fine) >= DecimalPlaces(coarse)
  {
  }

  /** Neighbouring slider positions read out differently when the step is at
      least one display unit. That holds for every slider except "Drift
      speed", whose 0.005 step is half of its 0.01 readout unit. */
  lemma ReadoutResolvesStepExceptDrift()
    ensures forall i :: 0 <= i < |Sliders| ==>
              (Sliders[i].step >= DisplayUnit(DecimalPlaces(Sliders[i].step))
               <==> Sliders[i].param != DriftSpeed)
  {
    assert Pow10(1) == 10.0 && Pow10(2) == 100.0;
  }

  /** The section a parameter's slider sits in. */
  function SectionOf(p: Param): Section
  {
    Sliders[Ordinal(p)].section
  }

  /** A parameter's slider is on screen: the panel is expanded and the
      slider's section is open. */
  predicate SliderShown(s: Panel, p: Param)
  {
    !s.collapsed && SectionOf(p) in s.open
  }

  /** On first render every slider is on screen except the three in the
      "Output" section, which starts closed. */
  lemma InitiallyShownSliders(p: Param)
    ensures SliderShown(InitialPanel, p) <==> !(p == Desaturation || p == DarkOverlay || p == PixelRatio)
  {
    match p
    case NoiseScale => case CloudDensity => case CloudSoftness => case DriftSpeed => case LayerSeparation =>
    case HueOffset => case HueRange => case Saturation => case Brightness => case FresnelPower =>
    case FresnelIntensity => case LightX => case LightY => case WarmShift => case CoolShift =>
    case MouseInfluence => case Desaturation => case DarkOverlay => case PixelRatio =>
  }

  /** The pause button: `onUpdate("paused", !uniforms.paused)`. */
  function TogglePause(u: ShaderUniforms): (e: Edit)
    ensures e.EditedKey() == Paused && e.NewValue() == Flag(!u.paused)
  {
    SetPaused(!u.paused)
  }

  /** Pressing pause flips `paused` and nothing else; pressing it twice gives
      back the record it started from. */
  lemma PauseTwiceRestores(u: ShaderUniforms)
    ensures UpdateUniform(u, TogglePause(u)).paused == !u.paused
    ensures var once := UpdateUniform(u, TogglePause(u));
            UpdateUniform(once, TogglePause(once)) == u
  {
    var once := UpdateUniform(u, TogglePause(u));
    var twice := UpdateUniform(once, TogglePause(once));
    assert Get(twice, Paused) == Get(u, Paused);
    Extensionality(twice, u);
  }

  /** A key/value pair of the exported configuration. */
  datatype Entry = Entry(key: Key, value: Value)

  /** `entries` is the export of `u`: the keys of the record in declaration
      order, each with its current value. */
  ghost predicate IsExportOf(entries: seq<Entry>, u: ShaderUniforms)
  {
    && |entries| == |AllKeys|
    && forall i :: 0 <= i < |entries| ==> entries[i] == Entry(AllKeys[i], Get(u, AllKeys[i]))
  }

  /** `exportConfig`: the spread copy `{ ...uniforms }` that is serialised and
      written to the clipboard, as its list of entries. */
  function ExportConfig(u: ShaderUniforms): (entries: seq<Entry>)
    ensures IsExportOf(entries, u)
  {
    seq(|AllKeys|, i requires 0 <= i < |AllKeys| => Entry(AllKeys[i], Get(u, AllKeys[i])))
  }

  /** The export names all twenty keys, `paused` and `pixelRatio` included,
      each exactly once and with its current value. */
  lemma ExportListsEveryKeyOnce(entries: seq<Entry>, u: ShaderUniforms)
    requires IsExportOf(entries, u)
    ensures |entries| == 20
    ensures forall k: Key :: KeyIndex(k) < |entries| && entries[KeyIndex(k)] == Entry(k, Get(u, k))
    ensures forall i, j :: 0 <= i < |entries| && 0 <= j < |entries| && i != j ==> entries[i].key != entries[j].key
  {
    AllKeysEnumerate();
    AllKeysDistinct();
  }

  /** Nothing is lost in the export: one list of entries is the export of at
      most one record. */
  lemma ExportDeterminesRecord(entries: seq<Entry>, a: ShaderUniforms, b: ShaderUniforms)
    requires IsExportOf(entries, a) && IsExportOf(entries, b)
    ensures a == b
  {
    forall k: Key ensures Get(a, k) == Get(b, k) {
      AllKeysEnumerate();
      var i := KeyIndex(k);
      assert entries[i].value == Get(a, k) == Get(b, k);
    }
    Extensionality(a, b);
  }

  /** The panel's own state. `open` holds the sections currently expanded;
      it only means something while the panel is not collapsed. */
  datatype Panel = Panel(collapsed: bool, position: Vec2, dragging: bool, dragOffset: Vec2, open: set<Section>)

  const InitialPanel: Panel := Panel(false, Vec2(16.0, 16.0), false, Vec2(0.0, 0.0), InitiallyOpen)

  /** Mouse-down on the title bar: start dragging, remembering where in the
      panel it was grabbed. */
  function MouseDown(s: Panel, client: Vec2): (r: Panel)
    ensures r.dragging
    ensures r.dragOffset.Plus(s.position) == client
    ensures r.position == s.position && r.collapsed == s.collapsed && r.open == s.open
  {
    s.(dragging := true, dragOffset := client.Minus(s.position))
  }

  /** Mouse-move over the panel: while dragging, the grab point follows the
      pointer; otherwise nothing happens. */
  function MouseMove(s: Panel, client: Vec2): (r: Panel)
    ensures !s.dragging ==> r == s
    ensures s.dragging ==> r.position.Plus(s.dragOffset) == client
    ensures r.dragging == s.dragging && r.dragOffset == s.dragOffset
    ensures r.collapsed == s.collapsed && r.open == s.open
  {
    if !s.dragging then s
    else s.(position := client.Minus(s.dragOffset))
  }

  /** Mouse-up, and equally mouse-leave: the drag ends where it is. */
  function MouseUp(s: Panel): (r: Panel)
    ensures !r.dragging
    ensures r.position == s.position && r.collapsed == s.collapsed && r.open == s.open
  {
    s.(dragging := false)
  }

  /** A sequence of mouse-moves over the panel. */
  function MoveThrough(s: Panel, path: seq<Vec2>): Panel
    decreases |path|
  {
    if |path| == 0 then s else MoveThrough(MouseMove(s, path[0]), path[1..])
  }

  /** Grabbing the panel and moving the pointer by some displacement moves the
      panel by exactly that displacement; moving back to the grab point puts
      it back where it was. */
  lemma DragTranslatesPanel(s: Panel, grab: Vec2, to: Vec2)
    ensures MouseMove(MouseDown(s, grab), to).position == s.position.Plus(to.Minus(grab))
    ensures MouseMove(MouseDown(s, grab), grab).position == s.position
  {
  }

  /** However the pointer wanders during a drag, the panel ends up where the
      last pointer position puts it. */
  lemma {:induction false} DragDependsOnlyOnLastPoint(s: Panel, path: seq<Vec2>)
    requires s.dragging && |path| > 0
    ensures MoveThrough(s, path).position == path[|path| - 1].Minus(s.dragOffset)
    ensures MoveThrough(s, path).dragging
    decreases |path|
  {
    if |path| > 1 {
      DragDependsOnlyOnLastPoint(MouseMove(s, path[0]), path[1..]);
    }
  }

  /** After release, pointer moves leave the panel entirely unchanged. */
  lemma {:induction false} ReleasedPanelStaysPut(s: Panel, path: seq<Vec2>)
    ensures MoveThrough(MouseUp(s), path) == MouseUp(s)
    decreases |path|
  {
    if |path| > 0 {
      ReleasedPanelStaysPut(s, path[1..]);
    }
  }

  /** The collapse button. Collapsing unmounts the sections; expanding mounts
      them afresh, each with its default open state. */
  function ToggleCollapse(s: Panel): (r: Panel)
    ensures r.collapsed == !s.collapsed
    ensures r.position == s.position && r.dragging == s.dragging && r.dragOffset == s.dragOffset
    ensures !r.collapsed ==> r.open == InitiallyOpen
  {
    if s.collapsed then s.(collapsed := false, open := InitiallyOpen)
    else s.(collapsed := true)
  }

  /** A section's header button flips that section alone; it is only on
      screen while the panel is expanded. */
  function ToggleSection(s: Panel, section: Section): (r: Panel)
    ensures s.collapsed ==> r == s
    ensures !s.collapsed ==> (section in r.open <==> section !in s.open)
    ensures forall other :: other != section ==> (other in r.open <==> other in s.open)
    ensures r.collapsed == s.collapsed && r.position == s.position && r.dragging == s.dragging
  {
    if s.collapsed then s
    else if section in s.open then s.(open := s.open - {section})
    else s.(open := s.open + {section})
  }

  /** Flipping the same section twice restores the panel. */
  lemma SectionToggleIsAnInvolution(s: Panel, section: Section)
    ensures ToggleSection(ToggleSection(s, section), section) == s
  {
  }

  /** Which sliders the two kinds of button put on screen: collapsing hides
      them all, expanding shows every one outside "Output", and a section's
      header shows or hides exactly the sliders of that section. */
  lemma SliderVisibilityUnderToggles(s: Panel, p: Param, section: Section)
    ensures !s.collapsed ==> !SliderShown(ToggleCollapse(s), p)
    ensures s.collapsed ==> (SliderShown(ToggleCollapse(s), p) <==> SectionOf(p) != Output)
    ensures SliderShown(ToggleSection(s, section), p)
            <==> if !s.collapsed && SectionOf(p) == section then !SliderShown(s, p) else SliderShown(s, p)
  {
  }

  /** Collapsing and expanding again restores everything but the sections,
      which come back in their initial state: "Output" closed, the rest open. */
  lemma CollapseRoundTripReopensDefaults(s: Panel)
    requires !s.collapsed
    ensures ToggleCollapse(ToggleCollapse(s)) == s.(open := InitiallyOpen)
    ensures Output !in ToggleCollapse(ToggleCollapse(s)).open
  {
  }
}
