/** The render engine of the shader playground, reduced to its observable
    plumbing: which values end up in which shader uniform slot, and when.
    The WebGL renderer, scene, camera and geometry are foreign objects and
    appear only as whether a surface is mounted. */
module RenderEngine {
  import opened Uniforms
  import opened FrameClock
  import opened Geometry

  /** A positive window extent (`window.innerWidth` or `window.innerHeight`). */
  type Extent = r: real | r > 0.0 witness 1.0

  datatype Window = Window(width: Extent, height: Extent)

  /** The uniform slots of the shader material, in the order they are declared. */
  datatype Slot =
    | UResolution | UTime | UMouse
    | UNoiseScale | UCloudDensity | UCloudSoftness | UDriftSpeed | ULayerSeparation
    | UHueOffset | UHueRange | USaturation | UBrightness | UFresnelPower | UFresnelIntensity
    | ULightPosition | UWarmShift | UCoolShift | UMouseInfluence
    | UDesaturation | UDarkOverlay

  datatype UniformValue = Scalar(s: real) | Vector(v: Vec2)

  /** `material.uniforms`: slot name to current value. */
  type Material = map<Slot, UniformValue>

  const AllSlots: set<Slot> := {
    UResolution, UTime, UMouse,
    UNoiseScale, UCloudDensity, UCloudSoftness, UDriftSpeed, ULayerSeparation,
    UHueOffset, UHueRange, USaturation, UBrightness, UFresnelPower, UFresnelIntensity,
    ULightPosition, UWarmShift, UCoolShift, UMouseInfluence,
    UDesaturation, UDarkOverlay}

  /** `AllSlots` names every slot; knowing `s in AllSlots` lets the verifier
      split on which slot `s` is. */
  lemma AllSlotsComplete()
    ensures forall s: Slot :: s in AllSlots
  {
    forall s: Slot ensures s in AllSlots {
      match s
      case UResolution => case UTime => case UMouse =>
      case UNoiseScale => case UCloudDensity => case UCloudSoftness => case UDriftSpeed => case ULayerSeparation =>
      case UHueOffset => case UHueRange => case USaturation => case UBrightness => case UFresnelPower => case UFresnelIntensity =>
      case ULightPosition => case UWarmShift => case UCoolShift => case UMouseInfluence =>
      case UDesaturation => case UDarkOverlay =>
    }
  }

  /** Every slot has a value. */
  ghost predicate Complete(m: Material)
  {
    forall s: Slot :: s in m
  }

  /** Reference table: the record parameters whose values a slot carries.
      The engine-owned slots (resolution, time, pointer) carry none. */
  function Feeds(s: Slot): seq<Param>
  {
    match s
    case UResolution => []
    case UTime => []
    case UMouse => []
    case UNoiseScale => [NoiseScale]
    case UCloudDensity => [CloudDensity]
    case UCloudSoftness => [CloudSoftness]
    case UDriftSpeed => [DriftSpeed]
    case ULayerSeparation => [LayerSeparation]
    case UHueOffset => [HueOffset]
    case UHueRange => [HueRange]
    case USaturation => [Saturation]
    case UBrightness => [Brightness]
    case UFresnelPower => [FresnelPower]
    case UFresnelIntensity => [FresnelIntensity]
    case ULightPosition => [LightX, LightY]
    case UWarmShift => [WarmShift]
    case UCoolShift => [CoolShift]
    case UMouseInfluence => [MouseInfluence]
    case UDesaturation => [Desaturation]
    case UDarkOverlay => [DarkOverlay]
  }

  predicate IsParameterSlot(s: Slot)
  {
    |Feeds(s)| > 0
  }

  /** The value a parameter slot should hold for record `u`, read off the
      reference table: one parameter gives a scalar, two give a vector. */
  function FedValue(u: ShaderUniforms, s: Slot): UniformValue
    requires IsParameterSlot(s)
  {
    var ps := Feeds(s);
    if |ps| == 1 then Scalar(ParamValue(u, ps[0]))
    else Vector(Vec2(ParamValue(u, ps[0]), ParamValue(u, ps[1])))
  }

  /** The slot a parameter is copied into; `pixelRatio` has none. */
  function SlotOf(p: Param): Slot
    requires p != PixelRatio
  {
    match p
    case NoiseScale => UNoiseScale
    case CloudDensity => UCloudDensity
    case CloudSoftness => UCloudSoftness
    case DriftSpeed => UDriftSpeed
    case LayerSeparation => ULayerSeparation
    case HueOffset => UHueOffset
    case HueRange => UHueRange
    case Saturation => USaturation
    case Brightness => UBrightness
    case FresnelPower => UFresnelPower
    case FresnelIntensity => UFresnelIntensity
    case LightX => ULightPosition
    case LightY => ULightPosition
    case WarmShift => UWarmShift
    case CoolShift => UCoolShift
    case MouseInfluence => UMouseInfluence
    case Desaturation => UDesaturation
    case DarkOverlay => UDarkOverlay
  }

  /** Every parameter except `pixelRatio` feeds exactly one slot (the one
      `SlotOf` names), and `pixelRatio` feeds none; `paused` is not a
      parameter at all, so it never reaches a shader slot. Only the light
      position slot is fed by two parameters. */
  lemma FeedsPartitionParameters()
    ensures forall s: Slot, p: Param :: p in Feeds(s) <==> p != PixelRatio && SlotOf(p) == s
    ensures forall s: Slot :: |Feeds(s)| == 2 <==> s == ULightPosition
  {
    forall s: Slot, p: Param ensures p in Feeds(s) <==> p != PixelRatio && SlotOf(p) == s {
      match s
      case ULightPosition =>
      case _ =>
    }
  }

  /** The value the slot of parameter `p` should hold: the parameter itself,
      or for the two light coordinates the pair of them. */
  lemma SlotOfCarriesParameter(u: ShaderUniforms, p: Param)
    requires p != PixelRatio
    ensures IsParameterSlot(SlotOf(p))
    ensures p == LightX || p == LightY ==> FedValue(u, SlotOf(p)) == Vector(Vec2(u.lightX, u.lightY))
    ensures p != LightX && p != LightY ==> FedValue(u, SlotOf(p)) == Scalar(ParamValue(u, p))
  {
    match p
    case LightX => case LightY =>
    case _ =>
  }

  /** The resolution uniform for a window at a given pixel ratio. */
  function Resolution(win: Window, pixelRatio: real): (r: Vec2)
    ensures r.x * win.height == r.y * win.width
    ensures pixelRatio == 1.0 ==> r == Vec2(win.width, win.height)
    ensures pixelRatio > 0.0 ==> r.x > 0.0 && r.y > 0.0
  {
    Vec2(win.width * pixelRatio, win.height * pixelRatio)
  }

  /** `handleResize`: the resolution uniform becomes the window size scaled by
      the pixel ratio held in `pixelRatioRef`. No other slot changes. */
  function HandleResize(m: Material, win: Window, pixelRatioRef: real): (r: Material)
    ensures UResolution in r && r[UResolution] == Vector(Resolution(win, pixelRatioRef))
    ensures r.Keys == m.Keys + {UResolution}
    ensures forall s :: s in m && s != UResolution ==> r[s] == m[s]
  {
    m[UResolution := Vector(Resolution(win, pixelRatioRef))]
  }

  /** The uniform-sync effect: copies the record into the parameter slots,
      merging `lightX`/`lightY` into the light position, and, since the
      renderer exists whenever the material does, recomputes the resolution
      from the record's `pixelRatio`. The time and pointer slots are untouched. */
  function SyncUniforms(m: Material, u: ShaderUniforms, win: Window): (r: Material)
    ensures forall s :: IsParameterSlot(s) ==> s in r && r[s] == FedValue(u, s)
    ensures UResolution in r && r[UResolution] == Vector(Resolution(win, u.pixelRatio))
    ensures forall s :: !IsParameterSlot(s) && s != UResolution ==>
              (s in r <==> s in m) && (s in m ==> r[s] == m[s])
  {
    m[UNoiseScale := Scalar(u.noiseScale)]
     [UCloudDensity := Scalar(u.cloudDensity)]
     [UCloudSoftness := Scalar(u.cloudSoftness)]
     [UDriftSpeed := Scalar(u.driftSpeed)]
     [ULayerSeparation := Scalar(u.layerSeparation)]
     [UHueOffset := Scalar(u.hueOffset)]
     [UHueRange := Scalar(u.hueRange)]
     [USaturation := Scalar(u.saturation)]
     [UBrightness := Scalar(u.brightness)]
     [UFresnelPower := Scalar(u.fresnelPower)]
     [UFresnelIntensity := Scalar(u.fresnelIntensity)]
     [ULightPosition := Vector(Vec2(u.lightX, u.lightY))]
     [UWarmShift := Scalar(u.warmShift)]
     [UCoolShift := Scalar(u.coolShift)]
     [UMouseInfluence := Scalar(u.mouseInfluence)]
     [UDesaturation := Scalar(u.desaturation)]
     [UDarkOverlay := Scalar(u.darkOverlay)]
     [UResolution := Vector(Resolution(win, u.pixelRatio))]
  }

  /** The value each slot starts with when the mount effect builds the
      material: an empty resolution vector, time zero, the pointer at the
      centre, and every parameter slot at its default. */
  function InitialValue(s: Slot): UniformValue
  {
    match s
    case UResolution => Vector(Vec2(0.0, 0.0))
    case UTime => Scalar(0.0)
    case UMouse => Vector(Vec2(0.5, 0.5))
    case UNoiseScale => Scalar(Defaults.noiseScale)
    case UCloudDensity => Scalar(Defaults.cloudDensity)
    case UCloudSoftness => Scalar(Defaults.cloudSoftness)
    case UDriftSpeed => Scalar(Defaults.driftSpeed)
    case ULayerSeparation => Scalar(Defaults.layerSeparation)
    case UHueOffset => Scalar(Defaults.hueOffset)
    case UHueRange => Scalar(Defaults.hueRange)
    case USaturation => Scalar(Defaults.saturation)
    case UBrightness => Scalar(Defaults.brightness)
    case UFresnelPower => Scalar(Defaults.fresnelPower)
    case UFresnelIntensity => Scalar(Defaults.fresnelIntensity)
    case ULightPosition => Vector(Vec2(Defaults.lightX, Defaults.lightY))
    case UWarmShift => Scalar(Defaults.warmShift)
    case UCoolShift => Scalar(Defaults.coolShift)
    case UMouseInfluence => Scalar(Defaults.mouseInfluence)
    case UDesaturation => Scalar(Defaults.desaturation)
    case UDarkOverlay => Scalar(Defaults.darkOverlay)
  }

  /** The material as the mount effect constructs it. */
  function InitialMaterial(): Material
  {
    map s | s in AllSlots :: InitialValue(s)
  }

  /** The material the mount effect builds has every slot, and already holds
      what the sync effect would copy from the default record. */
  lemma InitialMaterialHoldsDefaults()
    ensures Complete(InitialMaterial())
    ensures forall s :: IsParameterSlot(s) ==> InitialMaterial()[s] == FedValue(Defaults, s)
  {
    AllSlotsComplete();
    forall s: Slot | IsParameterSlot(s) ensures InitialValue(s) == FedValue(Defaults, s) {
      match s
      case UResolution => case UTime => case UMouse =>
      case UNoiseScale => case UCloudDensity => case UCloudSoftness => case UDriftSpeed => case ULayerSeparation =>
      case UHueOffset => case UHueRange => case USaturation => case UBrightness => case UFresnelPower => case UFresnelIntensity =>
      case ULightPosition => case UWarmShift => case UCoolShift => case UMouseInfluence =>
      case UDesaturation => case UDarkOverlay =>
    }
  }

  /** `handleMouseMove` on the window: pointer position as a fraction of the
      window, with y pointing up. Nothing is clamped. */
  function NormalizePointer(clientX: real, clientY: real, win: Window): (v: Vec2)
    ensures v.x * win.width == clientX
    ensures (1.0 - v.y) * win.height == clientY
  {
    var w: real, h: real := win.width, win.height;
    assert clientX / w * w == clientX by { assert w > 0.0; }
    assert clientY / h * h == clientY by { assert h > 0.0; }
    Vec2(clientX / w, 1.0 - clientY / h)
  }

  /** The inverse of `NormalizePointer`: back from shader space to client pixels. */
  function ToClient(v: Vec2, win: Window): Vec2
  {
    Vec2(v.x * win.width, (1.0 - v.y) * win.height)
  }

  /** Normalisation loses nothing: the client position is recovered exactly. */
  lemma PointerRoundTrip(clientX: real, clientY: real, win: Window)
    ensures ToClient(NormalizePointer(clientX, clientY, win), win) == Vec2(clientX, clientY)
  {
    var w: real, h: real := win.width, win.height;
    var v := NormalizePointer(clientX, clientY, win);
    assert v.x * w == clientX by { assert w > 0.0; }
    assert (1.0 - v.y) * h == clientY by { assert h > 0.0; }
  }

  /** A coordinate `c` that is `a` times a positive extent `w` lies in [0, w]
      exactly when `a` lies in [0, 1]. */
  lemma UnitScale(a: real, w: real, c: real)
    requires w > 0.0 && a * w == c
    ensures (0.0 <= c <==> 0.0 <= a) && (c <= w <==> a <= 1.0) && (c > w <==> a > 1.0)
  {
  }

  /** The pointer is inside the window exactly when its normalised position is
      inside the unit square; outside positions are passed through, not clamped. */
  lemma PointerInsideIff(clientX: real, clientY: real, win: Window)
    ensures var v := NormalizePointer(clientX, clientY, win);
            (0.0 <= clientX <= win.width && 0.0 <= clientY <= win.height)
            <==> (0.0 <= v.x <= 1.0 && 0.0 <= v.y <= 1.0)
    ensures clientX > win.width ==> NormalizePointer(clientX, clientY, win).x > 1.0
    ensures clientY < 0.0 ==> NormalizePointer(clientX, clientY, win).y > 1.0
  {
    var v := NormalizePointer(clientX, clientY, win);
    UnitScale(v.x, win.width, clientX);
    UnitScale(1.0 - v.y, win.height, clientY);
  }

  /** Corners and centre: the top-left pixel maps to (0, 1), the bottom-right
      to (1, 0), and the centre to the pointer's initial value (0.5, 0.5). */
  lemma PointerLandmarks(win: Window)
    ensures NormalizePointer(0.0, 0.0, win) == Vec2(0.0, 1.0)
    ensures NormalizePointer(win.width, win.height, win) == Vec2(1.0, 0.0)
    ensures NormalizePointer(win.width / 2.0, win.height / 2.0, win) == Vec2(0.5, 0.5)
  {
    var w: real, h: real := win.width, win.height;
    assert w > 0.0 && h > 0.0;
    assert w / w == 1.0 && h / h == 1.0;
  }

  /** Whether the WebGL surface (renderer, material, mesh) currently exists. */
  datatype Surface = Unmounted | Mounted(material: Material)

  /** The component's refs: the clock, `pixelRatioRef`, `mouseRef`, and the
      surface, which only exists between mount and unmount. */
  datatype Engine = Engine(clock: Clock, pixelRatioRef: real, mouse: Vec2, surface: Surface)

  /** The refs before the first mount. */
  const InitialEngine: Engine :=
    Engine(FrameClock.Initial, Defaults.pixelRatio, Vec2(0.5, 0.5), Unmounted)

  /** The refs effect: `pausedRef` and `pixelRatioRef` follow the record. */
  function SyncRefs(e: Engine, u: ShaderUniforms): (r: Engine)
    ensures r.clock.paused == u.paused && r.pixelRatioRef == u.pixelRatio
    ensures r.clock.time == e.clock.time && r.clock.lastFrame == e.clock.lastFrame
    ensures r.surface == e.surface && r.mouse == e.mouse
  {
    e.(clock := FrameClock.WithPaused(e.clock, u.paused), pixelRatioRef := u.pixelRatio)
  }

  /** The mount effect: a fresh material, an initial resize with the current
      `pixelRatioRef`, and `lastFrameRef` cleared. Mounting again replaces the
      previous surface. */
  function Mount(e: Engine, win: Window): (r: Engine)
    ensures r.surface.Mounted? && Complete(r.surface.material)
    ensures r.surface.material[UResolution] == Vector(Resolution(win, e.pixelRatioRef))
    ensures r.clock == Remount(e.clock)
    ensures r.mouse == e.mouse && r.pixelRatioRef == e.pixelRatioRef
  {
    InitialMaterialHoldsDefaults();
    e.(surface := Mounted(HandleResize(InitialMaterial(), win, e.pixelRatioRef)),
       clock := Remount(e.clock))
  }

  /** The cleanup: the surface is released; the refs survive for a remount. */
  function Unmount(e: Engine): (r: Engine)
    ensures r.surface == Unmounted
    ensures r.clock == e.clock && r.mouse == e.mouse && r.pixelRatioRef == e.pixelRatioRef
  {
    e.(surface := Unmounted)
  }

  /** A window resize; the listener exists only while mounted. */
  function Resize(e: Engine, win: Window): (r: Engine)
    ensures e.surface.Unmounted? ==> r == e
    ensures e.surface.Mounted? ==>
              r.surface.Mounted? &&
              r.surface.material == HandleResize(e.surface.material, win, e.pixelRatioRef)
    ensures r.clock == e.clock && r.mouse == e.mouse && r.pixelRatioRef == e.pixelRatioRef
  {
    match e.surface
    case Unmounted => e
    case Mounted(m) => e.(surface := Mounted(HandleResize(m, win, e.pixelRatioRef)))
  }

  /** A window pointer move; the listener exists only while mounted. It writes
      `mouseRef` only: the shader sees it at the next frame. */
  function PointerMove(e: Engine, clientX: real, clientY: real, win: Window): (r: Engine)
    ensures e.surface.Unmounted? ==> r == e
    ensures e.surface.Mounted? ==> r.mouse == NormalizePointer(clientX, clientY, win)
    ensures r.surface == e.surface && r.clock == e.clock && r.pixelRatioRef == e.pixelRatioRef
  {
    match e.surface
    case Unmounted => e
    case Mounted(_) => e.(mouse := NormalizePointer(clientX, clientY, win))
  }

  /** One `animate(timestamp)`: step the clock, then publish the time and the
      pointer. No frame is delivered once the surface is gone (the pending
      request is cancelled on unmount). */
  function Frame(e: Engine, timestamp: real): (r: Engine)
    ensures e.surface.Unmounted? ==> r == e
    ensures e.surface.Mounted? ==>
              && r.clock == Step(e.clock, timestamp)
              && r.surface.Mounted?
              && UTime in r.surface.material && r.surface.material[UTime] == Scalar(r.clock.time)
              && UMouse in r.surface.material && r.surface.material[UMouse] == Vector(e.mouse)
              && (forall s :: s in e.surface.material && s != UTime && s != UMouse ==>
                    s in r.surface.material && r.surface.material[s] == e.surface.material[s])
    ensures r.mouse == e.mouse && r.pixelRatioRef == e.pixelRatioRef
  {
    match e.surface
    case Unmounted => e
    case Mounted(m) =>
      var clock := Step(e.clock, timestamp);
      e.(clock := clock,
         surface := Mounted(m[UTime := Scalar(clock.time)][UMouse := Vector(e.mouse)]))
  }

  /** The uniform-sync effect, which returns early when there is no material. */
  function Sync(e: Engine, u: ShaderUniforms, win: Window): (r: Engine)
    ensures e.surface.Unmounted? ==> r == e
    ensures e.surface.Mounted? ==>
              r.surface.Mounted? && r.surface.material == SyncUniforms(e.surface.material, u, win)
    ensures r.clock == e.clock && r.mouse == e.mouse && r.pixelRatioRef == e.pixelRatioRef
  {
    match e.surface
    case Unmounted => e
    case Mounted(m) => e.(surface := Mounted(SyncUniforms(m, u, win)))
  }

  /** The engine reflects record `u` in window `win`: the refs mirror the
      record, and a mounted material holds every slot, each parameter slot
      carries its parameters, and the resolution matches window and ratio. */
  ghost predicate Reflects(e: Engine, u: ShaderUniforms, win: Window)
  {
    && e.clock.paused == u.paused
    && e.pixelRatioRef == u.pixelRatio
    && (e.surface.Mounted? ==>
          var m := e.surface.material;
          && Complete(m)
          && (forall s :: IsParameterSlot(s) ==> m[s] == FedValue(u, s))
          && m[UResolution] == Vector(Resolution(win, u.pixelRatio)))
  }

  /** Running the refs effect and then the sync effect after any change to the
      record brings the engine back in line with it. */
  lemma EffectsRestoreReflection(e: Engine, u: ShaderUniforms, win: Window)
    requires e.surface.Mounted? ==> Complete(e.surface.material)
    ensures Reflects(Sync(SyncRefs(e, u), u, win), u, win)
  {
  }

  /** A resize uses `pixelRatioRef` and the sync effect uses the record's
      `pixelRatio`; because the refs mirror the record, both give the same
      resolution, `(w * pr, h * pr)`, and a resize keeps the engine in line. */
  lemma ResizeKeepsReflection(e: Engine, u: ShaderUniforms, before: Window, win: Window)
    requires Reflects(e, u, before)
    ensures Reflects(Resize(e, win), u, win)
  {
    if e.surface.Mounted? {
      var m := Resize(e, win).surface.material;
      assert m == HandleResize(e.surface.material, win, e.pixelRatioRef);
      forall s | IsParameterSlot(s) ensures m[s] == FedValue(u, s) {
        assert s != UResolution;
      }
    }
  }

  /** A frame changes only the time and pointer slots, so the engine keeps
      reflecting the record. */
  lemma FrameKeepsReflection(e: Engine, u: ShaderUniforms, win: Window, timestamp: real)
    requires Reflects(e, u, win)
    ensures Reflects(Frame(e, timestamp), u, win)
  {
    if e.surface.Mounted? {
      var m := Frame(e, timestamp).surface.material;
      forall s | IsParameterSlot(s) ensures m[s] == FedValue(u, s) {
        assert s != UTime && s != UMouse;
      }
      assert m[UResolution] == e.surface.material[UResolution];
    }
  }

  /** A mount followed by the sync effect reflects the record, whatever the
      record is: the material built from the defaults is overwritten. */
  lemma MountThenSyncReflects(e: Engine, u: ShaderUniforms, win: Window)
    ensures Reflects(Sync(Mount(SyncRefs(e, u), win), u, win), u, win)
  {
  }

  /** The refs effect only reads `paused` and `pixelRatio`: when the refs
      already mirror a record, running it for a record that differs only in
      other keys changes nothing. React skips it in that case, because its
      dependency list holds just those two keys; running it anyway is
      harmless. */
  lemma SyncRefsNeedsOnlyItsDependencies(e: Engine, u: ShaderUniforms, next: ShaderUniforms)
    requires e.clock.paused == u.paused && e.pixelRatioRef == u.pixelRatio
    ensures (next.paused == u.paused && next.pixelRatio == u.pixelRatio) <==> SyncRefs(e, next) == e
  {
    if SyncRefs(e, next) == e {
      assert SyncRefs(e, next).clock.paused == next.paused;
    }
  }

  /** Running the sync effect twice is the same as running it once. */
  lemma SyncIsIdempotent(m: Material, u: ShaderUniforms, win: Window)
    ensures SyncUniforms(SyncUniforms(m, u, win), u, win) == SyncUniforms(m, u, win)
  {
  }
}
