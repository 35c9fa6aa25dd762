/** The parameter store of the shader playground: the `ShaderUniforms` record,
    its default value, and the single-key update used by every control.

    Numbers are modelled as exact `real`s rather than IEEE-754 doubles. */
module Uniforms {

  /** The nineteen numeric parameters, in the order the record declares them. */
  datatype Param =
    | NoiseScale | CloudDensity | CloudSoftness | DriftSpeed | LayerSeparation
    | HueOffset | HueRange | Saturation | Brightness | FresnelPower | FresnelIntensity
    | LightX | LightY | WarmShift | CoolShift | MouseInfluence
    | Desaturation | DarkOverlay
    | PixelRatio

  /** `keyof ShaderUniforms`: a numeric parameter or the `paused` flag. */
  datatype Key = Number(param: Param) | Paused

  /** A value stored under a key. */
  datatype Value = Real(x: real) | Flag(b: bool)

  /** The record itself: nineteen numbers and one boolean, always fully populated. */
  datatype ShaderUniforms = ShaderUniforms(
    noiseScale: real,
    cloudDensity: real,
    cloudSoftness: real,
    driftSpeed: real,
    layerSeparation: real,
    hueOffset: real,
    hueRange: real,
    saturation: real,
    brightness: real,
    fresnelPower: real,
    fresnelIntensity: real,
    lightX: real,
    lightY: real,
    warmShift: real,
    coolShift: real,
    mouseInfluence: real,
    desaturation: real,
    darkOverlay: real,
    pixelRatio: real,
    paused: bool)

  /** `DEFAULT_UNIFORMS`: the value on mount and the target of a reset. */
  const Defaults: ShaderUniforms := ShaderUniforms(
    2.5,   // noiseScale
    0.6,   // cloudDensity
    0.4,   // cloudSoftness
    0.08,  // driftSpeed
    0.5,   // layerSeparation
    0.55,  // hueOffset
    0.6,   // hueRange
    0.55,  // saturation
    0.72,  // brightness
    1.8,   // fresnelPower
    1.0,   // fresnelIntensity
    0.65,  // lightX
    0.7,   // lightY
    0.9,   // warmShift
    2.5,   // coolShift
    0.3,   // mouseInfluence
    0.1,   // desaturation
    0.0,   // darkOverlay
    0.5,   // pixelRatio
    false) // paused

  /** The numeric field named by `p`. */
  function ParamValue(u: ShaderUniforms, p: Param): real
  {
    match p
    case NoiseScale => u.noiseScale
    case CloudDensity => u.cloudDensity
    case CloudSoftness => u.cloudSoftness
    case DriftSpeed => u.driftSpeed
    case LayerSeparation => u.layerSeparation
    case HueOffset => u.hueOffset
    case HueRange => u.hueRange
    case Saturation => u.saturation
    case Brightness => u.brightness
    case FresnelPower => u.fresnelPower
    case FresnelIntensity => u.fresnelIntensity
    case LightX => u.lightX
    case LightY => u.lightY
    case WarmShift => u.warmShift
    case CoolShift => u.coolShift
    case MouseInfluence => u.mouseInfluence
    case Desaturation => u.desaturation
    case DarkOverlay => u.darkOverlay
    case PixelRatio => u.pixelRatio
  }

  /** `uniforms[key]`. */
  function Get(u: ShaderUniforms, k: Key): Value
  {
    match k
    case Number(p) => Real(ParamValue(u, p))
    case Paused => Flag(u.paused)
  }

  /** The position of each parameter in the record's declaration order. */
  function Ordinal(p: Param): (r: nat)
    ensures r < 19
  {
    match p
    case NoiseScale => 0
    case CloudDensity => 1
    case CloudSoftness => 2
    case DriftSpeed => 3
    case LayerSeparation => 4
    case HueOffset => 5
    case HueRange => 6
    case Saturation => 7
    case Brightness => 8
    case FresnelPower => 9
    case FresnelIntensity => 10
    case LightX => 11
    case LightY => 12
    case WarmShift => 13
    case CoolShift => 14
    case MouseInfluence => 15
    case Desaturation => 16
    case DarkOverlay => 17
    case PixelRatio => 18
  }

  /** The keys of the record in declaration order (the property order of
      `DEFAULT_UNIFORMS`, which object spreads preserve). */
  const AllKeys: seq<Key> := [
    Number(NoiseScale), Number(CloudDensity), Number(CloudSoftness), Number(DriftSpeed),
    Number(LayerSeparation), Number(HueOffset), Number(HueRange), Number(Saturation),
    Number(Brightness), Number(FresnelPower), Number(FresnelIntensity), Number(LightX),
    Number(LightY), Number(WarmShift), Number(CoolShift), Number(MouseInfluence),
    Number(Desaturation), Number(DarkOverlay), Number(PixelRatio), Paused]

  /** The index of each key in `AllKeys`. */
  function KeyIndex(k: Key): nat
  {
    match k
    case Number(p) => Ordinal(p)
    case Paused => 19
  }

  /** `AllKeys` lists every key of the record exactly once: each key sits at its
      own index, and each index holds the key whose index it is. */
  lemma AllKeysEnumerate()
    ensures |AllKeys| == 20
    ensures forall k: Key :: KeyIndex(k) < |AllKeys| && AllKeys[KeyIndex(k)] == k
    ensures forall i :: 0 <= i < |AllKeys| ==> KeyIndex(AllKeys[i]) == i
  {
    forall k: Key ensures KeyIndex(k) < |AllKeys| && AllKeys[KeyIndex(k)] == k {
      match k
      case Paused =>
      case Number(p) =>
    }
  }

  /** No key occurs twice in `AllKeys`. */
  lemma AllKeysDistinct()
    ensures forall i, j :: 0 <= i < |AllKeys| && 0 <= j < |AllKeys| && i != j ==> AllKeys[i] != AllKeys[j]
  {
    AllKeysEnumerate();
  }

  /** Two records with the same value under every key are the same record. */
  lemma Extensionality(a: ShaderUniforms, b: ShaderUniforms)
    requires forall k :: Get(a, k) == Get(b, k)
    ensures a == b
  {
    assert a.noiseScale == b.noiseScale by { assert Get(a, Number(NoiseScale)) == Get(b, Number(NoiseScale)); }
    assert a.cloudDensity == b.cloudDensity by { assert Get(a, Number(CloudDensity)) == Get(b, Number(CloudDensity)); }
    assert a.cloudSoftness == b.cloudSoftness by { assert Get(a, Number(CloudSoftness)) == Get(b, Number(CloudSoftness)); }
    assert a.driftSpeed == b.driftSpeed by { assert Get(a, Number(DriftSpeed)) == Get(b, Number(DriftSpeed)); }
    assert a.layerSeparation == b.layerSeparation by { assert Get(a, Number(LayerSeparation)) == Get(b, Number(LayerSeparation)); }
    assert a.hueOffset == b.hueOffset by { assert Get(a, Number(HueOffset)) == Get(b, Number(HueOffset)); }
    assert a.hueRange == b.hueRange by { assert Get(a, Number(HueRange)) == Get(b, Number(HueRange)); }
    assert a.saturation == b.saturation by { assert Get(a, Number(Saturation)) == Get(b, Number(Saturation)); }
    assert a.brightness == b.brightness by { assert Get(a, Number(Brightness)) == Get(b, Number(Brightness)); }
    assert a.fresnelPower == b.fresnelPower by { assert Get(a, Number(FresnelPower)) == Get(b, Number(FresnelPower)); }
    assert a.fresnelIntensity == b.fresnelIntensity by { assert Get(a, Number(FresnelIntensity)) == Get(b, Number(FresnelIntensity)); }
    assert a.lightX == b.lightX by { assert Get(a, Number(LightX)) == Get(b, Number(LightX)); }
    assert a.lightY == b.lightY by { assert Get(a, Number(LightY)) == Get(b, Number(LightY)); }
    assert a.warmShift == b.warmShift by { assert Get(a, Number(WarmShift)) == Get(b, Number(WarmShift)); }
    assert a.coolShift == b.coolShift by { assert Get(a, Number(CoolShift)) == Get(b, Number(CoolShift)); }
    assert a.mouseInfluence == b.mouseInfluence by { assert Get(a, Number(MouseInfluence)) == Get(b, Number(MouseInfluence)); }
    assert a.desaturation == b.desaturation by { assert Get(a, Number(Desaturation)) == Get(b, Number(Desaturation)); }
    assert a.darkOverlay == b.darkOverlay by { assert Get(a, Number(DarkOverlay)) == Get(b, Number(DarkOverlay)); }
    assert a.pixelRatio == b.pixelRatio by { assert Get(a, Number(PixelRatio)) == Get(b, Number(PixelRatio)); }
    assert a.paused == b.paused by { assert Get(a, Paused) == Get(b, Paused); }
  }

  /** The `(key, value)` argument pair of `updateUniform`, typed so that the
      value always matches the field it is written to. */
  datatype Edit = SetParam(param: Param, x: real) | SetPaused(b: bool)
  {
    function EditedKey(): Key
    {
      match this
      case SetParam(p, _) => Number(p)
      case SetPaused(_) => Paused
    }

    function NewValue(): Value
    {
      match this
      case SetParam(_, x) => Real(x)
      case SetPaused(b) => Flag(b)
    }
  }

  /** `updateUniform(key, value)`: `{ ...prev, [key]: value }`. No bounds are
      enforced; an out-of-range number is stored as given. */
  function UpdateUniform(u: ShaderUniforms, e: Edit): (r: ShaderUniforms)
    ensures Get(r, e.EditedKey()) == e.NewValue()
    ensures forall k :: k != e.EditedKey() ==> Get(r, k) == Get(u, k)
  {
    match e
    case SetPaused(b) => u.(paused := b)
    case SetParam(p, x) =>
      match p
      case NoiseScale => u.(noiseScale := x)
      case CloudDensity => u.(cloudDensity := x)
      case CloudSoftness => u.(cloudSoftness := x)
      case DriftSpeed => u.(driftSpeed := x)
      case LayerSeparation => u.(layerSeparation := x)
      case HueOffset => u.(hueOffset := x)
      case HueRange => u.(hueRange := x)
      case Saturation => u.(saturation := x)
      case Brightness => u.(brightness := x)
      case FresnelPower => u.(fresnelPower := x)
      case FresnelIntensity => u.(fresnelIntensity := x)
      case LightX => u.(lightX := x)
      case LightY => u.(lightY := x)
      case WarmShift => u.(warmShift := x)
      case CoolShift => u.(coolShift := x)
      case MouseInfluence => u.(mouseInfluence := x)
      case Desaturation => u.(desaturation := x)
      case DarkOverlay => u.(darkOverlay := x)
      case PixelRatio => u.(pixelRatio := x)
  }

  /** `resetUniforms`: the prior record is discarded. */
  function ResetUniforms(u: ShaderUniforms): (r: ShaderUniforms)
    ensures forall k :: Get(r, k) == Get(Defaults, k)
  {
    Defaults
  }

  /** Reset forgets the prior record entirely and is idempotent. */
  lemma ResetForgetsPriorState(a: ShaderUniforms, b: ShaderUniforms)
    ensures ResetUniforms(a) == ResetUniforms(b) == Defaults
    ensures ResetUniforms(ResetUniforms(a)) == ResetUniforms(a)
  {
  }

  /** Writing back the value a key already holds leaves the record as it was. */
  lemma UpdateWithCurrentValue(u: ShaderUniforms, e: Edit)
    requires Get(u, e.EditedKey()) == e.NewValue()
    ensures UpdateUniform(u, e) == u
  {
    Extensionality(UpdateUniform(u, e), u);
  }

  /** Two writes to the same key: the second one wins. */
  lemma LastWriteWins(u: ShaderUniforms, e1: Edit, e2: Edit)
    requires e1.EditedKey() == e2.EditedKey()
    ensures UpdateUniform(UpdateUniform(u, e1), e2) == UpdateUniform(u, e2)
  {
    Extensionality(UpdateUniform(UpdateUniform(u, e1), e2), UpdateUniform(u, e2));
  }

  /** Writes to different keys commute. */
  lemma DistinctWritesCommute(u: ShaderUniforms, e1: Edit, e2: Edit)
    requires e1.EditedKey() != e2.EditedKey()
    ensures UpdateUniform(UpdateUniform(u, e1), e2) == UpdateUniform(UpdateUniform(u, e2), e1)
  {
    Extensionality(UpdateUniform(UpdateUniform(u, e1), e2), UpdateUniform(UpdateUniform(u, e2), e1));
  }
}
