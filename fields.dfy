/**
 * The "model field" records that graph nodes pass to one another: which
 * model and submodel to load, which LoRAs to apply, and the optional
 * FreeU and seamless settings.  Every record is a value; a node never
 * changes the records it receives, it builds new ones.
 */
module ModelFields {
  import opened Wrappers

  /**
   * LoRA weights and FreeU factors: floating-point values that are only
   * passed through.  `real` merely stands in for an opaque value: no
   * member orders or computes with one.
   */
  type Float = real

  /**
   * The base model family.  The enumeration lives outside this model and is
   * only copied and compared here, so a base model is kept as its name.
   */
  datatype BaseModelType = BaseModelType(value: string)

  /** Model kinds known to the model manager; the ones this layer never names are `OtherModelType`. */
  datatype ModelType = Main | Vae | Lora | OtherModelType(value: string)

  /** Submodels of a main model; the ones this layer never names are `OtherSubModel`. */
  datatype SubModelType = UNet | Scheduler | Tokenizer | TextEncoder | Vae | OtherSubModel(value: string)

  /** The FreeU factors stamped onto a UNet. */
  datatype FreeUConfig = FreeUConfig(s1: Float, s2: Float, b1: Float, b2: Float)

  datatype SeamlessSettings = SeamlessSettings(
    axes: seq<string>,
    skippedLayers: int,
    skipSecondResnet: bool,
    skipConv2: bool)

  /** Everything needed to load one (sub)model. */
  datatype ModelInfo = ModelInfo(
    modelName: string,
    baseModel: BaseModelType,
    modelType: ModelType,
    submodel: Option<SubModelType>)

  /** A `ModelInfo` with the weight at which the LoRA is applied. */
  datatype LoraInfo = LoraInfo(
    modelName: string,
    baseModel: BaseModelType,
    modelType: ModelType,
    submodel: Option<SubModelType>,
    weight: Float)

  datatype UNetField = UNetField(
    unet: ModelInfo,
    scheduler: ModelInfo,
    loras: seq<LoraInfo>,
    freeuConfig: Option<FreeUConfig>,
    seamless: Option<SeamlessSettings>)

  datatype ClipField = ClipField(
    tokenizer: ModelInfo,
    textEncoder: ModelInfo,
    skippedLayers: int,
    loras: seq<LoraInfo>)

  datatype VaeField = VaeField(vae: ModelInfo, seamless: Option<SeamlessSettings>)

  datatype UNetOutput = UNetOutput(unet: UNetField)

  datatype VaeOutput = VaeOutput(vae: VaeField)

  /** The main model loader's output carries all three fields. */
  datatype ModelLoaderOutput = ModelLoaderOutput(unet: UNetField, clip: ClipField, vae: VaeField)

  /** Node inputs that select a model by name and base. */
  datatype MainModelField = MainModelField(modelName: string, baseModel: BaseModelType, modelType: ModelType)

  datatype LoRAModelField = LoRAModelField(modelName: string, baseModel: BaseModelType)

  datatype VAEModelField = VAEModelField(modelName: string, baseModel: BaseModelType)

  // ---------------------------------------------------------------------
  // LoRA lists

  /** Whether some entry of `loras` carries `name`: the loaders' duplicate test, which compares names only. */
  function HasLora(loras: seq<LoraInfo>, name: string): (b: bool)
    ensures b <==> exists i :: 0 <= i < |loras| && loras[i].modelName == name
  {
    if loras == [] then false
    else if loras[0].modelName == name then true
    else HasLora(loras[1..], name)
  }

  /** No two entries of `loras` have the same name. */
  predicate DistinctNames(loras: seq<LoraInfo>)
  {
    forall i, j :: 0 <= i < j < |loras| ==> loras[i].modelName != loras[j].modelName
  }

  /** A LoRA list as the loaders build it: distinct names, every entry a whole LoRA model. */
  predicate WellFormedLoras(loras: seq<LoraInfo>)
  {
    DistinctNames(loras) &&
    forall i :: 0 <= i < |loras| ==> loras[i].modelType == Lora && loras[i].submodel == None
  }

  /** The axes lists the seamless node can produce: a subset of x and y, x first. */
  predicate WellFormedAxes(axes: seq<string>)
  {
    axes == [] || axes == ["x"] || axes == ["y"] || axes == ["x", "y"]
  }

  predicate WellFormedSeamless(s: Option<SeamlessSettings>)
  {
    s.Some? ==> WellFormedAxes(s.value.axes)
  }

  /** Two submodel descriptors of the same main model. */
  predicate SameModel(a: ModelInfo, b: ModelInfo)
  {
    a.modelName == b.modelName && a.baseModel == b.baseModel && a.modelType == b.modelType
  }

  // ---------------------------------------------------------------------
  // Well-formed fields: what the loaders build and every other node keeps

  predicate WellFormedUNet(u: UNetField)
  {
    u.unet.submodel == Some(SubModelType.UNet) &&
    u.scheduler.submodel == Some(Scheduler) &&
    SameModel(u.unet, u.scheduler) &&
    WellFormedLoras(u.loras) &&
    WellFormedSeamless(u.seamless)
  }

  predicate WellFormedClip(c: ClipField)
  {
    c.tokenizer.submodel == Some(Tokenizer) &&
    c.textEncoder.submodel == Some(TextEncoder) &&
    SameModel(c.tokenizer, c.textEncoder) &&
    WellFormedLoras(c.loras)
  }

  /** A VAE is either the VAE submodel of a main model or a standalone VAE model. */
  predicate WellFormedVae(v: VaeField)
  {
    ((v.vae.modelType == Main && v.vae.submodel == Some(SubModelType.Vae)) ||
     (v.vae.modelType == ModelType.Vae && v.vae.submodel == None)) &&
    WellFormedSeamless(v.seamless)
  }
}
