/**
 * The `invoke` of each model node.  A node either raises, modelled as a
 * `Failure` carrying which check failed, or returns freshly built records;
 * its inputs are never changed.
 */
module Invocations {
  import opened Wrappers
  import opened ModelFields

  /** The model manager's `model_exists(model_name, base_model, model_type)` query, outside this model. */
  type ModelExists = (string, BaseModelType, ModelType) -> bool

  /** The field a LoRA was found to be already applied to. */
  datatype Target = UNetTarget | ClipTarget | Clip2Target

  /** The exceptions the nodes raise. */
  datatype Error =
    | UnknownModel(baseModel: BaseModelType, modelType: ModelType, modelName: string)
    | NoLoraProvided
    | UnknownLora(loraName: string)
    | AlreadyApplied(loraName: string, target: Target)
    | UnknownVae(vaeName: string)

  // ---------------------------------------------------------------------
  // Main model loader

  datatype MainModelLoaderInvocation = MainModelLoaderInvocation(model: MainModelField)

  /** Loads a main model and fans it out into its UNet, scheduler, tokenizer, text encoder and VAE. */
  function MainModelLoader(node: MainModelLoaderInvocation, modelExists: ModelExists): (r: Result<ModelLoaderOutput, Error>)
    ensures var m := node.model;
      r.Failure? <==> !modelExists(m.modelName, m.baseModel, Main)
    ensures var m := node.model;
      r.Failure? ==> r.error == UnknownModel(m.baseModel, Main, m.modelName)
    ensures var m := node.model; r.Success? ==>
      var o := r.value;
      o.unet.unet == ModelInfo(m.modelName, m.baseModel, Main, Some(SubModelType.UNet)) &&
      o.unet.scheduler == ModelInfo(m.modelName, m.baseModel, Main, Some(Scheduler)) &&
      o.clip.tokenizer == ModelInfo(m.modelName, m.baseModel, Main, Some(Tokenizer)) &&
      o.clip.textEncoder == ModelInfo(m.modelName, m.baseModel, Main, Some(TextEncoder)) &&
      o.vae.vae == ModelInfo(m.modelName, m.baseModel, Main, Some(SubModelType.Vae)) &&
      o.unet.loras == [] && o.clip.loras == [] && o.clip.skippedLayers == 0 &&
      o.unet.freeuConfig == None && o.unet.seamless == None && o.vae.seamless == None
  {
    var baseModel := node.model.baseModel;
    var modelName := node.model.modelName;
    var modelType := Main;
    if !modelExists(modelName, baseModel, modelType) then
      Failure(UnknownModel(baseModel, modelType, modelName))
    else
      Success(ModelLoaderOutput(
        unet := UNetField(
          unet := ModelInfo(modelName, baseModel, modelType, Some(SubModelType.UNet)),
          scheduler := ModelInfo(modelName, baseModel, modelType, Some(Scheduler)),
          loras := [],
          freeuConfig := None,
          seamless := None),
        clip := ClipField(
          tokenizer := ModelInfo(modelName, baseModel, modelType, Some(Tokenizer)),
          textEncoder := ModelInfo(modelName, baseModel, modelType, Some(TextEncoder)),
          skippedLayers := 0,
          loras := []),
        vae := VaeField(
          vae := ModelInfo(modelName, baseModel, modelType, Some(SubModelType.Vae)),
          seamless := None)))
  }

  // ---------------------------------------------------------------------
  // LoRA loaders

  /** The entry a LoRA loader appends for `lora` at `weight`. */
  function LoraEntry(lora: LoRAModelField, weight: Float): LoraInfo
  {
    LoraInfo(lora.modelName, lora.baseModel, Lora, None, weight)
  }

  /** A present UNet field already lists a LoRA of this name. */
  predicate AppliedToUNet(u: Option<UNetField>, name: string)
  {
    u.Some? && HasLora(u.value.loras, name)
  }

  /** A present CLIP field already lists a LoRA of this name. */
  predicate AppliedToClip(c: Option<ClipField>, name: string)
  {
    c.Some? && HasLora(c.value.loras, name)
  }

  /** `after` is `before` with `entry` appended to its LoRAs and nothing else changed; absent stays absent. */
  predicate UNetExtended(before: Option<UNetField>, after: Option<UNetField>, entry: LoraInfo)
  {
    before.Some? == after.Some? &&
    (before.Some? ==>
      after.value.loras == before.value.loras + [entry] &&
      after.value.(loras := before.value.loras) == before.value)
  }

  /** `after` is `before` with `entry` appended to its LoRAs and nothing else changed; absent stays absent. */
  predicate ClipExtended(before: Option<ClipField>, after: Option<ClipField>, entry: LoraInfo)
  {
    before.Some? == after.Some? &&
    (before.Some? ==>
      after.value.loras == before.value.loras + [entry] &&
      after.value.(loras := before.value.loras) == before.value)
  }

  /** A copy of a present UNet field with one more LoRA. */
  function AddToUNet(u: Option<UNetField>, entry: LoraInfo): Option<UNetField>
  {
    match u
    case None => None
    case Some(f) => Some(f.(loras := f.loras + [entry]))
  }

  /** A copy of a present CLIP field with one more LoRA. */
  function AddToClip(c: Option<ClipField>, entry: LoraInfo): Option<ClipField>
  {
    match c
    case None => None
    case Some(f) => Some(f.(loras := f.loras + [entry]))
  }

  datatype LoraLoaderInvocation = LoraLoaderInvocation(
    lora: Option<LoRAModelField>,
    weight: Float,
    unet: Option<UNetField>,
    clip: Option<ClipField>)

  datatype LoraLoaderOutput = LoraLoaderOutput(unet: Option<UNetField>, clip: Option<ClipField>)

  /** Applies one LoRA to the UNet and CLIP fields that are connected. */
  function LoraLoader(node: LoraLoaderInvocation, modelExists: ModelExists): (r: Result<LoraLoaderOutput, Error>)
    ensures node.lora.None? ==> r == Failure(NoLoraProvided)
    ensures node.lora.Some? ==>
      var name := node.lora.value.modelName;
      var known := modelExists(name, node.lora.value.baseModel, Lora);
      (!known ==> r == Failure(UnknownLora(name))) &&
      (known && AppliedToUNet(node.unet, name) ==> r == Failure(AlreadyApplied(name, UNetTarget))) &&
      (known && !AppliedToUNet(node.unet, name) && AppliedToClip(node.clip, name) ==>
         r == Failure(AlreadyApplied(name, ClipTarget)))
    ensures r.Success? <==>
      node.lora.Some? &&
      modelExists(node.lora.value.modelName, node.lora.value.baseModel, Lora) &&
      !AppliedToUNet(node.unet, node.lora.value.modelName) &&
      !AppliedToClip(node.clip, node.lora.value.modelName)
    ensures r.Success? ==>
      var entry := LoraEntry(node.lora.value, node.weight);
      UNetExtended(node.unet, r.value.unet, entry) && ClipExtended(node.clip, r.value.clip, entry)
  {
    if node.lora.None? then Failure(NoLoraProvided)
    else
      var lora := node.lora.value;
      var name := lora.modelName;
      if !modelExists(name, lora.baseModel, Lora) then Failure(UnknownLora(name))
      else if AppliedToUNet(node.unet, name) then Failure(AlreadyApplied(name, UNetTarget))
      else if AppliedToClip(node.clip, name) then Failure(AlreadyApplied(name, ClipTarget))
      else
        var entry := LoraEntry(lora, node.weight);
        Success(LoraLoaderOutput(AddToUNet(node.unet, entry), AddToClip(node.clip, entry)))
  }

  datatype SDXLLoraLoaderInvocation = SDXLLoraLoaderInvocation(
    lora: Option<LoRAModelField>,
    weight: Float,
    unet: Option<UNetField>,
    clip: Option<ClipField>,
    clip2: Option<ClipField>)

  datatype SDXLLoraLoaderOutput = SDXLLoraLoaderOutput(
    unet: Option<UNetField>,
    clip: Option<ClipField>,
    clip2: Option<ClipField>)

  /** Applies one LoRA to the UNet and both CLIP fields of an SDXL model, where connected. */
  function SDXLLoraLoader(node: SDXLLoraLoaderInvocation, modelExists: ModelExists): (r: Result<SDXLLoraLoaderOutput, Error>)
    ensures node.lora.None? ==> r == Failure(NoLoraProvided)
    ensures node.lora.Some? ==>
      var name := node.lora.value.modelName;
      var known := modelExists(name, node.lora.value.baseModel, Lora);
      (!known ==> r == Failure(UnknownLora(name))) &&
      (known && AppliedToUNet(node.unet, name) ==> r == Failure(AlreadyApplied(name, UNetTarget))) &&
      (known && !AppliedToUNet(node.unet, name) && AppliedToClip(node.clip, name) ==>
         r == Failure(AlreadyApplied(name, ClipTarget))) &&
      (known && !AppliedToUNet(node.unet, name) && !AppliedToClip(node.clip, name) &&
       AppliedToClip(node.clip2, name) ==>
         r == Failure(AlreadyApplied(name, Clip2Target)))
    ensures r.Success? <==>
      node.lora.Some? &&
      modelExists(node.lora.value.modelName, node.lora.value.baseModel, Lora) &&
      !AppliedToUNet(node.unet, node.lora.value.modelName) &&
      !AppliedToClip(node.clip, node.lora.value.modelName) &&
      !AppliedToClip(node.clip2, node.lora.value.modelName)
    ensures r.Success? ==>
      var entry := LoraEntry(node.lora.value, node.weight);
      UNetExtended(node.unet, r.value.unet, entry) &&
      ClipExtended(node.clip, r.value.clip, entry) &&
      ClipExtended(node.clip2, r.value.clip2, entry)
  {
    if node.lora.None? then Failure(NoLoraProvided)
    else
      var lora := node.lora.value;
      var name := lora.modelName;
      if !modelExists(name, lora.baseModel, Lora) then Failure(UnknownLora(name))
      else if AppliedToUNet(node.unet, name) then Failure(AlreadyApplied(name, UNetTarget))
      else if AppliedToClip(node.clip, name) then Failure(AlreadyApplied(name, ClipTarget))
      else if AppliedToClip(node.clip2, name) then Failure(AlreadyApplied(name, Clip2Target))
      else
        var entry := LoraEntry(lora, node.weight);
        Success(SDXLLoraLoaderOutput(
          AddToUNet(node.unet, entry), AddToClip(node.clip, entry), AddToClip(node.clip2, entry)))
  }

  // ---------------------------------------------------------------------
  // VAE loader

  datatype VaeLoaderInvocation = VaeLoaderInvocation(vaeModel: VAEModelField)

  /** Loads a standalone VAE model. */
  function VaeLoader(node: VaeLoaderInvocation, modelExists: ModelExists): (r: Result<VaeOutput, Error>)
    ensures var m := node.vaeModel;
      r.Failure? <==> !modelExists(m.modelName, m.baseModel, ModelType.Vae)
    ensures r.Failure? ==> r.error == UnknownVae(node.vaeModel.modelName)
    ensures var m := node.vaeModel; r.Success? ==>
      r.value.vae.vae == ModelInfo(m.modelName, m.baseModel, ModelType.Vae, None) &&
      r.value.vae.seamless == None
  {
    var baseModel := node.vaeModel.baseModel;
    var modelName := node.vaeModel.modelName;
    var modelType := ModelType.Vae;
    if !modelExists(modelName, baseModel, modelType) then Failure(UnknownVae(modelName))
    else Success(VaeOutput(VaeField(ModelInfo(modelName, baseModel, modelType, None), None)))
  }

  // ---------------------------------------------------------------------
  // Seamless

  /** The seamless axes: "x" when `x` is set, then "y" when `y` is set. */
  function SeamlessAxes(x: bool, y: bool): (axes: seq<string>)
    ensures |axes| == (if x then 1 else 0) + (if y then 1 else 0)
    ensures ("x" in axes) == x && ("y" in axes) == y
    ensures forall i, j :: 0 <= i < |axes| && 0 <= j < |axes| && axes[i] == "x" && axes[j] == "y" ==> i < j
    ensures WellFormedAxes(axes)
  {
    var xs := if x then ["x"] else [];
    xs + (if y then ["y"] else [])
  }

  datatype SeamlessModeInvocation = SeamlessModeInvocation(
    unet: Option<UNetField>,
    vae: Option<VaeField>,
    seamlessY: bool,
    seamlessX: bool,
    skippedLayers: int,
    skipSecondResnet: bool,
    skipConv2: bool)

  datatype SeamlessModeOutput = SeamlessModeOutput(unet: Option<UNetField>, vae: Option<VaeField>)

  /** The settings the seamless node stamps onto both fields. */
  function SeamlessSettingsOf(node: SeamlessModeInvocation): SeamlessSettings
  {
    SeamlessSettings(SeamlessAxes(node.seamlessX, node.seamlessY), node.skippedLayers, node.skipSecondResnet, node.skipConv2)
  }

  /** Sets the seamless settings of copies of the connected UNet and VAE fields. */
  function SeamlessMode(node: SeamlessModeInvocation): (r: SeamlessModeOutput)
    ensures r.unet.Some? == node.unet.Some? && r.vae.Some? == node.vae.Some?
    ensures node.unet.Some? ==>
      r.unet.value.seamless == Some(SeamlessSettingsOf(node)) &&
      r.unet.value.(seamless := node.unet.value.seamless) == node.unet.value
    ensures node.vae.Some? ==>
      r.vae.value.seamless == Some(SeamlessSettingsOf(node)) &&
      r.vae.value.(seamless := node.vae.value.seamless) == node.vae.value
    ensures r.unet.Some? && r.vae.Some? ==> r.unet.value.seamless == r.vae.value.seamless
  {
    var settings := SeamlessSettingsOf(node);
    var unet := match node.unet
      case None => None
      case Some(u) => Some(u.(seamless := Some(settings)));
    var vae := match node.vae
      case None => None
      case Some(v) => Some(v.(seamless := Some(settings)));
    SeamlessModeOutput(unet, vae)
  }

  // ---------------------------------------------------------------------
  // FreeU

  datatype FreeUInvocation = FreeUInvocation(unet: UNetField, b1: Float, b2: Float, s1: Float, s2: Float)

  /** Sets the FreeU configuration of the UNet and leaves the rest of it alone. */
  function FreeU(node: FreeUInvocation): (r: UNetOutput)
    ensures r.unet.freeuConfig == Some(FreeUConfig(node.s1, node.s2, node.b1, node.b2))
    ensures r.unet.(freeuConfig := node.unet.freeuConfig) == node.unet
  {
    UNetOutput(node.unet.(freeuConfig := Some(FreeUConfig(s1 := node.s1, s2 := node.s2, b1 := node.b1, b2 := node.b2))))
  }
}
