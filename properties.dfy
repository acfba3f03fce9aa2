/**
 * Properties that relate several node invocations: the records the
 * loaders build are well formed, the other nodes keep them so, a LoRA
 * can be applied to a field only once, and nodes that touch different
 * parts of a UNet commute.
 */
module InvocationProperties {
  import opened Wrappers
  import opened ModelFields
  import opened Invocations

  // ---------------------------------------------------------------------
  // LoRA lists

  /** Appending a LoRA whose name is not yet listed keeps the list well formed, and the name then occurs only at the end. */
  lemma AppendKeepsWellFormed(loras: seq<LoraInfo>, entry: LoraInfo)
    requires WellFormedLoras(loras)
    requires !HasLora(loras, entry.modelName)
    requires entry.modelType == Lora && entry.submodel == None
    ensures WellFormedLoras(loras + [entry])
    ensures forall i :: 0 <= i < |loras| + 1 && (loras + [entry])[i].modelName == entry.modelName ==> i == |loras|
  {
  }

  // ---------------------------------------------------------------------
  // Loaders

  /** A loaded main model gives well-formed UNet, CLIP and VAE fields. */
  lemma MainModelLoaderWellFormed(node: MainModelLoaderInvocation, modelExists: ModelExists)
    requires MainModelLoader(node, modelExists).Success?
    ensures var o := MainModelLoader(node, modelExists).value;
      WellFormedUNet(o.unet) && WellFormedClip(o.clip) && WellFormedVae(o.vae)
  {
  }

  /** The loader always loads the model as a main model: the `model_type` of its input is never consulted. */
  lemma MainModelLoaderIgnoresModelType(name: string, base: BaseModelType, t1: ModelType, t2: ModelType, modelExists: ModelExists)
    ensures MainModelLoader(MainModelLoaderInvocation(MainModelField(name, base, t1)), modelExists)
         == MainModelLoader(MainModelLoaderInvocation(MainModelField(name, base, t2)), modelExists)
  {
  }

  /** A loaded VAE model gives a well-formed VAE field. */
  lemma VaeLoaderWellFormed(node: VaeLoaderInvocation, modelExists: ModelExists)
    requires VaeLoader(node, modelExists).Success?
    ensures WellFormedVae(VaeLoader(node, modelExists).value.vae)
  {
  }

  /** Applying a LoRA keeps well-formed UNet and CLIP fields well formed. */
  lemma LoraLoaderKeepsWellFormed(node: LoraLoaderInvocation, modelExists: ModelExists)
    requires LoraLoader(node, modelExists).Success?
    requires node.unet.Some? ==> WellFormedUNet(node.unet.value)
    requires node.clip.Some? ==> WellFormedClip(node.clip.value)
    ensures var o := LoraLoader(node, modelExists).value;
      (o.unet.Some? ==> WellFormedUNet(o.unet.value)) &&
      (o.clip.Some? ==> WellFormedClip(o.clip.value))
  {
    var entry := LoraEntry(node.lora.value, node.weight);
    if node.unet.Some? {
      AppendKeepsWellFormed(node.unet.value.loras, entry);
    }
    if node.clip.Some? {
      AppendKeepsWellFormed(node.clip.value.loras, entry);
    }
  }

  /** Applying a LoRA to fields whose LoRA names are distinct keeps them distinct; nothing else about the fields is assumed. */
  lemma LoraLoaderKeepsDistinctNames(node: LoraLoaderInvocation, modelExists: ModelExists)
    requires LoraLoader(node, modelExists).Success?
    requires node.unet.Some? ==> DistinctNames(node.unet.value.loras)
    requires node.clip.Some? ==> DistinctNames(node.clip.value.loras)
    ensures var o := LoraLoader(node, modelExists).value;
      (o.unet.Some? ==> DistinctNames(o.unet.value.loras)) &&
      (o.clip.Some? ==> DistinctNames(o.clip.value.loras))
  {
  }

  /** After a LoRA is applied, its name occurs exactly once in each present field's list: as its last entry. */
  lemma LoraLoaderNameOccursOnce(node: LoraLoaderInvocation, modelExists: ModelExists)
    requires LoraLoader(node, modelExists).Success?
    ensures var o := LoraLoader(node, modelExists).value;
      var name := node.lora.value.modelName;
      (o.unet.Some? ==>
         var ls := o.unet.value.loras;
         |ls| > 0 && ls[|ls| - 1].modelName == name &&
         forall i :: 0 <= i < |ls| && ls[i].modelName == name ==> i == |ls| - 1) &&
      (o.clip.Some? ==>
         var ls := o.clip.value.loras;
         |ls| > 0 && ls[|ls| - 1].modelName == name &&
         forall i :: 0 <= i < |ls| && ls[i].modelName == name ==> i == |ls| - 1)
  {
  }

  /**
   * Feeding a loader's output into a second loader for a LoRA of the same
   * name (whatever its base model or weight) fails on the first present
   * field; with no field connected it succeeds again.
   */
  lemma LoraLoaderRejectsReapply(node: LoraLoaderInvocation, again: LoRAModelField, weight: Float, modelExists: ModelExists)
    requires LoraLoader(node, modelExists).Success?
    requires again.modelName == node.lora.value.modelName
    requires modelExists(again.modelName, again.baseModel, Lora)
    ensures var o := LoraLoader(node, modelExists).value;
      var r := LoraLoader(LoraLoaderInvocation(Some(again), weight, o.unet, o.clip), modelExists);
      (node.unet.Some? ==> r == Failure(AlreadyApplied(again.modelName, UNetTarget))) &&
      (node.unet.None? && node.clip.Some? ==> r == Failure(AlreadyApplied(again.modelName, ClipTarget))) &&
      (r.Success? <==> node.unet.None? && node.clip.None?)
  {
    var o := LoraLoader(node, modelExists).value;
    var name := again.modelName;
    if o.unet.Some? {
      var ls := o.unet.value.loras;
      assert ls[|ls| - 1].modelName == name;
      assert HasLora(ls, name);
    }
    if o.clip.Some? {
      var ls := o.clip.value.loras;
      assert ls[|ls| - 1].modelName == name;
      assert HasLora(ls, name);
    }
  }

  /** The fields of a freshly loaded main model accept any LoRA the model manager knows. */
  lemma LoadedModelAcceptsKnownLora(model: MainModelLoaderInvocation, lora: LoRAModelField, weight: Float, modelExists: ModelExists)
    requires MainModelLoader(model, modelExists).Success?
    ensures var o := MainModelLoader(model, modelExists).value;
      var r := LoraLoader(LoraLoaderInvocation(Some(lora), weight, Some(o.unet), Some(o.clip)), modelExists);
      r.Success? <==> modelExists(lora.modelName, lora.baseModel, Lora)
  {
  }

  /** Applying an SDXL LoRA keeps well-formed fields well formed. */
  lemma SDXLLoraLoaderKeepsWellFormed(node: SDXLLoraLoaderInvocation, modelExists: ModelExists)
    requires SDXLLoraLoader(node, modelExists).Success?
    requires node.unet.Some? ==> WellFormedUNet(node.unet.value)
    requires node.clip.Some? ==> WellFormedClip(node.clip.value)
    requires node.clip2.Some? ==> WellFormedClip(node.clip2.value)
    ensures var o := SDXLLoraLoader(node, modelExists).value;
      (o.unet.Some? ==> WellFormedUNet(o.unet.value)) &&
      (o.clip.Some? ==> WellFormedClip(o.clip.value)) &&
      (o.clip2.Some? ==> WellFormedClip(o.clip2.value))
  {
    var entry := LoraEntry(node.lora.value, node.weight);
    if node.unet.Some? {
      AppendKeepsWellFormed(node.unet.value.loras, entry);
    }
    if node.clip.Some? {
      AppendKeepsWellFormed(node.clip.value.loras, entry);
    }
    if node.clip2.Some? {
      AppendKeepsWellFormed(node.clip2.value.loras, entry);
    }
  }

  /** The SDXL loader keeps distinct LoRA names distinct in each of its three fields; nothing else about the fields is assumed. */
  lemma SDXLLoraLoaderKeepsDistinctNames(node: SDXLLoraLoaderInvocation, modelExists: ModelExists)
    requires SDXLLoraLoader(node, modelExists).Success?
    requires node.unet.Some? ==> DistinctNames(node.unet.value.loras)
    requires node.clip.Some? ==> DistinctNames(node.clip.value.loras)
    requires node.clip2.Some? ==> DistinctNames(node.clip2.value.loras)
    ensures var o := SDXLLoraLoader(node, modelExists).value;
      (o.unet.Some? ==> DistinctNames(o.unet.value.loras)) &&
      (o.clip.Some? ==> DistinctNames(o.clip.value.loras)) &&
      (o.clip2.Some? ==> DistinctNames(o.clip2.value.loras))
  {
  }

  /** With no second CLIP field the SDXL loader does exactly what the plain LoRA loader does. */
  lemma SDXLWithoutClip2MatchesLoraLoader(lora: Option<LoRAModelField>, weight: Float, unet: Option<UNetField>, clip: Option<ClipField>, modelExists: ModelExists)
    ensures var sdxl := SDXLLoraLoader(SDXLLoraLoaderInvocation(lora, weight, unet, clip, None), modelExists);
      var plain := LoraLoader(LoraLoaderInvocation(lora, weight, unet, clip), modelExists);
      (sdxl.Success? <==> plain.Success?) &&
      (sdxl.Failure? ==> sdxl.error == plain.error) &&
      (sdxl.Success? ==>
         sdxl.value.unet == plain.value.unet && sdxl.value.clip == plain.value.clip && sdxl.value.clip2 == None)
  {
  }

  // ---------------------------------------------------------------------
  // Seamless and FreeU

  /** Seamless settings keep a well-formed UNet and VAE well formed. */
  lemma SeamlessModeKeepsWellFormed(node: SeamlessModeInvocation)
    requires node.unet.Some? ==> WellFormedUNet(node.unet.value)
    requires node.vae.Some? ==> WellFormedVae(node.vae.value)
    ensures var o := SeamlessMode(node);
      (o.unet.Some? ==> WellFormedUNet(o.unet.value)) &&
      (o.vae.Some? ==> WellFormedVae(o.vae.value))
  {
  }

  /** A second seamless node overrides the first: only the last settings remain. */
  lemma SeamlessModeLastWins(first: SeamlessModeInvocation, second: SeamlessModeInvocation)
    requires second.unet == SeamlessMode(first).unet && second.vae == SeamlessMode(first).vae
    ensures SeamlessMode(second) == SeamlessMode(first.(
      seamlessX := second.seamlessX, seamlessY := second.seamlessY, skippedLayers := second.skippedLayers,
      skipSecondResnet := second.skipSecondResnet, skipConv2 := second.skipConv2))
  {
  }

  /** Running the same seamless node again on its own output changes nothing. */
  lemma SeamlessModeIdempotent(node: SeamlessModeInvocation)
    ensures var o := SeamlessMode(node);
      SeamlessMode(node.(unet := o.unet, vae := o.vae)) == o
  {
  }

  /** FreeU keeps a well-formed UNet well formed. */
  lemma FreeUKeepsWellFormed(node: FreeUInvocation)
    requires WellFormedUNet(node.unet)
    ensures WellFormedUNet(FreeU(node).unet)
  {
  }

  /** A second FreeU node overrides the first. */
  lemma FreeULastWins(first: FreeUInvocation, b1: Float, b2: Float, s1: Float, s2: Float)
    ensures FreeU(FreeUInvocation(FreeU(first).unet, b1, b2, s1, s2))
         == FreeU(FreeUInvocation(first.unet, b1, b2, s1, s2))
  {
  }

  /** FreeU and seamless settings touch different parts of a UNet, so their order does not matter. */
  lemma FreeUCommutesWithSeamless(node: SeamlessModeInvocation, u: UNetField, b1: Float, b2: Float, s1: Float, s2: Float)
    requires node.unet == Some(u)
    ensures var freeuFirst := SeamlessMode(node.(unet := Some(FreeU(FreeUInvocation(u, b1, b2, s1, s2)).unet)));
      var seamlessFirst := FreeU(FreeUInvocation(SeamlessMode(node).unet.value, b1, b2, s1, s2));
      freeuFirst.unet == Some(seamlessFirst.unet)
  {
  }

  /** FreeU and a LoRA touch different parts of a UNet, so their order does not matter. */
  lemma FreeUCommutesWithLoraLoader(node: LoraLoaderInvocation, u: UNetField, b1: Float, b2: Float, s1: Float, s2: Float, modelExists: ModelExists)
    requires node.unet == Some(u)
    ensures var tuned := FreeU(FreeUInvocation(u, b1, b2, s1, s2)).unet;
      var freeuFirst := LoraLoader(node.(unet := Some(tuned)), modelExists);
      var loraFirst := LoraLoader(node, modelExists);
      (freeuFirst.Success? <==> loraFirst.Success?) &&
      (freeuFirst.Success? ==>
         freeuFirst.value.unet == Some(FreeU(FreeUInvocation(loraFirst.value.unet.value, b1, b2, s1, s2)).unet))
  {
  }
}
