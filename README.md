# Model-field nodes of InvokeAI's graph layer

This project models the graph nodes in `invokeai/app/invocations/model.py` that load models and pass "model field" records along a generation graph. The records are:

- `ModelInfo`, which says how to load one (sub)model;
- `LoraInfo`, a `ModelInfo` with a weight;
- `UNetField`, `ClipField` and `VaeField`, with their LoRA lists and their optional FreeU and seamless settings.

Each node's `invoke` is modelled as a total function. It takes the node's inputs (a datatype per node class) and, for the loaders, the model manager's `model_exists` query as a function parameter. A node that can raise returns `Result<Output, Error>`. Each `raise` in the source is an `Error` constructor; the constructors for a missing LoRA, an unknown LoRA and an already-applied LoRA each stand for the matching raises of both LoRA loaders. The seamless and FreeU nodes never raise, so they return their output directly.

The LoRA and seamless nodes deep-copy their input records and then append to or assign fields of the copies. FreeU instead assigns a field of its input record (see its line under "## Left out"). Here every record is a value, so that becomes sequence concatenation and datatype update. The property "the inputs are never changed" is therefore built into the model. What is stated and proved instead is that the output equals the input apart from the one field the node sets.

Files:

- `wrappers.dfy`: `Option` and `Result`.
- `fields.dfy` (module `ModelFields`): the records, the duplicate-name test `HasLora`, and the well-formedness predicates. Those predicates say what the loaders build: distinct LoRA names, each LoRA entry typed `Lora` with no submodel, submodels matching their slots, and seamless axes drawn from x and y with x first.
- `invocations.dfy` (module `Invocations`): one function per node.
- `properties.dfy` (module `InvocationProperties`): lemmas relating several invocations. They show that the loaders build well-formed records and that the other nodes keep them well-formed. They show that a LoRA cannot be applied twice to a connected field, that the SDXL loader agrees with the plain one, and that several nodes are idempotent, last-write-wins or commute with each other.

## Model

| member | source | states |
|---|---|---|
| ModelFields.HasLora | invokeai/app/invocations/model.py:249 | the duplicate test is true exactly when some entry of the list has the given `model_name`; only names are compared |
| Invocations.MainModelLoader | invokeai/app/invocations/model.py:123-205 | fails with the unknown-model error exactly when the manager does not know (name, base, Main). On success all five descriptors carry the input name, the input base, type Main and the submodels UNet, Scheduler, Tokenizer, TextEncoder and Vae. Both LoRA lists are empty, `skipped_layers` is 0, and FreeU and seamless are absent |
| Invocations.LoraLoader | invokeai/app/invocations/model.py:235-281 | the errors in source order: no LoRA, then unknown LoRA, then already applied to the UNet, then already applied to CLIP. It succeeds exactly when none of them applies. On success each connected field is its input with exactly `LoraInfo(name, base, Lora, None, weight)` appended and every other field unchanged; an absent field stays absent |
| Invocations.SDXLLoraLoader | invokeai/app/invocations/model.py:324-385 | the same as the LoRA loader, over three optional fields (unet, clip, clip2): a duplicate in any connected field is an error, and each connected field gets exactly one appended entry |
| Invocations.VaeLoader | invokeai/app/invocations/model.py:407-426 | fails with the unknown-VAE error exactly when the manager does not know (name, base, Vae). On success the field describes that VAE model with no submodel and no seamless settings |
| Invocations.SeamlessAxes | invokeai/app/invocations/model.py:472-477 | the axes list has one entry per set flag. It contains "x" iff `seamless_x` and "y" iff `seamless_y`, and an "x" always precedes a "y" |
| Invocations.SeamlessMode | invokeai/app/invocations/model.py:467-494 | connected UNet and VAE fields receive identical seamless settings built from the node's inputs, and their other fields are unchanged; absent inputs stay absent |
| Invocations.FreeU | invokeai/app/invocations/model.py:513-515 | the output UNet has FreeU config (s1, s2, b1, b2), and everything else in it equals the input UNet |
| InvocationProperties.AppendKeepsWellFormed | invokeai/app/invocations/model.py:249-267 | appending an entry whose name passed the duplicate test keeps the names distinct, and the new name then occurs only at the end |
| InvocationProperties.MainModelLoaderWellFormed | invokeai/app/invocations/model.py:165-205 | a loaded main model yields well-formed UNet, CLIP and VAE fields |
| InvocationProperties.MainModelLoaderIgnoresModelType | invokeai/app/invocations/model.py:124-126 | the loader's result does not depend on the `model_type` of its input; the model is always loaded as Main |
| InvocationProperties.VaeLoaderWellFormed | invokeai/app/invocations/model.py:418-426 | a loaded VAE yields a well-formed VAE field |
| InvocationProperties.LoraLoaderKeepsWellFormed | invokeai/app/invocations/model.py:249-279 | if the connected inputs are well formed (so their LoRA names are distinct), the outputs are well formed too |
| InvocationProperties.LoraLoaderKeepsDistinctNames | invokeai/app/invocations/model.py:249-279 | if the LoRA names of each connected input are distinct, those of each connected output are distinct too; no other condition on the fields is needed |
| InvocationProperties.LoraLoaderNameOccursOnce | invokeai/app/invocations/model.py:249-279 | after success the applied name occurs exactly once in each connected field's list, at the end, even if the input list had duplicate names of its own |
| InvocationProperties.LoraLoaderRejectsReapply | invokeai/app/invocations/model.py:249-253 | feeding the output back in with a LoRA of the same name fails with "already applied", whatever the base model or weight. The UNet is checked before CLIP. The second call succeeds iff no field is connected |
| InvocationProperties.LoadedModelAcceptsKnownLora | invokeai/app/invocations/model.py:179-194 | the fields of a freshly loaded main model accept a LoRA iff the manager knows it |
| InvocationProperties.SDXLLoraLoaderKeepsWellFormed | invokeai/app/invocations/model.py:338-383 | the SDXL loader keeps well-formed fields well formed |
| InvocationProperties.SDXLLoraLoaderKeepsDistinctNames | invokeai/app/invocations/model.py:338-383 | the SDXL loader keeps distinct LoRA names distinct in each connected field among unet, clip and clip2 |
| InvocationProperties.SDXLWithoutClip2MatchesLoraLoader | invokeai/app/invocations/model.py:324-385 | with no second CLIP field the SDXL loader gives the same errors and the same outputs as the plain loader |
| InvocationProperties.SeamlessModeKeepsWellFormed | invokeai/app/invocations/model.py:479-492 | the seamless node keeps well-formed UNet and VAE fields well formed |
| InvocationProperties.SeamlessModeLastWins | invokeai/app/invocations/model.py:479-492 | a second seamless node replaces the first one's settings completely |
| InvocationProperties.SeamlessModeIdempotent | invokeai/app/invocations/model.py:467-494 | running the same seamless node on its own output changes nothing |
| InvocationProperties.FreeUKeepsWellFormed | invokeai/app/invocations/model.py:513-515 | FreeU keeps a well-formed UNet well formed |
| InvocationProperties.FreeULastWins | invokeai/app/invocations/model.py:513-515 | a second FreeU node replaces the first one's configuration |
| InvocationProperties.FreeUCommutesWithSeamless | invokeai/app/invocations/model.py:479-485 | FreeU and seamless settings commute on a UNet |
| InvocationProperties.FreeUCommutesWithLoraLoader | invokeai/app/invocations/model.py:257-267 | applying a LoRA and FreeU commute on a UNet, including whether the LoRA loader fails |

## Left out

- `invokeai/app/services/invocation_services.py` is not part of this model: it only gathers services into one object.
- `model_exists` is the model manager's query. It is outside this model and is a function parameter of the loaders.
- The enumerations `BaseModelType`, `ModelType` and `SubModelType` are defined outside this model. A base model is kept as its name. Only the model types and submodel types this file uses have constructors of their own; every other member of those enumerations falls under a catch-all constructor.
- Floating-point inputs (the LoRA weight and FreeU's b1, b2, s1 and s2) are passed through as opaque values. They are declared as `real`, which cannot represent the NaN and infinite values a Python float weight may hold; no member depends on that difference. The `ge=-1, le=3` bounds on the FreeU inputs are enforced by input validation before `invoke` runs, so they are not modelled.
- The input defaults are left out: weight 0.75, seamless flags and skip flags true, skipped layers 0, and the FreeU defaults. They fill in missing node inputs and are not part of `invoke`. Registration decorators and field metadata are left out too.
- The exception message texts are left out. Each `raise` is an `Error` constructor carrying the names it reports.
- Invocations.FreeU: the source assigns `freeu_config` on the node's own input record and returns that same object. The model returns an updated copy, so the change the source makes to its input record is not captured.
- Invocations.SeamlessMode: the source gives the copied UNet and VAE one shared axes list object. The model gives them equal values, so that sharing is not captured.
- The block commented out as a string at model.py:136-163 is dead code and is not modelled.
