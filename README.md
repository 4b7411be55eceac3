# Image-based lighting extensions of the glTF serialiser, in Dafny

This project models the part of UnityGLTF's glTF serialisation library that
handles image-based lighting. The library has two variants of the extension:
`EXT_lights_image_based` and `MMP_lights_image_based`. For each
variant, the model covers:

- **Light records** (`ImageBasedLight`, `MMPImageBasedLight`). A light writes
  itself field by field to a JSON writer, eliding `name` when it is null and
  `rotation` when it is the identity. Where they differ:
  - EXT writes an N x 6 grid of specular image ids.
  - MMP writes a single image id and, last, its `extras` bag.
- **The copy constructor** that cloning a document uses.
- **Containers** (`EXT_LightsImageBasedExtension`, `MMP_LightsImageBasedExtension`).
  Each is the document-level list of lights, with `Clone` and `Serialize`. The
  latter writes `{"<extension name>": {"lights": [...]}}`.
- **Light handles** (`ImageBasedLightId`, `MMPImageBasedLightId`). A handle is an
  index scoped to a glTF root. It resolves by looking up the root's extension
  table by name and indexing the container's list.
- **Scene extensions**, each holding one handle. A scene extension clones into a
  new root and writes `{"<extension name>": {"light": id}}`.
- **Factories**, which hold the name constants and read a container from a
  document. They ignore the document and return an empty container.

Modules, from the bottom up:

| module | file | content |
|---|---|---|
| `Wrappers` | wrappers.dfy | `Option` and `Result` |
| `GltfHost` | gltf_host.dfy | Stand-ins for host types: `Double`, `Quaternion` and `Identity`, `Extras`, `ImageId`, and the exceptions as `Error` |
| `JsonTokens` | json_tokens.dfy | The JSON writer as a class holding the token stream it has received, an ordered JSON value type and its token encoding, and a strict reference reader with its round-trip lemmas |
| `LightFields` | light_fields.dfy | The shared rotation and 9x3 coefficient encodings, their writer loops and their readers |
| `ExtImageBasedLight` | ext_image_based_light.dfy | The EXT light record |
| `MmpImageBasedLight` | mmp_image_based_light.dfy | The MMP light record |
| `LightsImageBased` | lights_image_based.dfy | The root's extension table, the containers, handles, scene extensions and factories |

Each light has a function `Members()`, the ordered list of JSON members its
`Serialize` writes. `Serialize` is a method of the light datatype that appends
to a `JsonWriter`. Its contract says it appends exactly `[StartObject] + EncodeMembers(Members())`. The lemmas then pin
down the following:

- the keys, their order and their presence conditions (`KeysInOrder`, `OptionalKeysIff`);
- each key's value (`MembersLookup`);
- that a conformant reader recovers every written field (`WireRoundTrip`);
- that the object is left open (`TokensLeaveObjectOpen`).

In the root's extension table, each entry is tagged by the class of the
registered object. A C# `as` cast to the wrong container class gives null, and
the member access that follows then fails. The model records that as
`NullReference`.

## Model

Paths in the source column are relative to the repository root. Write
`EXT.cs` for `GLTFSerialization/GLTFSerialization/Extensions/EXT_LightsImageBasedExtension.cs`;
the table spells every path out.

| member | source | states |
|---|---|---|
| LightFields.Coefficients9x3 | GLTFSerialization/GLTFSerialization/Extensions/EXT_LightsImageBasedExtension.cs:143-150 | The grid that reaches the wire has exactly 9 rows of exactly 3 values; row x is entries 0..2 of source row x; extra rows and columns are dropped |
| LightFields.WriteRotation | GLTFSerialization/GLTFSerialization/Extensions/EXT_LightsImageBasedExtension.cs:126-131 | The writer receives exactly the rotation array, in the order X, Y, Z, W |
| LightFields.WriteCoefficients | GLTFSerialization/GLTFSerialization/Extensions/EXT_LightsImageBasedExtension.cs:142-151 | The 9-row loop appends exactly the encoding of the 9x3 coefficient array |
| LightFields.WriteCoefficientRow | GLTFSerialization/GLTFSerialization/Extensions/EXT_LightsImageBasedExtension.cs:145-149 | One row is written as exactly its entries 0, 1 and 2 |
| LightFields.RotationTokens | GLTFSerialization/GLTFSerialization/Extensions/EXT_LightsImageBasedExtension.cs:126-131 | The rotation value is StartArray, X, Y, Z, W, EndArray and nothing else |
| LightFields.CoefficientRowTokens | GLTFSerialization/GLTFSerialization/Extensions/EXT_LightsImageBasedExtension.cs:145-149 | A coefficient row is StartArray, entries 0, 1, 2, EndArray |
| LightFields.RotationElisionLossless | GLTFSerialization/GLTFSerialization/Extensions/EXT_LightsImageBasedExtension.cs:123-132 | Eliding the identity rotation loses nothing: a reader that defaults a missing rotation to the identity recovers every rotation |
| LightFields.CoefficientsRoundTrip | GLTFSerialization/GLTFSerialization/Extensions/EXT_LightsImageBasedExtension.cs:141-151 | The written coefficients read back as exactly the 9x3 part of the grid |
| ExtImageBasedLight.ImageBasedLight.Serialize | GLTFSerialization/GLTFSerialization/Extensions/EXT_LightsImageBasedExtension.cs:111-171 | The writer receives StartObject and then the light's members in order, with no EndObject |
| ExtImageBasedLight.ImageBasedLight.WriteOptionalMembers | GLTFSerialization/GLTFSerialization/Extensions/EXT_LightsImageBasedExtension.cs:116-132 | `name` is written only when the light name is set, and `rotation` only when it is not the identity |
| ExtImageBasedLight.ImageBasedLight.WriteRequiredMembers | GLTFSerialization/GLTFSerialization/Extensions/EXT_LightsImageBasedExtension.cs:135-169 | intensity, irradianceCoefficients, specularImages and specularImageSize are written in that order, whatever their values |
| ExtImageBasedLight.ImageBasedLight.WriteIrradianceMembers | GLTFSerialization/GLTFSerialization/Extensions/EXT_LightsImageBasedExtension.cs:135-151 | `intensity` and then the 9x3 `irradianceCoefficients` are written |
| ExtImageBasedLight.ImageBasedLight.WriteSpecularMembers | GLTFSerialization/GLTFSerialization/Extensions/EXT_LightsImageBasedExtension.cs:153-169 | `specularImages` and then `specularImageSize` are written |
| ExtImageBasedLight.ImageBasedLight.WriteSpecularImages | GLTFSerialization/GLTFSerialization/Extensions/EXT_LightsImageBasedExtension.cs:155-165 | The nested loops append one array per mip level, holding the ids of that level's images 0..5 |
| ExtImageBasedLight.ImageBasedLight.WriteSpecularRow | GLTFSerialization/GLTFSerialization/Extensions/EXT_LightsImageBasedExtension.cs:158-163 | The inner loop appends one array of exactly the ids of images 0..5 of one mip level |
| ExtImageBasedLight.ImageBasedLight.SerializeClosed | GLTFSerialization/GLTFSerialization/Extensions/EXT_LightsImageBasedExtension.cs:111-171 | Corrected writer: the same members, with the object closed |
| ExtImageBasedLight.ImageBasedLight.RebindImages | GLTFSerialization/GLTFSerialization/Extensions/EXT_LightsImageBasedExtension.cs:106 | Corrected copy: the grid keeps its shape and ids, and every handle is scoped to the new root |
| ExtImageBasedLight.KeysInOrder | GLTFSerialization/GLTFSerialization/Extensions/EXT_LightsImageBasedExtension.cs:116-169 | The keys are `name` (if set), then `rotation` (if not the identity), then intensity, irradianceCoefficients, specularImages, specularImageSize |
| ExtImageBasedLight.MembersLookup | GLTFSerialization/GLTFSerialization/Extensions/EXT_LightsImageBasedExtension.cs:116-169 | Each key's value in the written object, and absence for an elided optional key |
| ExtImageBasedLight.OptionalKeysIff | GLTFSerialization/GLTFSerialization/Extensions/EXT_LightsImageBasedExtension.cs:116-132 | `name` is present iff the light name is non-null; `rotation` is present iff the rotation is not the identity, and is then exactly [X, Y, Z, W] |
| ExtImageBasedLight.SpecularShape | GLTFSerialization/GLTFSerialization/Extensions/EXT_LightsImageBasedExtension.cs:156-164 | specularImages has one row per mip level, each of exactly the first six image ids |
| ExtImageBasedLight.WireRoundTrip | GLTFSerialization/GLTFSerialization/Extensions/EXT_LightsImageBasedExtension.cs:111-171 | Reading the written members back recovers the name or its absence, the rotation, the intensity, the 9x3 coefficients, the N x 6 ids and the size |
| ExtImageBasedLight.ClosedTokensParse | GLTFSerialization/GLTFSerialization/Extensions/EXT_LightsImageBasedExtension.cs:114-169 | The written tokens plus one EndObject are the encoding of the light's object, and a strict reader reads that object back |
| ExtImageBasedLight.TokensLeaveObjectOpen | GLTFSerialization/GLTFSerialization/Extensions/EXT_LightsImageBasedExtension.cs:114-169 | The tokens a light writes leave exactly one object open |
| ExtImageBasedLight.ImageBasedLight.CopyFrom | GLTFSerialization/GLTFSerialization/Extensions/EXT_LightsImageBasedExtension.cs:99-109 | The copy constructor as written: LightName is the source's Name when LightName is set, else null; the image grid is the source's own; the copy equals its source iff LightName is null or equal to Name |
| ExtImageBasedLight.ImageBasedLight.CopyFromIntended | GLTFSerialization/GLTFSerialization/Extensions/EXT_LightsImageBasedExtension.cs:99-109 | Corrected copy: LightName is the source's LightName and every image handle is scoped to the destination root |
| ExtImageBasedLight.CopyFromEffect | GLTFSerialization/GLTFSerialization/Extensions/EXT_LightsImageBasedExtension.cs:99-109 | The copy constructor as written: Name, Extras, Rotation, Intensity, IrradianceCoefficients and SpecularImageSize are copied unchanged; LightName becomes the inherited Name when LightName is set; the copy shares the image handles (still scoped to the old root); the copy is written like its source iff LightName is null or equal to Name |
| ExtImageBasedLight.CopyFromIntendedEffect | GLTFSerialization/GLTFSerialization/Extensions/EXT_LightsImageBasedExtension.cs:99-109 | The corrected copy keeps every field but the image roots, is written exactly like its source, and has every image scoped to the new root |
| MmpImageBasedLight.MMPImageBasedLight.Serialize | GLTFSerialization/GLTFSerialization/Extensions/MMP_LightsImageBasedExtension.cs:103-160 | The writer receives StartObject and then the light's members in order, extras last when set, with no EndObject |
| MmpImageBasedLight.MMPImageBasedLight.WriteOptionalMembers | GLTFSerialization/GLTFSerialization/Extensions/MMP_LightsImageBasedExtension.cs:108-124 | `name` is written only when the light name is set, and `rotation` only when it is not the identity |
| MmpImageBasedLight.MMPImageBasedLight.WriteRequiredMembers | GLTFSerialization/GLTFSerialization/Extensions/MMP_LightsImageBasedExtension.cs:127-151 | intensity, irradianceCoefficients, specularImage (one integer) and specularImageSize are written in that order, whatever their values |
| MmpImageBasedLight.MMPImageBasedLight.WriteIrradianceMembers | GLTFSerialization/GLTFSerialization/Extensions/MMP_LightsImageBasedExtension.cs:128-143 | `intensity` and then the 9x3 `irradianceCoefficients` are written |
| MmpImageBasedLight.MMPImageBasedLight.WriteSpecularMembers | GLTFSerialization/GLTFSerialization/Extensions/MMP_LightsImageBasedExtension.cs:146-151 | `specularImage` (one integer id) and then `specularImageSize` are written |
| MmpImageBasedLight.MMPImageBasedLight.WriteExtrasMembers | GLTFSerialization/GLTFSerialization/Extensions/MMP_LightsImageBasedExtension.cs:154-158 | `extras` is written, as the whole bag, iff the light has one |
| MmpImageBasedLight.MMPImageBasedLight.SerializeClosed | GLTFSerialization/GLTFSerialization/Extensions/MMP_LightsImageBasedExtension.cs:103-160 | Corrected writer: the same members, with the object closed |
| MmpImageBasedLight.KeysInOrder | GLTFSerialization/GLTFSerialization/Extensions/MMP_LightsImageBasedExtension.cs:108-158 | The keys are `name` (if set), `rotation` (if not the identity), then intensity, irradianceCoefficients, specularImage, specularImageSize, then `extras` (if set) |
| MmpImageBasedLight.LeadingMembersLookup | GLTFSerialization/GLTFSerialization/Extensions/MMP_LightsImageBasedExtension.cs:108-151 | Each key's value among the members written before extras, with `extras` absent from them |
| MmpImageBasedLight.MembersLookup | GLTFSerialization/GLTFSerialization/Extensions/MMP_LightsImageBasedExtension.cs:108-158 | Each key's value in the written object, and absence for an elided optional key |
| MmpImageBasedLight.OptionalKeysIff | GLTFSerialization/GLTFSerialization/Extensions/MMP_LightsImageBasedExtension.cs:108-158 | `name` is present iff the light name is set; `rotation` iff it is not the identity, and then exactly [X, Y, Z, W]; `extras` iff the bag is set |
| MmpImageBasedLight.WireRoundTrip | GLTFSerialization/GLTFSerialization/Extensions/MMP_LightsImageBasedExtension.cs:103-160 | Reading the written members back recovers every written field, including the image id and the extras bag or its absence |
| MmpImageBasedLight.ClosedTokensParse | GLTFSerialization/GLTFSerialization/Extensions/MMP_LightsImageBasedExtension.cs:106-158 | The written tokens plus one EndObject are the encoding of the light's object, and a strict reader reads that object back |
| MmpImageBasedLight.TokensLeaveObjectOpen | GLTFSerialization/GLTFSerialization/Extensions/MMP_LightsImageBasedExtension.cs:106-158 | The tokens a light writes leave exactly one object open |
| MmpImageBasedLight.MMPImageBasedLight.CopyFrom | GLTFSerialization/GLTFSerialization/Extensions/MMP_LightsImageBasedExtension.cs:91-101 | The copy constructor as written: LightName is the source's Name when LightName is set, else null; the image handle is the source's own; the copy equals its source iff LightName is null or equal to Name |
| MmpImageBasedLight.MMPImageBasedLight.CopyFromIntended | GLTFSerialization/GLTFSerialization/Extensions/MMP_LightsImageBasedExtension.cs:91-101 | Corrected copy: LightName is the source's LightName and the image handle keeps its id, scoped to the destination root |
| MmpImageBasedLight.CopyFromEffect | GLTFSerialization/GLTFSerialization/Extensions/MMP_LightsImageBasedExtension.cs:91-101 | The copy constructor as written: Name, Extras, Rotation, Intensity, IrradianceCoefficients and SpecularImageSize are copied unchanged; LightName becomes the inherited Name when LightName is set; the copy shares the image handle; the copy is written like its source iff LightName is null or equal to Name |
| MmpImageBasedLight.CopyFromIntendedEffect | GLTFSerialization/GLTFSerialization/Extensions/MMP_LightsImageBasedExtension.cs:91-101 | The corrected copy keeps every field but the image root, is written exactly like its source, and has its image scoped to the new root |
| LightsImageBased.ExtLightsImageBasedExtensionFactory.constructor | GLTFSerialization/GLTFSerialization/Extensions/EXT_LightsImageBasedExtensionFactory.cs:19-22 | After construction the factory's extension name is "EXT_lights_image_based" |
| LightsImageBased.ExtLightsImageBasedExtensionFactory.Deserialize | GLTFSerialization/GLTFSerialization/Extensions/EXT_LightsImageBasedExtensionFactory.cs:24-27 | Whatever the root and token, the result is a new container with no lights |
| LightsImageBased.MmpLightsImageBasedExtensionFactory.constructor | GLTFSerialization/GLTFSerialization/Extensions/MMP_LightsImageBasedExtensionFactory.cs:18-21 | After construction the factory's extension name is "MMP_lights_image_based" |
| LightsImageBased.MmpLightsImageBasedExtensionFactory.Deserialize | GLTFSerialization/GLTFSerialization/Extensions/MMP_LightsImageBasedExtensionFactory.cs:23-26 | Whatever the root and token, the result is a new container with no lights |
| LightsImageBased.EmptyPropertyWellFormed | GLTFSerialization/GLTFSerialization/Extensions/EXT_LightsImageBasedExtensionFactory.cs:24-27 | A container with no lights, which is what either factory returns, is written as exactly `"NAME": {"lights": []}`, so lights never survive a read and write |
| LightsImageBased.ExtLightsImageBasedExtension.constructor | GLTFSerialization/GLTFSerialization/Extensions/EXT_LightsImageBasedExtension.cs:15-18 | A new container has no lights |
| LightsImageBased.ExtLightsImageBasedExtension.AddLight | GLTFSerialization/GLTFSerialization/Extensions/EXT_LightsImageBasedExtension.cs:25 | `Lights.Add` appends one light at the end |
| LightsImageBased.ExtLightsImageBasedExtension.Clone | GLTFSerialization/GLTFSerialization/Extensions/EXT_LightsImageBasedExtension.cs:20-28 | As written: the copy loop runs, but the result is a new container with zero lights, whatever the source holds |
| LightsImageBased.ExtLightsImageBasedExtension.CloneIntended | GLTFSerialization/GLTFSerialization/Extensions/EXT_LightsImageBasedExtension.cs:20-28 | Corrected clone: a new container holding the corrected copy of every light, in order |
| LightsImageBased.ExtLightsImageBasedExtension.Serialize | GLTFSerialization/GLTFSerialization/Extensions/EXT_LightsImageBasedExtension.cs:30-45 | The result is one property "EXT_lights_image_based" whose object has the single key "lights", holding an array with one unclosed object per light, in list order |
| LightsImageBased.ExtLightsImageBasedExtension.SerializeIntended | GLTFSerialization/GLTFSerialization/Extensions/EXT_LightsImageBasedExtension.cs:30-45 | Corrected writer: the property is the encoding of `{"EXT_lights_image_based": {"lights": [light objects]}}`, with every object closed |
| LightsImageBased.MmpLightsImageBasedExtension.constructor | GLTFSerialization/GLTFSerialization/Extensions/MMP_LightsImageBasedExtension.cs:16-19 | A new container has no lights |
| LightsImageBased.MmpLightsImageBasedExtension.AddLight | GLTFSerialization/GLTFSerialization/Extensions/MMP_LightsImageBasedExtension.cs:26 | `Lights.Add` appends one light at the end |
| LightsImageBased.MmpLightsImageBasedExtension.Clone | GLTFSerialization/GLTFSerialization/Extensions/MMP_LightsImageBasedExtension.cs:21-29 | The result is a new container with the same number of lights, in order, each made by the copy constructor |
| LightsImageBased.MmpLightsImageBasedExtension.CloneIntended | GLTFSerialization/GLTFSerialization/Extensions/MMP_LightsImageBasedExtension.cs:21-29 | Corrected clone: each light copied with its own light name, and its image scoped to the new root |
| LightsImageBased.MmpLightsImageBasedExtension.Serialize | GLTFSerialization/GLTFSerialization/Extensions/MMP_LightsImageBasedExtension.cs:31-46 | The result is one property "MMP_lights_image_based" whose object has the single key "lights", holding one unclosed object per light, in list order |
| LightsImageBased.MmpLightsImageBasedExtension.SerializeIntended | GLTFSerialization/GLTFSerialization/Extensions/MMP_LightsImageBasedExtension.cs:31-46 | Corrected writer: the encoding of `{"MMP_lights_image_based": {"lights": [light objects]}}`, with every object closed |
| LightsImageBased.LightsArrayParsesIffEmpty | GLTFSerialization/GLTFSerialization/Extensions/EXT_LightsImageBasedExtension.cs:33-38 | The stream of writer calls for the lights array is accepted by the strict reader (one that requires every object to be closed by its own EndObject) iff it holds no light; when empty it reads as `[]` |
| LightsImageBased.LightsArrayDepth | GLTFSerialization/GLTFSerialization/Extensions/EXT_LightsImageBasedExtension.cs:33-38 | The lights array as written leaves exactly one object open per light |
| LightsImageBased.ExtIntendedRoundTrip | GLTFSerialization/GLTFSerialization/Extensions/EXT_LightsImageBasedExtension.cs:30-45 | The corrected property reads back as itself; its "lights" array holds one object per light, in order, and each object reads back as that light's written fields |
| LightsImageBased.MmpIntendedRoundTrip | GLTFSerialization/GLTFSerialization/Extensions/MMP_LightsImageBasedExtension.cs:31-46 | Same as ExtIntendedRoundTrip, for the MMP container |
| LightsImageBased.ExtCopiesWrittenAsSource | GLTFSerialization/GLTFSerialization/Extensions/EXT_LightsImageBasedExtension.cs:99-109 | The lights a clone copies are written like the originals iff every light's LightName is null or equal to its Name |
| LightsImageBased.ExtIntendedCopiesWrittenAsSource | GLTFSerialization/GLTFSerialization/Extensions/EXT_LightsImageBasedExtension.cs:99-109 | The corrected copies are always written exactly like the originals |
| LightsImageBased.MmpCopiesWrittenAsSource | GLTFSerialization/GLTFSerialization/Extensions/MMP_LightsImageBasedExtension.cs:91-101 | The lights `Clone` returns are written like the originals iff every light's LightName is null or equal to its Name |
| LightsImageBased.MmpIntendedCopiesWrittenAsSource | GLTFSerialization/GLTFSerialization/Extensions/MMP_LightsImageBasedExtension.cs:91-101 | The corrected copies are always written exactly like the originals |
| LightsImageBased.ImageBasedLightId.Value | GLTFSerialization/GLTFSerialization/Extensions/EXT_LightsImageBasedExtension.cs:186-200 | Returns light `Id` of the EXT container iff the root has an EXT container under "EXT_lights_image_based" and Id is in range. Otherwise: a missing key gives the "EXT_lights_image_based not found on root object" exception, another class gives a null dereference, and an out-of-range Id gives an index error |
| LightsImageBased.ImageBasedLightId.CopyFrom | GLTFSerialization/GLTFSerialization/Extensions/EXT_LightsImageBasedExtension.cs:182-184 | The copy has the same index and is scoped to the new root |
| LightsImageBased.ImageBasedLightId.Deserialize | GLTFSerialization/GLTFSerialization/Extensions/EXT_LightsImageBasedExtension.cs:202-209 | Succeeds iff the next token is an integer. It then yields that index scoped to the given root; a null token fails as `.Value` of an empty nullable does |
| LightsImageBased.MmpImageBasedLightId.Value | GLTFSerialization/GLTFSerialization/Extensions/MMP_LightsImageBasedExtension.cs:175-189 | As written: looks up "EXT_lights_image_based", not the MMP name. Succeeds iff that entry is an MMP container and Id is in range. A missing key gives the MMP not-found message, an entry of another class a null dereference, and an out-of-range Id an index error |
| LightsImageBased.MmpImageBasedLightId.ValueIntended | GLTFSerialization/GLTFSerialization/Extensions/MMP_LightsImageBasedExtension.cs:175-189 | Corrected lookup under "MMP_lights_image_based", with the same failure cases |
| LightsImageBased.MmpImageBasedLightId.CopyFrom | GLTFSerialization/GLTFSerialization/Extensions/MMP_LightsImageBasedExtension.cs:171-173 | The copy has the same index and is scoped to the new root |
| LightsImageBased.MmpImageBasedLightId.Deserialize | GLTFSerialization/GLTFSerialization/Extensions/MMP_LightsImageBasedExtension.cs:191-198 | Succeeds iff the next token is an integer, giving that index scoped to the root; a null token fails |
| LightsImageBased.MmpValueMissesMmpEntry | GLTFSerialization/GLTFSerialization/Extensions/MMP_LightsImageBasedExtension.cs:179-187 | As written, Value fails with the MMP not-found message when nothing is registered under the EXT name, whatever is under the MMP name. With the EXT container registered, it fails on the null cast |
| LightsImageBased.MmpValueIntendedFinds | GLTFSerialization/GLTFSerialization/Extensions/MMP_LightsImageBasedExtension.cs:175-189 | For a root holding only an MMP container and an in-range index, the corrected lookup returns the light while the lookup as written fails |
| LightsImageBased.ExtLightsImageBasedSceneExtension.FromLightId | GLTFSerialization/GLTFSerialization/Extensions/EXT_LightsImageBasedExtension.cs:223-226 | The handle is kept as given; the root argument is ignored |
| LightsImageBased.ExtLightsImageBasedSceneExtension.FromIndex | GLTFSerialization/GLTFSerialization/Extensions/EXT_LightsImageBasedExtension.cs:228-235 | A new handle with the given index, scoped to the given root |
| LightsImageBased.ExtLightsImageBasedSceneExtension.Clone | GLTFSerialization/GLTFSerialization/Extensions/EXT_LightsImageBasedExtension.cs:238-241 | The clone keeps the index, is scoped to the new root, and is written identically |
| LightsImageBased.ExtLightsImageBasedSceneExtension.Serialize | GLTFSerialization/GLTFSerialization/Extensions/EXT_LightsImageBasedExtension.cs:243-250 | The property is named "EXT_lights_image_based" and holds an object whose only key is "light", mapped to the handle's index; its tokens are exactly that name, StartObject, "light", the index, EndObject |
| LightsImageBased.ExtSceneRoundTrip | GLTFSerialization/GLTFSerialization/Extensions/EXT_LightsImageBasedExtension.cs:243-250 | `{"EXT_lights_image_based": {"light": Id}}` reads back into the handle that the clone into the reading root holds |
| LightsImageBased.MmpLightsImageBasedSceneExtension.FromLightId | GLTFSerialization/GLTFSerialization/Extensions/MMP_LightsImageBasedExtension.cs:213-216 | The handle is kept as given; the root argument is ignored |
| LightsImageBased.MmpLightsImageBasedSceneExtension.FromIndex | GLTFSerialization/GLTFSerialization/Extensions/MMP_LightsImageBasedExtension.cs:218-225 | A new handle with the given index, scoped to the given root |
| LightsImageBased.MmpLightsImageBasedSceneExtension.Clone | GLTFSerialization/GLTFSerialization/Extensions/MMP_LightsImageBasedExtension.cs:228-231 | The clone keeps the index, is scoped to the new root, and is written identically |
| LightsImageBased.MmpLightsImageBasedSceneExtension.Serialize | GLTFSerialization/GLTFSerialization/Extensions/MMP_LightsImageBasedExtension.cs:233-240 | The property is named "MMP_lights_image_based" and holds an object whose only key is "light", mapped to the handle's index; its tokens are exactly that name, StartObject, "light", the index, EndObject |
| LightsImageBased.MmpSceneRoundTrip | GLTFSerialization/GLTFSerialization/Extensions/MMP_LightsImageBasedExtension.cs:233-240 | `{"MMP_lights_image_based": {"light": Id}}` reads back into the handle that the clone into the reading root holds |

## Left out

- The Newtonsoft JSON writer, `JTokenWriter`, `JProperty` and `JObject` are not part of this model. The writer is modelled as the stream of calls it receives. A container's result is that stream wrapped in the property's tokens. Newtonsoft's closing of still-open objects when an enclosing array ends, and its rejection of misplaced tokens, are not modelled. In their place is a strict reference reader (`JsonTokens.Parse`).
- LightsImageBased.ExtLightsImageBasedExtension.Serialize: always returns the call stream and does not model Newtonsoft's handling of the unclosed light objects. In the program, a container with one light still gives valid JSON, because ending the array closes the open object. A container with two or more lights makes the writer throw at the second light's StartObject, so no malformed document comes out. The model's statements about malformed output are about the call stream as the strict reader sees it.
- LightsImageBased.MmpLightsImageBasedExtension.Serialize: the same as the EXT container: one light gives valid JSON in the program, and two or more make the writer throw; the model returns the call stream.
- Floating point: `double` and the quaternion components are exact reals, compared for equality only. NaN is not represented. `GLTF.Math.Quaternion` is not part of this model; its `!=` is taken as component-wise.
- 32-bit integers: ids and image sizes are unbounded integers. The code does no arithmetic on them.
- Null references inside a light are not modelled: a null coefficient array, row, specular grid or image handle. Neither are null lights, or a scene extension made by the parameterless constructor, whose handle is null.
- The parameterless constructors of lights, handles and scene extensions are not modelled. They only leave the fields at their defaults; ROTATION_DEFAULT and INTENSITY_DEFAULT are kept as constants.
- ExtImageBasedLight.ImageBasedLight.Serialize: requires at least 9 coefficient rows of at least 3 entries, and at least 6 images per mip level. It does not model the exceptions the C# indexing throws on a smaller grid.
- MmpImageBasedLight.MMPImageBasedLight.Serialize: requires at least 9 coefficient rows of at least 3 entries. It does not model the exception otherwise.
- LightsImageBased.ExtLightsImageBasedExtension.Serialize: requires every light to be writable as above, for the same reason. So does `SerializeIntended`, and so do both MMP container writers.
- `GLTFChildOfRootProperty` is not part of this model. Its copy constructor is assumed to copy the inherited `Name` and `Extras` unchanged, and `Extras` is an opaque value written whole.
- `GLTFId<T>` is not part of this model. Its copy constructor is assumed to keep `Id` and take the new root.
- `GLTFRoot` is reduced to its extension table. The table holds a tagged value instead of an untyped `IExtension`, and the `IExtension` interface is not modelled.
- `ImageId` is reduced to its index and the root it is scoped to.
- LightsImageBased.ImageBasedLightId.Deserialize: the reader is its next token read as an integer or null. A token that is neither, which makes the reader throw, is not modelled; the same holds for `LightsImageBased.MmpImageBasedLightId.Deserialize`.
- Aliasing is not modelled. The C# copy constructors share the coefficient arrays and the image arrays by reference, while the model's lights are values. The model records that the copy shares the same content and the same handles, still scoped to the old root. It does not capture that a later in-place change to the source's arrays would show through the copy.
- The dispatcher that picks a factory by extension name and registers extensions on the root is not part of this model.

## Findings

| source | as written | input that shows it | evidently intended | confidence | as-written member | corrected member |
|---|---|---|---|---|---|---|
| GLTFSerialization/GLTFSerialization/Extensions/EXT_LightsImageBasedExtension.cs:27 | `Clone` fills a copy and then returns a second, new, empty container | A container holding one light: the clone holds none | Return the filled copy, as the MMP container does | high; not executed | LightsImageBased.ExtLightsImageBasedExtension.Clone | LightsImageBased.ExtLightsImageBasedExtension.CloneIntended |
| GLTFSerialization/GLTFSerialization/Extensions/MMP_LightsImageBasedExtension.cs:179 | The MMP handle looks up the EXT extension name, then casts to the MMP container | A root with an MMP container of one light under "MMP_lights_image_based" and nothing else; handle 0 fails as "not found" | Look up "MMP_lights_image_based" | high; not executed | LightsImageBased.MmpValueMissesMmpEntry | LightsImageBased.MmpValueIntendedFinds |
| GLTFSerialization/GLTFSerialization/Extensions/EXT_LightsImageBasedExtension.cs:102 | The copy constructor sets `LightName` from the inherited `Name`; MMP line 94 does the same | A light with Name "a" and LightName "b": the copy has LightName "a" and writes `"name": "a"` | Copy `LightName` from `LightName` | high; not executed | ExtImageBasedLight.CopyFromEffect | ExtImageBasedLight.CopyFromIntendedEffect |
| GLTFSerialization/GLTFSerialization/Extensions/MMP_LightsImageBasedExtension.cs:94 | The copy constructor sets `LightName` from the inherited `Name` | A light with Name "a" and LightName "b": the copy has LightName "a" | Copy `LightName` from `LightName` | high; not executed | MmpImageBasedLight.CopyFromEffect | MmpImageBasedLight.CopyFromIntendedEffect |
| GLTFSerialization/GLTFSerialization/Extensions/MMP_LightsImageBasedExtension.cs:98 | A cloned light shares the source's image handle, which stays scoped to the source root | Cloning a light into a new root: its specular image handle still names the old root | Rebind the handle to the destination root | medium; not executed | MmpImageBasedLight.CopyFromEffect | MmpImageBasedLight.CopyFromIntendedEffect |
| GLTFSerialization/GLTFSerialization/Extensions/EXT_LightsImageBasedExtension.cs:106 | A cloned light shares the source's image handles, which stay scoped to the source root; the MMP light shares its one image handle the same way at MMP line 98 | Cloning a light with one mip level into a new root: its handles still name the old root | Rebind each handle to the destination root | medium; not executed | ExtImageBasedLight.CopyFromEffect | ExtImageBasedLight.ImageBasedLight.RebindImages |
| GLTFSerialization/GLTFSerialization/Extensions/EXT_LightsImageBasedExtension.cs:114 | A light opens its object and never closes it; the MMP light does the same at MMP line 106. The call stream is rejected by a strict reader for any non-empty container. With Newtonsoft's writer, one light is still written validly, because ending the array closes the open object; two or more lights make the writer throw | A container of two lights: the second light's StartObject comes inside the first light's open object, where a key is required, so the writer throws | Close each light's object after its last member | high; not executed | LightsImageBased.LightsArrayParsesIffEmpty | LightsImageBased.ExtIntendedRoundTrip |
