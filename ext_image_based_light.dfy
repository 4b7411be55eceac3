/**
 * One light of the `EXT_lights_image_based` extension: its fields, the copy
 * made when a document is cloned, and how it writes itself to a JSON writer.
 * Its specular data is an N x 6 grid of image handles (N mip levels, one image
 * per cube face).
 */
module ExtImageBasedLight {
  import opened Wrappers
  import opened GltfHost
  import opened JsonTokens
  import opened LightFields

  /** What a written light carries, as a conformant reader recovers it. */
  datatype ImageBasedLightWire = ImageBasedLightWire(
    lightName: Option<string>,
    rotation: Quaternion,
    intensity: Double,
    irradianceCoefficients: seq<seq<Double>>,
    specularImages: seq<seq<int>>,
    specularImageSize: int)

  datatype ImageBasedLight = ImageBasedLight(
    name: Option<string>,      // the inherited glTF property name (not written by this class)
    extras: Option<Extras>,    // the inherited extras bag (not written by this class)
    lightName: Option<string>,
    rotation: Quaternion,
    intensity: Double,
    irradianceCoefficients: seq<seq<Double>>,
    specularImages: seq<seq<ImageId>>,
    specularImageSize: int)
  {
    static const PNAME_NAME: string := "name"
    static const PNAME_ROTATION: string := "rotation"
    static const PNAME_INTENSITY: string := "intensity"
    static const PNAME_IRRADIANCE_COEFFICIENTS: string := "irradianceCoefficients"
    static const PNAME_SPECULAR_IMAGES: string := "specularImages"
    static const PNAME_SPECULAR_IMAGE_SIZE: string := "specularImageSize"

    static const ROTATION_DEFAULT: Quaternion := Identity
    static const INTENSITY_DEFAULT: Double := 1.0

    /**
     * The copy constructor used when a document is cloned. The inherited name
     * and extras are copied by the base class; `LightName` is taken from the
     * inherited `Name` whenever the source's `LightName` is set; every other
     * field, including the image handles, is shared with the source.
     */
    static function CopyFrom(light: ImageBasedLight, gltfRoot: object): (r: ImageBasedLight)
      ensures r.lightName == (if light.lightName.Some? then light.name else None)
      ensures r.specularImages == light.specularImages
      ensures r == light <==> light.lightName.None? || light.lightName == light.name
    {
      ImageBasedLight(
        light.name, light.extras,
        if light.lightName.Some? then light.name else None,
        light.rotation, light.intensity, light.irradianceCoefficients,
        light.specularImages, light.specularImageSize)
    }

    /**
     * The copy a clone evidently intends: `LightName` copied from `LightName`
     * and every image handle rebound to the destination root.
     */
    static function CopyFromIntended(light: ImageBasedLight, gltfRoot: object): (r: ImageBasedLight)
      ensures r.lightName == light.lightName
      ensures forall x, y :: 0 <= x < |r.specularImages| && 0 <= y < |r.specularImages[x]| ==>
                r.specularImages[x][y].root == gltfRoot
    {
      ImageBasedLight(
        light.name, light.extras, light.lightName,
        light.rotation, light.intensity, light.irradianceCoefficients,
        RebindImages(light.specularImages, gltfRoot), light.specularImageSize)
    }

    static function RebindImages(images: seq<seq<ImageId>>, gltfRoot: object): (r: seq<seq<ImageId>>)
      ensures |r| == |images|
      ensures forall x :: 0 <= x < |r| ==> |r[x]| == |images[x]|
      ensures forall x, y :: 0 <= x < |r| && 0 <= y < |r[x]| ==> r[x][y] == ImageId(images[x][y].id, gltfRoot)
    {
      seq(|images|, x requires 0 <= x < |images| =>
        seq(|images[x]|, y requires 0 <= y < |images[x]| => ImageId(images[x][y].id, gltfRoot)))
    }

    /**
     * What `Serialize` indexes without checking: rows 0..8 of the coefficient
     * grid with entries 0..2, and entries 0..5 of every specular row.
     */
    predicate Writable()
    {
      CoefficientsWritable(irradianceCoefficients) && SpecularWritable(specularImages)
    }

    static predicate SpecularWritable(images: seq<seq<ImageId>>)
    {
      forall x :: 0 <= x < |images| ==> |images[x]| >= 6
    }

    /** One mip level as written: the ids of its first six images. */
    static function SpecularRowJson(row: seq<ImageId>): Json
      requires |row| >= 6
    {
      JArray(seq(6, y requires 0 <= y < 6 => JInteger(row[y].id)))
    }

    static function SpecularRowsOf(images: seq<seq<ImageId>>): seq<Json>
      requires SpecularWritable(images)
    {
      seq(|images|, x requires 0 <= x < |images| => SpecularRowJson(images[x]))
    }

    function SpecularRows(): seq<Json>
      requires Writable()
    {
      SpecularRowsOf(specularImages)
    }

    /** The members written when the optional keys apply. */
    function OptionalMembers(): seq<Member>
    {
      (if lightName.Some? then [Member(PNAME_NAME, JString(lightName.value))] else [])
      + (if rotation != Identity then [Member(PNAME_ROTATION, RotationJson(rotation))] else [])
    }

    /** The members written whatever the field values. */
    function RequiredMembers(): seq<Member>
      requires Writable()
    {
      [ Member(PNAME_INTENSITY, JDouble(intensity)),
        Member(PNAME_IRRADIANCE_COEFFICIENTS, CoefficientsJson(irradianceCoefficients)),
        Member(PNAME_SPECULAR_IMAGES, JArray(SpecularRows())),
        Member(PNAME_SPECULAR_IMAGE_SIZE, JInteger(specularImageSize)) ]
    }

    /** The light as a JSON object, member by member in the order written. */
    function Members(): seq<Member>
      requires Writable()
    {
      OptionalMembers() + RequiredMembers()
    }

    /** The calls `Serialize` makes: the object is opened and never closed. */
    function Tokens(): seq<Token>
      requires Writable()
    {
      [StartObject] + EncodeMembers(Members())
    }

    /** What reaches the wire, with the grids cut to what the writer reads. */
    function Wire(): ImageBasedLightWire
      requires Writable()
    {
      ImageBasedLightWire(lightName, rotation, intensity, Coefficients9x3(irradianceCoefficients),
        seq(|specularImages|, x requires 0 <= x < |specularImages| =>
          seq(6, y requires 0 <= y < 6 => specularImages[x][y].id)),
        specularImageSize)
    }

    /** Reads a light back from the members of its object (the reader the factory lacks). */
    static function Decode(ms: seq<Member>): Option<ImageBasedLightWire>
    {
      var lightName :- DecodeName(Lookup(ms, PNAME_NAME));
      var rotation :- DecodeRotation(Lookup(ms, PNAME_ROTATION));
      var intensity :- DecodeDouble(Lookup(ms, PNAME_INTENSITY));
      var coefficients :- DecodeDoubleRows(Lookup(ms, PNAME_IRRADIANCE_COEFFICIENTS));
      var images :- DecodeIntegerRows(Lookup(ms, PNAME_SPECULAR_IMAGES));
      var size :- DecodeInteger(Lookup(ms, PNAME_SPECULAR_IMAGE_SIZE));
      Some(ImageBasedLightWire(lightName, rotation, intensity, coefficients, images, size))
    }

    /** Writes the light, field by field, as the source does (without closing the object). */
    method Serialize(writer: JsonWriter)
      requires Writable()
      modifies writer
      ensures writer.tokens == old(writer.tokens) + Tokens()
    {
      writer.WriteStartObject();
      WriteOptionalMembers(writer);
      WriteRequiredMembers(writer);
      EncodeMembersConcat(OptionalMembers(), RequiredMembers());
    }

    /** Writes `name` only when the light name is set and `rotation` only when it is not the identity. */
    method WriteOptionalMembers(writer: JsonWriter)
      modifies writer
      ensures writer.tokens == old(writer.tokens) + EncodeMembers(OptionalMembers())
    {
      ghost var t0 := writer.tokens;
      ghost var written: seq<Member> := [];
      if lightName.Some? {
        writer.WritePropertyName(PNAME_NAME);
        writer.WriteString(lightName.value);
        EncodeMembersAppend(written, Member(PNAME_NAME, JString(lightName.value)));
        written := written + [Member(PNAME_NAME, JString(lightName.value))];
      }
      if rotation != Identity {
        writer.WritePropertyName(PNAME_ROTATION);
        WriteRotation(writer, rotation);
        EncodeMembersAppend(written, Member(PNAME_ROTATION, RotationJson(rotation)));
        written := written + [Member(PNAME_ROTATION, RotationJson(rotation))];
      }
      assert written == OptionalMembers();
    }

    /** Writes the members present whatever the field values. */
    method WriteRequiredMembers(writer: JsonWriter)
      requires Writable()
      modifies writer
      ensures writer.tokens == old(writer.tokens) + EncodeMembers(RequiredMembers())
    {
      WriteIrradianceMembers(writer);
      WriteSpecularMembers(writer);
      EncodeMembersConcat(RequiredMembers()[..2], RequiredMembers()[2..]);
      assert RequiredMembers()[..2] + RequiredMembers()[2..] == RequiredMembers();
    }

    /** intensity, then irradianceCoefficients. */
    method WriteIrradianceMembers(writer: JsonWriter)
      requires Writable()
      modifies writer
      ensures writer.tokens == old(writer.tokens) + EncodeMembers(RequiredMembers()[..2])
    {
      ghost var written: seq<Member> := [];

      writer.WritePropertyName(PNAME_INTENSITY);
      writer.WriteDouble(intensity);
      EncodeMembersAppend(written, Member(PNAME_INTENSITY, JDouble(intensity)));
      written := written + [Member(PNAME_INTENSITY, JDouble(intensity))];

      writer.WritePropertyName(PNAME_IRRADIANCE_COEFFICIENTS);
      WriteCoefficients(writer, irradianceCoefficients);
      EncodeMembersAppend(written, Member(PNAME_IRRADIANCE_COEFFICIENTS, CoefficientsJson(irradianceCoefficients)));
      written := written + [Member(PNAME_IRRADIANCE_COEFFICIENTS, CoefficientsJson(irradianceCoefficients))];

      assert written == RequiredMembers()[..2];
    }

    /** specularImages, then specularImageSize. */
    method WriteSpecularMembers(writer: JsonWriter)
      requires Writable()
      modifies writer
      ensures writer.tokens == old(writer.tokens) + EncodeMembers(RequiredMembers()[2..])
    {
      ghost var written: seq<Member> := [];

      writer.WritePropertyName(PNAME_SPECULAR_IMAGES);
      WriteSpecularImages(writer, specularImages);
      EncodeMembersAppend(written, Member(PNAME_SPECULAR_IMAGES, JArray(SpecularRows())));
      written := written + [Member(PNAME_SPECULAR_IMAGES, JArray(SpecularRows()))];

      writer.WritePropertyName(PNAME_SPECULAR_IMAGE_SIZE);
      writer.WriteInteger(specularImageSize);
      EncodeMembersAppend(written, Member(PNAME_SPECULAR_IMAGE_SIZE, JInteger(specularImageSize)));
      written := written + [Member(PNAME_SPECULAR_IMAGE_SIZE, JInteger(specularImageSize))];

      assert written == RequiredMembers()[2..];
    }

    static method WriteSpecularImages(writer: JsonWriter, images: seq<seq<ImageId>>)
      requires SpecularWritable(images)
      modifies writer
      ensures writer.tokens == old(writer.tokens) + Encode(JArray(SpecularRowsOf(images)))
    {
      writer.WriteStartArray();
      ghost var mips := SpecularRowsOf(images);
      ghost var t := writer.tokens;
      for x := 0 to |images|
        invariant writer.tokens == t + EncodeItems(mips[..x])
      {
        WriteSpecularRow(writer, images[x]);
        EncodeItemsAppend(mips[..x], mips[x]);
        assert mips[..x + 1] == mips[..x] + [mips[x]];
      }
      writer.WriteEndArray();
      assert mips[..|images|] == mips;
    }

    /** Writes the ids of one mip level's images 0..5. */
    static method WriteSpecularRow(writer: JsonWriter, row: seq<ImageId>)
      requires |row| >= 6
      modifies writer
      ensures writer.tokens == old(writer.tokens) + Encode(SpecularRowJson(row))
    {
      writer.WriteStartArray();
      ghost var ids := SpecularRowJson(row).items;
      ghost var t := writer.tokens;
      for y := 0 to 6
        invariant writer.tokens == t + EncodeItems(ids[..y])
      {
        writer.WriteInteger(row[y].id);
        EncodeItemsAppend(ids[..y], ids[y]);
        assert ids[..y + 1] == ids[..y] + [ids[y]];
      }
      writer.WriteEndArray();
      assert ids[..6] == ids;
    }

    /** The evident intent: the same members, with the object closed. */
    method SerializeClosed(writer: JsonWriter)
      requires Writable()
      modifies writer
      ensures writer.tokens == old(writer.tokens) + Encode(JObject(Members()))
    {
      Serialize(writer);
      writer.WriteEndObject();
    }
  }

  // ---------------------------------------------------------------------------
  // What a written light contains.

  /** Each key's value in the written object: absent for an elided optional key. */
  lemma MembersLookup(l: ImageBasedLight)
    requires l.Writable()
    ensures Lookup(l.Members(), ImageBasedLight.PNAME_NAME)
         == if l.lightName.Some? then Some(JString(l.lightName.value)) else None
    ensures Lookup(l.Members(), ImageBasedLight.PNAME_ROTATION)
         == if l.rotation != Identity then Some(RotationJson(l.rotation)) else None
    ensures Lookup(l.Members(), ImageBasedLight.PNAME_INTENSITY) == Some(JDouble(l.intensity))
    ensures Lookup(l.Members(), ImageBasedLight.PNAME_IRRADIANCE_COEFFICIENTS)
         == Some(CoefficientsJson(l.irradianceCoefficients))
    ensures Lookup(l.Members(), ImageBasedLight.PNAME_SPECULAR_IMAGES) == Some(JArray(l.SpecularRows()))
    ensures Lookup(l.Members(), ImageBasedLight.PNAME_SPECULAR_IMAGE_SIZE) == Some(JInteger(l.specularImageSize))
  {
    var a, b := l.OptionalMembers(), l.RequiredMembers();
    OptionalLookup(l);
    RequiredLookup(l);
    LookupAppend(a, b, ImageBasedLight.PNAME_NAME);
    LookupAppend(a, b, ImageBasedLight.PNAME_ROTATION);
    LookupAppend(a, b, ImageBasedLight.PNAME_INTENSITY);
    LookupAppend(a, b, ImageBasedLight.PNAME_IRRADIANCE_COEFFICIENTS);
    LookupAppend(a, b, ImageBasedLight.PNAME_SPECULAR_IMAGES);
    LookupAppend(a, b, ImageBasedLight.PNAME_SPECULAR_IMAGE_SIZE);
  }

  /** The optional members hold `name` and `rotation` when they apply, and no required key. */
  lemma OptionalLookup(l: ImageBasedLight)
    ensures Lookup(l.OptionalMembers(), ImageBasedLight.PNAME_NAME)
         == if l.lightName.Some? then Some(JString(l.lightName.value)) else None
    ensures Lookup(l.OptionalMembers(), ImageBasedLight.PNAME_ROTATION)
         == if l.rotation != Identity then Some(RotationJson(l.rotation)) else None
    ensures Lookup(l.OptionalMembers(), ImageBasedLight.PNAME_INTENSITY) == None
    ensures Lookup(l.OptionalMembers(), ImageBasedLight.PNAME_IRRADIANCE_COEFFICIENTS) == None
    ensures Lookup(l.OptionalMembers(), ImageBasedLight.PNAME_SPECULAR_IMAGES) == None
    ensures Lookup(l.OptionalMembers(), ImageBasedLight.PNAME_SPECULAR_IMAGE_SIZE) == None
  {
    var ms := l.OptionalMembers();
    KeysAppend(if l.lightName.Some? then [Member(ImageBasedLight.PNAME_NAME, JString(l.lightName.value))] else [],
               if l.rotation != Identity then [Member(ImageBasedLight.PNAME_ROTATION, RotationJson(l.rotation))] else []);
    assert forall j :: 0 <= j < |ms| ==>
      ms[j].key == ImageBasedLight.PNAME_NAME || ms[j].key == ImageBasedLight.PNAME_ROTATION;
    if l.lightName.Some? {
      LookupAt(ms, ImageBasedLight.PNAME_NAME, 0);
    } else {
      LookupFound(ms, ImageBasedLight.PNAME_NAME);
    }
    if l.rotation != Identity {
      LookupAt(ms, ImageBasedLight.PNAME_ROTATION, |ms| - 1);
    } else {
      LookupFound(ms, ImageBasedLight.PNAME_ROTATION);
    }
    LookupFound(ms, ImageBasedLight.PNAME_INTENSITY);
    LookupFound(ms, ImageBasedLight.PNAME_IRRADIANCE_COEFFICIENTS);
    LookupFound(ms, ImageBasedLight.PNAME_SPECULAR_IMAGES);
    LookupFound(ms, ImageBasedLight.PNAME_SPECULAR_IMAGE_SIZE);
  }

  /** The required members hold each required key once, and neither optional key. */
  lemma RequiredLookup(l: ImageBasedLight)
    requires l.Writable()
    ensures Lookup(l.RequiredMembers(), ImageBasedLight.PNAME_NAME) == None
    ensures Lookup(l.RequiredMembers(), ImageBasedLight.PNAME_ROTATION) == None
    ensures Lookup(l.RequiredMembers(), ImageBasedLight.PNAME_INTENSITY) == Some(JDouble(l.intensity))
    ensures Lookup(l.RequiredMembers(), ImageBasedLight.PNAME_IRRADIANCE_COEFFICIENTS)
         == Some(CoefficientsJson(l.irradianceCoefficients))
    ensures Lookup(l.RequiredMembers(), ImageBasedLight.PNAME_SPECULAR_IMAGES) == Some(JArray(l.SpecularRows()))
    ensures Lookup(l.RequiredMembers(), ImageBasedLight.PNAME_SPECULAR_IMAGE_SIZE) == Some(JInteger(l.specularImageSize))
  {
    var ms := l.RequiredMembers();
    assert Keys(ms) == [ImageBasedLight.PNAME_INTENSITY, ImageBasedLight.PNAME_IRRADIANCE_COEFFICIENTS,
                        ImageBasedLight.PNAME_SPECULAR_IMAGES, ImageBasedLight.PNAME_SPECULAR_IMAGE_SIZE];
    LookupFound(ms, ImageBasedLight.PNAME_NAME);
    LookupFound(ms, ImageBasedLight.PNAME_ROTATION);
    LookupAt(ms, ImageBasedLight.PNAME_INTENSITY, 0);
    LookupAt(ms, ImageBasedLight.PNAME_IRRADIANCE_COEFFICIENTS, 1);
    LookupAt(ms, ImageBasedLight.PNAME_SPECULAR_IMAGES, 2);
    LookupAt(ms, ImageBasedLight.PNAME_SPECULAR_IMAGE_SIZE, 3);
  }

  /**
   * The keys of a written light, in order: `name` only if set, `rotation` only
   * if not the identity, then always intensity, irradianceCoefficients,
   * specularImages and specularImageSize.
   */
  lemma KeysInOrder(l: ImageBasedLight)
    requires l.Writable()
    ensures Keys(l.Members())
         == (if l.lightName.Some? then [ImageBasedLight.PNAME_NAME] else [])
          + (if l.rotation != Identity then [ImageBasedLight.PNAME_ROTATION] else [])
          + [ImageBasedLight.PNAME_INTENSITY, ImageBasedLight.PNAME_IRRADIANCE_COEFFICIENTS,
             ImageBasedLight.PNAME_SPECULAR_IMAGES, ImageBasedLight.PNAME_SPECULAR_IMAGE_SIZE]
  {
    KeysAppend(l.OptionalMembers(), l.RequiredMembers());
  }

  /** `name` is present iff the light name is set; `rotation` iff it is not the identity, as [X, Y, Z, W]. */
  lemma OptionalKeysIff(l: ImageBasedLight)
    requires l.Writable()
    ensures ImageBasedLight.PNAME_NAME in Keys(l.Members()) <==> l.lightName.Some?
    ensures ImageBasedLight.PNAME_ROTATION in Keys(l.Members()) <==> l.rotation != Identity
    ensures l.rotation != Identity ==>
              Lookup(l.Members(), ImageBasedLight.PNAME_ROTATION)
              == Some(JArray([JDouble(l.rotation.x), JDouble(l.rotation.y), JDouble(l.rotation.z), JDouble(l.rotation.w)]))
  {
    MembersLookup(l);
    LookupFound(l.Members(), ImageBasedLight.PNAME_NAME);
    LookupFound(l.Members(), ImageBasedLight.PNAME_ROTATION);
  }

  /**
   * The specular value has one row per mip level, each holding exactly the
   * ids of the row's first six images.
   */
  lemma SpecularShape(l: ImageBasedLight)
    requires l.Writable()
    ensures |l.SpecularRows()| == |l.specularImages|
    ensures forall x :: 0 <= x < |l.specularImages| ==>
              l.SpecularRows()[x].JArray? && |l.SpecularRows()[x].items| == 6
              && forall y :: 0 <= y < 6 ==> l.SpecularRows()[x].items[y] == JInteger(l.specularImages[x][y].id)
  {
  }

  /**
   * Reading the written object back recovers every written field exactly:
   * the name (or its absence), the rotation (the identity when elided), the
   * intensity, the 9x3 coefficients, the first six image ids of every mip
   * level and the image size.
   */
  lemma WireRoundTrip(l: ImageBasedLight)
    requires l.Writable()
    ensures ImageBasedLight.Decode(l.Members()) == Some(l.Wire())
  {
    MembersLookup(l);
    CoefficientsRoundTrip(l.irradianceCoefficients);
    var rows := l.SpecularRows();
    var ids := l.Wire().specularImages;
    forall x | 0 <= x < |rows|
      ensures DecodeIntegers(rows[x]) == Some(ids[x])
    {
      assert DecodeIntegers(rows[x]).value == ids[x];
    }
    assert DecodeIntegerRows(Some(JArray(rows))).value == ids;
    var ms := l.Members();
    assert DecodeName(Lookup(ms, ImageBasedLight.PNAME_NAME)) == Some(l.lightName);
    assert DecodeRotation(Lookup(ms, ImageBasedLight.PNAME_ROTATION)) == Some(l.rotation);
    assert DecodeDouble(Lookup(ms, ImageBasedLight.PNAME_INTENSITY)) == Some(l.intensity);
    assert DecodeDoubleRows(Lookup(ms, ImageBasedLight.PNAME_IRRADIANCE_COEFFICIENTS))
        == Some(Coefficients9x3(l.irradianceCoefficients));
    assert DecodeIntegerRows(Lookup(ms, ImageBasedLight.PNAME_SPECULAR_IMAGES)) == Some(ids);
    assert DecodeInteger(Lookup(ms, ImageBasedLight.PNAME_SPECULAR_IMAGE_SIZE)) == Some(l.specularImageSize);
  }

  /** The light's tokens, once closed, read back as the object of its members. */
  lemma ClosedTokensParse(l: ImageBasedLight)
    requires l.Writable()
    ensures Encode(JObject(l.Members())) == l.Tokens() + [EndObject]
    ensures Parse(l.Tokens() + [EndObject]) == Some(JObject(l.Members()))
  {
    ParseEncodeDocument(JObject(l.Members()));
  }

  /** The tokens `Serialize` writes leave exactly one object open. */
  lemma TokensLeaveObjectOpen(l: ImageBasedLight)
    requires l.Writable()
    ensures Depth(l.Tokens()) == 1
  {
    EncodeMembersBalanced(l.Members());
    DepthAppend([StartObject], EncodeMembers(l.Members()));
  }

  // ---------------------------------------------------------------------------
  // The copy made on clone.

  /**
   * The copy keeps the inherited fields, shares every image handle (still
   * bound to the source's roots) and is written like its source iff the light
   * name is unset or equal to the inherited name.
   */
  lemma CopyFromEffect(l: ImageBasedLight, gltfRoot: object)
    ensures var c := ImageBasedLight.CopyFrom(l, gltfRoot);
      && c.name == l.name && c.extras == l.extras
      && c.lightName == (if l.lightName.Some? then l.name else None)
      && c.rotation == l.rotation && c.intensity == l.intensity
      && c.irradianceCoefficients == l.irradianceCoefficients
      && c.specularImages == l.specularImages && c.specularImageSize == l.specularImageSize
      && c.Writable() == l.Writable()
      && (l.Writable() ==> (c.Members() == l.Members() <==> l.lightName.None? || l.lightName == l.name))
  {
    var c := ImageBasedLight.CopyFrom(l, gltfRoot);
    if l.Writable() && c.Members() == l.Members() {
      WireRoundTrip(l);
      WireRoundTrip(c);
      assert c.Wire().lightName == l.Wire().lightName;
    }
  }

  /** The intended copy is written exactly like its source, with every image bound to the new root. */
  lemma CopyFromIntendedEffect(l: ImageBasedLight, gltfRoot: object)
    requires l.Writable()
    ensures var c := ImageBasedLight.CopyFromIntended(l, gltfRoot);
      && c.name == l.name && c.extras == l.extras && c.lightName == l.lightName
      && c.rotation == l.rotation && c.intensity == l.intensity
      && c.irradianceCoefficients == l.irradianceCoefficients && c.specularImageSize == l.specularImageSize
      && c.Writable()
      && c.Members() == l.Members()
      && forall x, y :: 0 <= x < |c.specularImages| && 0 <= y < |c.specularImages[x]| ==>
           c.specularImages[x][y].root == gltfRoot
  {
    var c := ImageBasedLight.CopyFromIntended(l, gltfRoot);
    forall x | 0 <= x < |l.specularImages|
      ensures ImageBasedLight.SpecularRowJson(c.specularImages[x]) == ImageBasedLight.SpecularRowJson(l.specularImages[x])
    {
      assert ImageBasedLight.SpecularRowJson(c.specularImages[x]).items
          == ImageBasedLight.SpecularRowJson(l.specularImages[x]).items;
    }
    assert c.SpecularRows() == l.SpecularRows();
  }
}
