/**
 * One light of the `MMP_lights_image_based` extension. It differs from the EXT
 * light in two ways: its specular data is a single image handle, written as
 * the integer `specularImage`, and it writes the inherited extras bag, last,
 * when one is set.
 */
module MmpImageBasedLight {
  import opened Wrappers
  import opened GltfHost
  import opened JsonTokens
  import opened LightFields

  /** What a written light carries, as a conformant reader recovers it. */
  datatype MMPImageBasedLightWire = MMPImageBasedLightWire(
    lightName: Option<string>,
    rotation: Quaternion,
    intensity: Double,
    irradianceCoefficients: seq<seq<Double>>,
    specularImage: int,
    specularImageSize: int,
    extras: Option<Extras>)

  datatype MMPImageBasedLight = MMPImageBasedLight(
    name: Option<string>,      // the inherited glTF property name (not written by this class)
    extras: Option<Extras>,    // the inherited extras bag, written last when set
    lightName: Option<string>,
    rotation: Quaternion,
    intensity: Double,
    irradianceCoefficients: seq<seq<Double>>,
    specularImage: ImageId,
    specularImageSize: int)
  {
    static const PNAME_NAME: string := "name"
    static const PNAME_ROTATION: string := "rotation"
    static const PNAME_INTENSITY: string := "intensity"
    static const PNAME_IRRADIANCE_COEFFICIENTS: string := "irradianceCoefficients"
    static const PNAME_SPECULAR_IMAGE: string := "specularImage"
    static const PNAME_SPECULAR_IMAGE_SIZE: string := "specularImageSize"
    /** The key of the extras bag, a literal in the writer rather than a constant. */
    static const PNAME_EXTRAS: string := "extras"

    static const ROTATION_DEFAULT: Quaternion := Identity
    static const INTENSITY_DEFAULT: Double := 1.0

    /**
     * The copy constructor used when a document is cloned. The inherited name
     * and extras are copied by the base class; `LightName` is taken from the
     * inherited `Name` whenever the source's `LightName` is set; every other
     * field, the image handle included, is shared with the source.
     */
    static function CopyFrom(light: MMPImageBasedLight, gltfRoot: object): (r: MMPImageBasedLight)
      ensures r.lightName == (if light.lightName.Some? then light.name else None)
      ensures r.specularImage == light.specularImage
      ensures r == light <==> light.lightName.None? || light.lightName == light.name
    {
      MMPImageBasedLight(
        light.name, light.extras,
        if light.lightName.Some? then light.name else None,
        light.rotation, light.intensity, light.irradianceCoefficients,
        light.specularImage, light.specularImageSize)
    }

    /**
     * The copy a clone evidently intends: `LightName` copied from `LightName`
     * and the image handle rebound to the destination root.
     */
    static function CopyFromIntended(light: MMPImageBasedLight, gltfRoot: object): (r: MMPImageBasedLight)
      ensures r.lightName == light.lightName
      ensures r.specularImage.id == light.specularImage.id && r.specularImage.root == gltfRoot
    {
      MMPImageBasedLight(
        light.name, light.extras, light.lightName,
        light.rotation, light.intensity, light.irradianceCoefficients,
        ImageId(light.specularImage.id, gltfRoot), light.specularImageSize)
    }

    /** What `Serialize` indexes without checking: rows 0..8 of the coefficient grid with entries 0..2. */
    predicate Writable()
    {
      CoefficientsWritable(irradianceCoefficients)
    }

    /** The members written before the required ones, when their conditions hold. */
    function OptionalMembers(): seq<Member>
    {
      (if lightName.Some? then [Member(PNAME_NAME, JString(lightName.value))] else [])
      + (if rotation != Identity then [Member(PNAME_ROTATION, RotationJson(rotation))] else [])
    }

    /** The members written whatever the field values. */
    function RequiredMembers(): seq<Member>
      requires Writable()
    {
      [ Member(PNAME_INTENSITY, JDouble(intensity)),
        Member(PNAME_IRRADIANCE_COEFFICIENTS, CoefficientsJson(irradianceCoefficients)),
        Member(PNAME_SPECULAR_IMAGE, JInteger(specularImage.id)),
        Member(PNAME_SPECULAR_IMAGE_SIZE, JInteger(specularImageSize)) ]
    }

    /** The extras member, written last when the bag is set. */
    function ExtrasMembers(): seq<Member>
    {
      if extras.Some? then [Member(PNAME_EXTRAS, JExtras(extras.value))] else []
    }

    /** The light as a JSON object, member by member in the order written. */
    function Members(): seq<Member>
      requires Writable()
    {
      OptionalMembers() + RequiredMembers() + ExtrasMembers()
    }

    /** The calls `Serialize` makes: the object is opened and never closed. */
    function Tokens(): seq<Token>
      requires Writable()
    {
      [StartObject] + EncodeMembers(Members())
    }

    /** What reaches the wire, with the coefficient grid cut to what the writer reads. */
    function Wire(): MMPImageBasedLightWire
      requires Writable()
    {
      MMPImageBasedLightWire(lightName, rotation, intensity, Coefficients9x3(irradianceCoefficients),
        specularImage.id, specularImageSize, extras)
    }

    /** An optional extras bag: absent means none. */
    static function DecodeExtras(j: Option<Json>): Option<Option<Extras>>
    {
      match j
      case None => Some(None)
      case Some(JExtras(e)) => Some(Some(e))
      case Some(_) => None
    }

    /** Reads a light back from the members of its object (the reader the factory lacks). */
    static function Decode(ms: seq<Member>): Option<MMPImageBasedLightWire>
    {
      var lightName :- DecodeName(Lookup(ms, PNAME_NAME));
      var rotation :- DecodeRotation(Lookup(ms, PNAME_ROTATION));
      var intensity :- DecodeDouble(Lookup(ms, PNAME_INTENSITY));
      var coefficients :- DecodeDoubleRows(Lookup(ms, PNAME_IRRADIANCE_COEFFICIENTS));
      var image :- DecodeInteger(Lookup(ms, PNAME_SPECULAR_IMAGE));
      var size :- DecodeInteger(Lookup(ms, PNAME_SPECULAR_IMAGE_SIZE));
      var extras :- DecodeExtras(Lookup(ms, PNAME_EXTRAS));
      Some(MMPImageBasedLightWire(lightName, rotation, intensity, coefficients, image, size, extras))
    }

    /** Writes the light, field by field, as the source does (without closing the object). */
    method Serialize(writer: JsonWriter)
      requires Writable()
      modifies writer
      ensures writer.tokens == old(writer.tokens) + Tokens()
    {
      writer.WriteStartObject();
      WriteOptionalMembers(writer);
      WriteRequiredMembers(writer);
      WriteExtrasMembers(writer);
      EncodeMembersConcat(OptionalMembers(), RequiredMembers());
      EncodeMembersConcat(OptionalMembers() + RequiredMembers(), ExtrasMembers());
    }

    /** Writes `extras` only when the bag is set. */
    method WriteExtrasMembers(writer: JsonWriter)
      modifies writer
      ensures writer.tokens == old(writer.tokens) + EncodeMembers(ExtrasMembers())
    {
      if extras.Some? {
        writer.WritePropertyName(PNAME_EXTRAS);
        writer.WriteExtras(extras.value);
        assert EncodeMembers(ExtrasMembers()) == EncodeMember(Member(PNAME_EXTRAS, JExtras(extras.value)));
      }
    }

    /** Writes `name` only when the light name is set and `rotation` only when it is not the identity. */
    method WriteOptionalMembers(writer: JsonWriter)
      modifies writer
      ensures writer.tokens == old(writer.tokens) + EncodeMembers(OptionalMembers())
    {
      ghost var written: seq<Member> := [];
      if lightName.Some? {
        writer.WritePropertyName(PNAME_NAME);
        writer.WriteString(lightName.value);
        EncodeMembersAppend(written, Member(PNAME_NAME, JString(lightName.value)));
        written := written + [Member(PNAME_NAME, JString(lightName.value))];
      }
      if rotation != Identity {
        writer.WritePropertyName(PNAME_ROTATION);
        WriteRotation(writer, rotation);
        EncodeMembersAppend(written, Member(PNAME_ROTATION, RotationJson(rotation)));
        written := written + [Member(PNAME_ROTATION, RotationJson(rotation))];
      }
      assert written == OptionalMembers();
    }

    /** Writes the members present whatever the field values. */
    method WriteRequiredMembers(writer: JsonWriter)
      requires Writable()
      modifies writer
      ensures writer.tokens == old(writer.tokens) + EncodeMembers(RequiredMembers())
    {
      WriteIrradianceMembers(writer);
      WriteSpecularMembers(writer);
      EncodeMembersConcat(RequiredMembers()[..2], RequiredMembers()[2..]);
      assert RequiredMembers()[..2] + RequiredMembers()[2..] == RequiredMembers();
    }

    /** intensity, then irradianceCoefficients. */
    method WriteIrradianceMembers(writer: JsonWriter)
      requires Writable()
      modifies writer
      ensures writer.tokens == old(writer.tokens) + EncodeMembers(RequiredMembers()[..2])
    {
      ghost var written: seq<Member> := [];

      writer.WritePropertyName(PNAME_INTENSITY);
      writer.WriteDouble(intensity);
      EncodeMembersAppend(written, Member(PNAME_INTENSITY, JDouble(intensity)));
      written := written + [Member(PNAME_INTENSITY, JDouble(intensity))];

      writer.WritePropertyName(PNAME_IRRADIANCE_COEFFICIENTS);
      WriteCoefficients(writer, irradianceCoefficients);
      EncodeMembersAppend(written, Member(PNAME_IRRADIANCE_COEFFICIENTS, CoefficientsJson(irradianceCoefficients)));
      written := written + [Member(PNAME_IRRADIANCE_COEFFICIENTS, CoefficientsJson(irradianceCoefficients))];

      assert written == RequiredMembers()[..2];
    }

    /** specularImage, then specularImageSize. */
    method WriteSpecularMembers(writer: JsonWriter)
      requires Writable()
      modifies writer
      ensures writer.tokens == old(writer.tokens) + EncodeMembers(RequiredMembers()[2..])
    {
      ghost var written: seq<Member> := [];

      writer.WritePropertyName(PNAME_SPECULAR_IMAGE);
      writer.WriteInteger(specularImage.id);
      EncodeMembersAppend(written, Member(PNAME_SPECULAR_IMAGE, JInteger(specularImage.id)));
      written := written + [Member(PNAME_SPECULAR_IMAGE, JInteger(specularImage.id))];

      writer.WritePropertyName(PNAME_SPECULAR_IMAGE_SIZE);
      writer.WriteInteger(specularImageSize);
      EncodeMembersAppend(written, Member(PNAME_SPECULAR_IMAGE_SIZE, JInteger(specularImageSize)));
      written := written + [Member(PNAME_SPECULAR_IMAGE_SIZE, JInteger(specularImageSize))];

      assert written == RequiredMembers()[2..];
    }

    /** The evident intent: the same members, with the object closed. */
    method SerializeClosed(writer: JsonWriter)
      requires Writable()
      modifies writer
      ensures writer.tokens == old(writer.tokens) + Encode(JObject(Members()))
    {
      Serialize(writer);
      writer.WriteEndObject();
    }
  }

  // ---------------------------------------------------------------------------
  // What a written light contains.

  /**
   * The keys of a written light, in order: `name` only if set, `rotation` only
   * if not the identity, then always intensity, irradianceCoefficients,
   * specularImage and specularImageSize, and `extras` last only if set.
   */
  lemma KeysInOrder(l: MMPImageBasedLight)
    requires l.Writable()
    ensures Keys(l.Members())
         == (if l.lightName.Some? then [MMPImageBasedLight.PNAME_NAME] else [])
          + (if l.rotation != Identity then [MMPImageBasedLight.PNAME_ROTATION] else [])
          + [MMPImageBasedLight.PNAME_INTENSITY, MMPImageBasedLight.PNAME_IRRADIANCE_COEFFICIENTS,
             MMPImageBasedLight.PNAME_SPECULAR_IMAGE, MMPImageBasedLight.PNAME_SPECULAR_IMAGE_SIZE]
          + (if l.extras.Some? then [MMPImageBasedLight.PNAME_EXTRAS] else [])
  {
    KeysAppend(l.OptionalMembers(), l.RequiredMembers());
    KeysAppend(l.OptionalMembers() + l.RequiredMembers(), l.ExtrasMembers());
  }

  /** Each key's value among the members written before the extras. */
  lemma LeadingMembersLookup(l: MMPImageBasedLight)
    requires l.Writable()
    ensures var ms := l.OptionalMembers() + l.RequiredMembers();
      && Lookup(ms, MMPImageBasedLight.PNAME_NAME)
         == (if l.lightName.Some? then Some(JString(l.lightName.value)) else None)
      && Lookup(ms, MMPImageBasedLight.PNAME_ROTATION)
         == (if l.rotation != Identity then Some(RotationJson(l.rotation)) else None)
      && Lookup(ms, MMPImageBasedLight.PNAME_INTENSITY) == Some(JDouble(l.intensity))
      && Lookup(ms, MMPImageBasedLight.PNAME_IRRADIANCE_COEFFICIENTS)
         == Some(CoefficientsJson(l.irradianceCoefficients))
      && Lookup(ms, MMPImageBasedLight.PNAME_SPECULAR_IMAGE) == Some(JInteger(l.specularImage.id))
      && Lookup(ms, MMPImageBasedLight.PNAME_SPECULAR_IMAGE_SIZE) == Some(JInteger(l.specularImageSize))
      && Lookup(ms, MMPImageBasedLight.PNAME_EXTRAS) == None
  {
    var a, b := l.OptionalMembers(), l.RequiredMembers();
    OptionalLookup(l);
    RequiredLookup(l);
    LookupAppend(a, b, MMPImageBasedLight.PNAME_NAME);
    LookupAppend(a, b, MMPImageBasedLight.PNAME_ROTATION);
    LookupAppend(a, b, MMPImageBasedLight.PNAME_INTENSITY);
    LookupAppend(a, b, MMPImageBasedLight.PNAME_IRRADIANCE_COEFFICIENTS);
    LookupAppend(a, b, MMPImageBasedLight.PNAME_SPECULAR_IMAGE);
    LookupAppend(a, b, MMPImageBasedLight.PNAME_SPECULAR_IMAGE_SIZE);
    LookupAppend(a, b, MMPImageBasedLight.PNAME_EXTRAS);
  }

  /** The optional members hold `name` and `rotation` when they apply, and no other key. */
  lemma OptionalLookup(l: MMPImageBasedLight)
    ensures Lookup(l.OptionalMembers(), MMPImageBasedLight.PNAME_NAME)
         == if l.lightName.Some? then Some(JString(l.lightName.value)) else None
    ensures Lookup(l.OptionalMembers(), MMPImageBasedLight.PNAME_ROTATION)
         == if l.rotation != Identity then Some(RotationJson(l.rotation)) else None
    ensures Lookup(l.OptionalMembers(), MMPImageBasedLight.PNAME_INTENSITY) == None
    ensures Lookup(l.OptionalMembers(), MMPImageBasedLight.PNAME_IRRADIANCE_COEFFICIENTS) == None
    ensures Lookup(l.OptionalMembers(), MMPImageBasedLight.PNAME_SPECULAR_IMAGE) == None
    ensures Lookup(l.OptionalMembers(), MMPImageBasedLight.PNAME_SPECULAR_IMAGE_SIZE) == None
    ensures Lookup(l.OptionalMembers(), MMPImageBasedLight.PNAME_EXTRAS) == None
  {
    var ms := l.OptionalMembers();
    KeysAppend(if l.lightName.Some? then [Member(MMPImageBasedLight.PNAME_NAME, JString(l.lightName.value))] else [],
               if l.rotation != Identity then [Member(MMPImageBasedLight.PNAME_ROTATION, RotationJson(l.rotation))] else []);
    assert forall j :: 0 <= j < |ms| ==>
      ms[j].key == MMPImageBasedLight.PNAME_NAME || ms[j].key == MMPImageBasedLight.PNAME_ROTATION;
    if l.lightName.Some? {
      LookupAt(ms, MMPImageBasedLight.PNAME_NAME, 0);
    } else {
      LookupFound(ms, MMPImageBasedLight.PNAME_NAME);
    }
    if l.rotation != Identity {
      LookupAt(ms, MMPImageBasedLight.PNAME_ROTATION, |ms| - 1);
    } else {
      LookupFound(ms, MMPImageBasedLight.PNAME_ROTATION);
    }
    LookupFound(ms, MMPImageBasedLight.PNAME_INTENSITY);
    LookupFound(ms, MMPImageBasedLight.PNAME_IRRADIANCE_COEFFICIENTS);
    LookupFound(ms, MMPImageBasedLight.PNAME_SPECULAR_IMAGE);
    LookupFound(ms, MMPImageBasedLight.PNAME_SPECULAR_IMAGE_SIZE);
    LookupFound(ms, MMPImageBasedLight.PNAME_EXTRAS);
  }

  /** The required members hold each required key once, and neither optional key nor `extras`. */
  lemma RequiredLookup(l: MMPImageBasedLight)
    requires l.Writable()
    ensures Lookup(l.RequiredMembers(), MMPImageBasedLight.PNAME_NAME) == None
    ensures Lookup(l.RequiredMembers(), MMPImageBasedLight.PNAME_ROTATION) == None
    ensures Lookup(l.RequiredMembers(), MMPImageBasedLight.PNAME_INTENSITY) == Some(JDouble(l.intensity))
    ensures Lookup(l.RequiredMembers(), MMPImageBasedLight.PNAME_IRRADIANCE_COEFFICIENTS)
         == Some(CoefficientsJson(l.irradianceCoefficients))
    ensures Lookup(l.RequiredMembers(), MMPImageBasedLight.PNAME_SPECULAR_IMAGE) == Some(JInteger(l.specularImage.id))
    ensures Lookup(l.RequiredMembers(), MMPImageBasedLight.PNAME_SPECULAR_IMAGE_SIZE) == Some(JInteger(l.specularImageSize))
    ensures Lookup(l.RequiredMembers(), MMPImageBasedLight.PNAME_EXTRAS) == None
  {
    var ms := l.RequiredMembers();
    assert Keys(ms) == [MMPImageBasedLight.PNAME_INTENSITY, MMPImageBasedLight.PNAME_IRRADIANCE_COEFFICIENTS,
                        MMPImageBasedLight.PNAME_SPECULAR_IMAGE, MMPImageBasedLight.PNAME_SPECULAR_IMAGE_SIZE];
    LookupFound(ms, MMPImageBasedLight.PNAME_NAME);
    LookupFound(ms, MMPImageBasedLight.PNAME_ROTATION);
    LookupFound(ms, MMPImageBasedLight.PNAME_EXTRAS);
    LookupAt(ms, MMPImageBasedLight.PNAME_INTENSITY, 0);
    LookupAt(ms, MMPImageBasedLight.PNAME_IRRADIANCE_COEFFICIENTS, 1);
    LookupAt(ms, MMPImageBasedLight.PNAME_SPECULAR_IMAGE, 2);
    LookupAt(ms, MMPImageBasedLight.PNAME_SPECULAR_IMAGE_SIZE, 3);
  }

  /** Each key's value in the written object: absent for an elided optional key. */
  lemma MembersLookup(l: MMPImageBasedLight)
    requires l.Writable()
    ensures Lookup(l.Members(), MMPImageBasedLight.PNAME_NAME)
         == if l.lightName.Some? then Some(JString(l.lightName.value)) else None
    ensures Lookup(l.Members(), MMPImageBasedLight.PNAME_ROTATION)
         == if l.rotation != Identity then Some(RotationJson(l.rotation)) else None
    ensures Lookup(l.Members(), MMPImageBasedLight.PNAME_INTENSITY) == Some(JDouble(l.intensity))
    ensures Lookup(l.Members(), MMPImageBasedLight.PNAME_IRRADIANCE_COEFFICIENTS)
         == Some(CoefficientsJson(l.irradianceCoefficients))
    ensures Lookup(l.Members(), MMPImageBasedLight.PNAME_SPECULAR_IMAGE) == Some(JInteger(l.specularImage.id))
    ensures Lookup(l.Members(), MMPImageBasedLight.PNAME_SPECULAR_IMAGE_SIZE) == Some(JInteger(l.specularImageSize))
    ensures Lookup(l.Members(), MMPImageBasedLight.PNAME_EXTRAS)
         == if l.extras.Some? then Some(JExtras(l.extras.value)) else None
  {
    var a, e := l.OptionalMembers() + l.RequiredMembers(), l.ExtrasMembers();
    LeadingMembersLookup(l);
    LookupAppend(a, e, MMPImageBasedLight.PNAME_NAME);
    LookupAppend(a, e, MMPImageBasedLight.PNAME_ROTATION);
    LookupAppend(a, e, MMPImageBasedLight.PNAME_INTENSITY);
    LookupAppend(a, e, MMPImageBasedLight.PNAME_IRRADIANCE_COEFFICIENTS);
    LookupAppend(a, e, MMPImageBasedLight.PNAME_SPECULAR_IMAGE);
    LookupAppend(a, e, MMPImageBasedLight.PNAME_SPECULAR_IMAGE_SIZE);
    LookupAppend(a, e, MMPImageBasedLight.PNAME_EXTRAS);
    LookupFound(e, MMPImageBasedLight.PNAME_NAME);
    LookupFound(e, MMPImageBasedLight.PNAME_ROTATION);
  }

  /**
   * `name` is present iff the light name is set, `rotation` iff it is not the
   * identity (as [X, Y, Z, W]), and `extras` iff the bag is set.
   */
  lemma OptionalKeysIff(l: MMPImageBasedLight)
    requires l.Writable()
    ensures MMPImageBasedLight.PNAME_NAME in Keys(l.Members()) <==> l.lightName.Some?
    ensures MMPImageBasedLight.PNAME_ROTATION in Keys(l.Members()) <==> l.rotation != Identity
    ensures MMPImageBasedLight.PNAME_EXTRAS in Keys(l.Members()) <==> l.extras.Some?
    ensures l.rotation != Identity ==>
              Lookup(l.Members(), MMPImageBasedLight.PNAME_ROTATION)
              == Some(JArray([JDouble(l.rotation.x), JDouble(l.rotation.y), JDouble(l.rotation.z), JDouble(l.rotation.w)]))
  {
    MembersLookup(l);
    LookupFound(l.Members(), MMPImageBasedLight.PNAME_NAME);
    LookupFound(l.Members(), MMPImageBasedLight.PNAME_ROTATION);
    LookupFound(l.Members(), MMPImageBasedLight.PNAME_EXTRAS);
  }

  /**
   * Reading the written object back recovers every written field exactly:
   * the name (or its absence), the rotation (the identity when elided), the
   * intensity, the 9x3 coefficients, the image id, the image size and the
   * extras bag (or its absence).
   */
  lemma WireRoundTrip(l: MMPImageBasedLight)
    requires l.Writable()
    ensures MMPImageBasedLight.Decode(l.Members()) == Some(l.Wire())
  {
    MembersLookup(l);
    CoefficientsRoundTrip(l.irradianceCoefficients);
    var ms := l.Members();
    assert DecodeName(Lookup(ms, MMPImageBasedLight.PNAME_NAME)) == Some(l.lightName);
    assert DecodeRotation(Lookup(ms, MMPImageBasedLight.PNAME_ROTATION)) == Some(l.rotation);
    assert MMPImageBasedLight.DecodeExtras(Lookup(ms, MMPImageBasedLight.PNAME_EXTRAS)) == Some(l.extras);
  }

  /** The light's tokens, once closed, read back as the object of its members. */
  lemma ClosedTokensParse(l: MMPImageBasedLight)
    requires l.Writable()
    ensures Encode(JObject(l.Members())) == l.Tokens() + [EndObject]
    ensures Parse(l.Tokens() + [EndObject]) == Some(JObject(l.Members()))
  {
    ParseEncodeDocument(JObject(l.Members()));
  }

  /** The tokens `Serialize` writes leave exactly one object open. */
  lemma TokensLeaveObjectOpen(l: MMPImageBasedLight)
    requires l.Writable()
    ensures Depth(l.Tokens()) == 1
  {
    EncodeMembersBalanced(l.Members());
    DepthAppend([StartObject], EncodeMembers(l.Members()));
  }

  // ---------------------------------------------------------------------------
  // The copy made on clone.

  /**
   * The copy keeps the inherited fields, shares the image handle (still bound
   * to the source's root) and is written like its source iff the light name
   * is unset or equal to the inherited name.
   */
  lemma CopyFromEffect(l: MMPImageBasedLight, gltfRoot: object)
    ensures var c := MMPImageBasedLight.CopyFrom(l, gltfRoot);
      && c.name == l.name && c.extras == l.extras
      && c.lightName == (if l.lightName.Some? then l.name else None)
      && c.rotation == l.rotation && c.intensity == l.intensity
      && c.irradianceCoefficients == l.irradianceCoefficients
      && c.specularImage == l.specularImage && c.specularImageSize == l.specularImageSize
      && c.Writable() == l.Writable()
      && (l.Writable() ==> (c.Members() == l.Members() <==> l.lightName.None? || l.lightName == l.name))
  {
    var c := MMPImageBasedLight.CopyFrom(l, gltfRoot);
    if l.Writable() && c.Members() == l.Members() {
      WireRoundTrip(l);
      WireRoundTrip(c);
      assert c.Wire().lightName == l.Wire().lightName;
    }
  }

  /** The intended copy is written exactly like its source, with its image bound to the new root. */
  lemma CopyFromIntendedEffect(l: MMPImageBasedLight, gltfRoot: object)
    requires l.Writable()
    ensures var c := MMPImageBasedLight.CopyFromIntended(l, gltfRoot);
      && c.name == l.name && c.extras == l.extras && c.lightName == l.lightName
      && c.rotation == l.rotation && c.intensity == l.intensity
      && c.irradianceCoefficients == l.irradianceCoefficients && c.specularImageSize == l.specularImageSize
      && c.Writable()
      && c.Members() == l.Members()
      && c.specularImage == ImageId(l.specularImage.id, gltfRoot)
  {
  }
}
