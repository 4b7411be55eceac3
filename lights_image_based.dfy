/**
 * The document-level side of the two image-based-lighting extensions: the
 * root's extension table, the per-document containers of lights, the light
 * handles scenes hold, the scene extensions and the factories that create the
 * containers from a document.
 */
module LightsImageBased {
  import opened Wrappers
  import opened GltfHost
  import opened JsonTokens
  import Ext = ExtImageBasedLight
  import Mmp = MmpImageBasedLight

  /**
   * An entry of the root's extension table, tagged by the class of the object
   * registered (the table itself holds untyped extension objects).
   */
  datatype Extension =
    | ExtLights(ext: ExtLightsImageBasedExtension)
    | MmpLights(mmp: MmpLightsImageBasedExtension)
    | OtherExtension

  /** The part of a glTF root these extensions read: its table of extensions by name. */
  class GltfRoot {
    var extensions: map<string, Extension>

    constructor()
      ensures extensions == map[]
    {
      extensions := map[];
    }
  }

  // ---------------------------------------------------------------------------
  // Factories.

  class ExtLightsImageBasedExtensionFactory {
    static const EXTENSION_NAME: string := "EXT_lights_image_based"
    static const PNAME_LIGHTS: string := "lights"
    static const PNAME_LIGHT: string := "light"

    /** The name this factory is registered under. */
    var extensionName: string

    constructor()
      ensures extensionName == EXTENSION_NAME
    {
      extensionName := EXTENSION_NAME;
    }

    /** Reads the extension from a document: the token is ignored and the container is empty. */
    method Deserialize(root: GltfRoot, extensionToken: Member) returns (r: ExtLightsImageBasedExtension)
      ensures fresh(r) && r.lights == []
    {
      r := new ExtLightsImageBasedExtension();
    }
  }

  class MmpLightsImageBasedExtensionFactory {
    static const EXTENSION_NAME: string := "MMP_lights_image_based"
    static const PNAME_LIGHTS: string := "lights"
    static const PNAME_LIGHT: string := "light"

    /** The name this factory is registered under. */
    var extensionName: string

    constructor()
      ensures extensionName == EXTENSION_NAME
    {
      extensionName := EXTENSION_NAME;
    }

    /** Reads the extension from a document: the token is ignored and the container is empty. */
    method Deserialize(root: GltfRoot, extensionToken: Member) returns (r: MmpLightsImageBasedExtension)
      ensures fresh(r) && r.lights == []
    {
      r := new MmpLightsImageBasedExtension();
    }
  }

  // ---------------------------------------------------------------------------
  // The serialised form of a container: `"NAME": { "lights": [ ... ] }`, where
  // each light's object is opened and never closed.

  /** The lights array as the container writes it. */
  function LightsArrayTokens(objs: seq<seq<Member>>): seq<Token>
  {
    [StartArray] + OpenObjects(objs) + [EndArray]
  }

  /** The whole extension property as the container returns it. */
  function PropertyTokens(name: string, lightsKey: string, objs: seq<seq<Member>>): seq<Token>
  {
    [PropertyName(name), StartObject, PropertyName(lightsKey)] + LightsArrayTokens(objs) + [EndObject]
  }

  /** The extension property a conformant writer would produce: every light object closed. */
  function IntendedProperty(name: string, lightsKey: string, objs: seq<seq<Member>>): Member
  {
    Member(name, JObject([Member(lightsKey, JArray(ClosedObjects(objs)))]))
  }

  predicate ExtAllWritable(ls: seq<Ext.ImageBasedLight>)
  {
    forall i :: 0 <= i < |ls| ==> ls[i].Writable()
  }

  predicate MmpAllWritable(ls: seq<Mmp.MMPImageBasedLight>)
  {
    forall i :: 0 <= i < |ls| ==> ls[i].Writable()
  }

  function ExtLightMembers(ls: seq<Ext.ImageBasedLight>): seq<seq<Member>>
    requires ExtAllWritable(ls)
  {
    seq(|ls|, i requires 0 <= i < |ls| => ls[i].Members())
  }

  function MmpLightMembers(ls: seq<Mmp.MMPImageBasedLight>): seq<seq<Member>>
    requires MmpAllWritable(ls)
  {
    seq(|ls|, i requires 0 <= i < |ls| => ls[i].Members())
  }

  lemma ExtLightMembersSnoc(ls: seq<Ext.ImageBasedLight>, i: int)
    requires ExtAllWritable(ls) && 0 <= i < |ls|
    ensures ExtLightMembers(ls[..i + 1]) == ExtLightMembers(ls[..i]) + [ls[i].Members()]
  {
  }

  lemma MmpLightMembersSnoc(ls: seq<Mmp.MMPImageBasedLight>, i: int)
    requires MmpAllWritable(ls) && 0 <= i < |ls|
    ensures MmpLightMembers(ls[..i + 1]) == MmpLightMembers(ls[..i]) + [ls[i].Members()]
  {
  }

  /** The corrected property's tokens: the objects closed one after the other inside the array. */
  lemma IntendedPropertyTokens(name: string, lightsKey: string, objs: seq<seq<Member>>)
    ensures EncodeMember(IntendedProperty(name, lightsKey, objs))
         == [PropertyName(name), StartObject, PropertyName(lightsKey)] + ([StartArray] + CloseEach(objs) + [EndArray]) + [EndObject]
  {
    ClosedObjectsTokens(objs);
    SingleMemberObject(lightsKey, JArray(ClosedObjects(objs)));
  }

  /** The copies the copy constructor makes of each light, in order. */
  function ExtCopies(ls: seq<Ext.ImageBasedLight>, gltfRoot: object): seq<Ext.ImageBasedLight>
  {
    seq(|ls|, i requires 0 <= i < |ls| => Ext.ImageBasedLight.CopyFrom(ls[i], gltfRoot))
  }

  function ExtIntendedCopies(ls: seq<Ext.ImageBasedLight>, gltfRoot: object): seq<Ext.ImageBasedLight>
  {
    seq(|ls|, i requires 0 <= i < |ls| => Ext.ImageBasedLight.CopyFromIntended(ls[i], gltfRoot))
  }

  function MmpCopies(ls: seq<Mmp.MMPImageBasedLight>, gltfRoot: object): seq<Mmp.MMPImageBasedLight>
  {
    seq(|ls|, i requires 0 <= i < |ls| => Mmp.MMPImageBasedLight.CopyFrom(ls[i], gltfRoot))
  }

  function MmpIntendedCopies(ls: seq<Mmp.MMPImageBasedLight>, gltfRoot: object): seq<Mmp.MMPImageBasedLight>
  {
    seq(|ls|, i requires 0 <= i < |ls| => Mmp.MMPImageBasedLight.CopyFromIntended(ls[i], gltfRoot))
  }

  // ---------------------------------------------------------------------------
  // Containers.

  /** The document-level EXT extension: the list of lights. */
  class ExtLightsImageBasedExtension {
    var lights: seq<Ext.ImageBasedLight>

    constructor()
      ensures lights == []
    {
      lights := [];
    }

    /** `Lights.Add`. */
    method AddLight(light: Ext.ImageBasedLight)
      modifies this
      ensures lights == old(lights) + [light]
    {
      lights := lights + [light];
    }

    /**
     * Copies every light into a new container, then returns a second, empty
     * container instead of the copy.
     */
    method Clone(gltfRoot: GltfRoot) returns (r: ExtLightsImageBasedExtension)
      ensures fresh(r) && r.lights == []
    {
      var clone := new ExtLightsImageBasedExtension();
      for i := 0 to |lights|
        invariant fresh(clone)
        invariant clone.lights == ExtCopies(lights[..i], gltfRoot)
      {
        clone.AddLight(Ext.ImageBasedLight.CopyFrom(lights[i], gltfRoot));
      }
      r := new ExtLightsImageBasedExtension();
    }

    /** The evident intent: return the copy, each light copied faithfully and rebound to the new root. */
    method CloneIntended(gltfRoot: GltfRoot) returns (r: ExtLightsImageBasedExtension)
      ensures fresh(r) && r.lights == ExtIntendedCopies(lights, gltfRoot)
    {
      r := new ExtLightsImageBasedExtension();
      for i := 0 to |lights|
        invariant fresh(r)
        invariant r.lights == ExtIntendedCopies(lights[..i], gltfRoot)
      {
        r.AddLight(Ext.ImageBasedLight.CopyFromIntended(lights[i], gltfRoot));
      }
      assert lights[..|lights|] == lights;
    }

    /** Writes every light into one array and wraps it as `"EXT_lights_image_based": {"lights": [...]}`. */
    method Serialize() returns (p: seq<Token>)
      requires ExtAllWritable(lights)
      ensures p == PropertyTokens(ExtLightsImageBasedExtensionFactory.EXTENSION_NAME,
                                  ExtLightsImageBasedExtensionFactory.PNAME_LIGHTS, ExtLightMembers(lights))
    {
      var writer := new JsonWriter();
      writer.WriteStartArray();
      for i := 0 to |lights|
        invariant writer.tokens == [StartArray] + OpenObjects(ExtLightMembers(lights[..i]))
      {
        lights[i].Serialize(writer);
        OpenObjectsAppend(ExtLightMembers(lights[..i]), lights[i].Members());
        ExtLightMembersSnoc(lights, i);
      }
      writer.WriteEndArray();
      assert lights[..|lights|] == lights;
      p := [PropertyName(ExtLightsImageBasedExtensionFactory.EXTENSION_NAME), StartObject,
            PropertyName(ExtLightsImageBasedExtensionFactory.PNAME_LIGHTS)] + writer.tokens + [EndObject];
    }

    /** The evident intent: every light object closed, so the property is well formed. */
    method SerializeIntended() returns (p: seq<Token>)
      requires ExtAllWritable(lights)
      ensures p == EncodeMember(IntendedProperty(ExtLightsImageBasedExtensionFactory.EXTENSION_NAME,
                                                 ExtLightsImageBasedExtensionFactory.PNAME_LIGHTS, ExtLightMembers(lights)))
    {
      var writer := new JsonWriter();
      writer.WriteStartArray();
      for i := 0 to |lights|
        invariant writer.tokens == [StartArray] + CloseEach(ExtLightMembers(lights[..i]))
      {
        lights[i].SerializeClosed(writer);
        CloseEachAppend(ExtLightMembers(lights[..i]), lights[i].Members());
        ExtLightMembersSnoc(lights, i);
      }
      writer.WriteEndArray();
      assert lights[..|lights|] == lights;
      IntendedPropertyTokens(ExtLightsImageBasedExtensionFactory.EXTENSION_NAME, ExtLightsImageBasedExtensionFactory.PNAME_LIGHTS, ExtLightMembers(lights));
      p := [PropertyName(ExtLightsImageBasedExtensionFactory.EXTENSION_NAME), StartObject,
            PropertyName(ExtLightsImageBasedExtensionFactory.PNAME_LIGHTS)] + writer.tokens + [EndObject];
    }
  }

  /** The document-level MMP extension: the list of lights. */
  class MmpLightsImageBasedExtension {
    var lights: seq<Mmp.MMPImageBasedLight>

    constructor()
      ensures lights == []
    {
      lights := [];
    }

    /** `Lights.Add`. */
    method AddLight(light: Mmp.MMPImageBasedLight)
      modifies this
      ensures lights == old(lights) + [light]
    {
      lights := lights + [light];
    }

    /** Copies every light into a new container and returns it. */
    method Clone(gltfRoot: GltfRoot) returns (r: MmpLightsImageBasedExtension)
      ensures fresh(r) && r.lights == MmpCopies(lights, gltfRoot)
    {
      r := new MmpLightsImageBasedExtension();
      for i := 0 to |lights|
        invariant fresh(r)
        invariant r.lights == MmpCopies(lights[..i], gltfRoot)
      {
        r.AddLight(Mmp.MMPImageBasedLight.CopyFrom(lights[i], gltfRoot));
      }
      assert lights[..|lights|] == lights;
    }

    /** The evident intent: each light copied faithfully and rebound to the new root. */
    method CloneIntended(gltfRoot: GltfRoot) returns (r: MmpLightsImageBasedExtension)
      ensures fresh(r) && r.lights == MmpIntendedCopies(lights, gltfRoot)
    {
      r := new MmpLightsImageBasedExtension();
      for i := 0 to |lights|
        invariant fresh(r)
        invariant r.lights == MmpIntendedCopies(lights[..i], gltfRoot)
      {
        r.AddLight(Mmp.MMPImageBasedLight.CopyFromIntended(lights[i], gltfRoot));
      }
      assert lights[..|lights|] == lights;
    }

    /** Writes every light into one array and wraps it as `"MMP_lights_image_based": {"lights": [...]}`. */
    method Serialize() returns (p: seq<Token>)
      requires MmpAllWritable(lights)
      ensures p == PropertyTokens(MmpLightsImageBasedExtensionFactory.EXTENSION_NAME,
                                  MmpLightsImageBasedExtensionFactory.PNAME_LIGHTS, MmpLightMembers(lights))
    {
      var writer := new JsonWriter();
      writer.WriteStartArray();
      for i := 0 to |lights|
        invariant writer.tokens == [StartArray] + OpenObjects(MmpLightMembers(lights[..i]))
      {
        lights[i].Serialize(writer);
        OpenObjectsAppend(MmpLightMembers(lights[..i]), lights[i].Members());
        MmpLightMembersSnoc(lights, i);
      }
      writer.WriteEndArray();
      assert lights[..|lights|] == lights;
      p := [PropertyName(MmpLightsImageBasedExtensionFactory.EXTENSION_NAME), StartObject,
            PropertyName(MmpLightsImageBasedExtensionFactory.PNAME_LIGHTS)] + writer.tokens + [EndObject];
    }

    /** The evident intent: every light object closed, so the property is well formed. */
    method SerializeIntended() returns (p: seq<Token>)
      requires MmpAllWritable(lights)
      ensures p == EncodeMember(IntendedProperty(MmpLightsImageBasedExtensionFactory.EXTENSION_NAME,
                                                 MmpLightsImageBasedExtensionFactory.PNAME_LIGHTS, MmpLightMembers(lights)))
    {
      var writer := new JsonWriter();
      writer.WriteStartArray();
      for i := 0 to |lights|
        invariant writer.tokens == [StartArray] + CloseEach(MmpLightMembers(lights[..i]))
      {
        lights[i].SerializeClosed(writer);
        CloseEachAppend(MmpLightMembers(lights[..i]), lights[i].Members());
        MmpLightMembersSnoc(lights, i);
      }
      writer.WriteEndArray();
      assert lights[..|lights|] == lights;
      IntendedPropertyTokens(MmpLightsImageBasedExtensionFactory.EXTENSION_NAME, MmpLightsImageBasedExtensionFactory.PNAME_LIGHTS, MmpLightMembers(lights));
      p := [PropertyName(MmpLightsImageBasedExtensionFactory.EXTENSION_NAME), StartObject,
            PropertyName(MmpLightsImageBasedExtensionFactory.PNAME_LIGHTS)] + writer.tokens + [EndObject];
    }
  }

  // ---------------------------------------------------------------------------
  // Light handles.

  const EXT_NOT_FOUND: string := "EXT_lights_image_based not found on root object"
  const MMP_NOT_FOUND: string := "MMP_lights_image_based not found on root object"

  /** A reference to an EXT light by its index in the root's EXT container. */
  datatype ImageBasedLightId = ImageBasedLightId(id: int, root: GltfRoot)
  {
    /**
     * The light referred to: the root's entry under the EXT name, cast to the
     * EXT container (null when it is another class), indexed by `id`.
     */
    function Value(): (r: Result<Ext.ImageBasedLight, Error>)
      reads root
      reads if ExtLightsImageBasedExtensionFactory.EXTENSION_NAME in root.extensions
               && root.extensions[ExtLightsImageBasedExtensionFactory.EXTENSION_NAME].ExtLights?
            then {root.extensions[ExtLightsImageBasedExtensionFactory.EXTENSION_NAME].ext} else {}
      ensures r.Success? <==>
                && ExtLightsImageBasedExtensionFactory.EXTENSION_NAME in root.extensions
                && root.extensions[ExtLightsImageBasedExtensionFactory.EXTENSION_NAME].ExtLights?
                && 0 <= id < |root.extensions[ExtLightsImageBasedExtensionFactory.EXTENSION_NAME].ext.lights|
      ensures r.Success? ==> r.value == root.extensions[ExtLightsImageBasedExtensionFactory.EXTENSION_NAME].ext.lights[id]
      ensures (ExtLightsImageBasedExtensionFactory.EXTENSION_NAME !in root.extensions)
                <==> (r == Failure(ExtensionNotFound(EXT_NOT_FOUND)))
      ensures (r == Failure(NullReference))
                <==> (&& ExtLightsImageBasedExtensionFactory.EXTENSION_NAME in root.extensions
                      && !root.extensions[ExtLightsImageBasedExtensionFactory.EXTENSION_NAME].ExtLights?)
      ensures (r == Failure(ArgumentOutOfRange))
                <==> (&& ExtLightsImageBasedExtensionFactory.EXTENSION_NAME in root.extensions
                      && root.extensions[ExtLightsImageBasedExtensionFactory.EXTENSION_NAME].ExtLights?
                      && !(0 <= id < |root.extensions[ExtLightsImageBasedExtensionFactory.EXTENSION_NAME].ext.lights|))
    {
      var key := ExtLightsImageBasedExtensionFactory.EXTENSION_NAME;
      if key in root.extensions then
        match root.extensions[key]
        case ExtLights(extension) =>
          if 0 <= id < |extension.lights| then Success(extension.lights[id]) else Failure(ArgumentOutOfRange)
        case _ => Failure(NullReference)
      else
        Failure(ExtensionNotFound(EXT_NOT_FOUND))
    }

    /** The copy constructor: the same index, scoped to a new root. */
    static function CopyFrom(lightId: ImageBasedLightId, newRoot: GltfRoot): (r: ImageBasedLightId)
      ensures r.id == lightId.id && r.root == newRoot
    {
      ImageBasedLightId(lightId.id, newRoot)
    }

    /**
     * Reads a handle from the next token, an integer or null (`ReadAsInt32`);
     * taking `.Value` of a null fails.
     */
    static function Deserialize(root: GltfRoot, next: Option<int>): (r: Result<ImageBasedLightId, Error>)
      ensures r.Success? <==> next.Some?
      ensures r.Success? ==> r.value.id == next.value && r.value.root == root
      ensures r.Failure? ==> r.error == InvalidOperation
    {
      match next
      case Some(id) => Success(ImageBasedLightId(id, root))
      case None => Failure(InvalidOperation)
    }
  }

  /** A reference to an MMP light by its index. */
  datatype MmpImageBasedLightId = MmpImageBasedLightId(id: int, root: GltfRoot)
  {
    /**
     * The light referred to, as written: the root's entry under the EXT name
     * (not the MMP name), cast to the MMP container, indexed by `id`; the
     * message of the not-found failure names the MMP extension.
     */
    function Value(): (r: Result<Mmp.MMPImageBasedLight, Error>)
      reads root
      reads if ExtLightsImageBasedExtensionFactory.EXTENSION_NAME in root.extensions
               && root.extensions[ExtLightsImageBasedExtensionFactory.EXTENSION_NAME].MmpLights?
            then {root.extensions[ExtLightsImageBasedExtensionFactory.EXTENSION_NAME].mmp} else {}
      ensures r.Success? <==>
                && ExtLightsImageBasedExtensionFactory.EXTENSION_NAME in root.extensions
                && root.extensions[ExtLightsImageBasedExtensionFactory.EXTENSION_NAME].MmpLights?
                && 0 <= id < |root.extensions[ExtLightsImageBasedExtensionFactory.EXTENSION_NAME].mmp.lights|
      ensures r.Success? ==> r.value == root.extensions[ExtLightsImageBasedExtensionFactory.EXTENSION_NAME].mmp.lights[id]
      ensures (ExtLightsImageBasedExtensionFactory.EXTENSION_NAME !in root.extensions)
                <==> (r == Failure(ExtensionNotFound(MMP_NOT_FOUND)))
      ensures (r == Failure(ArgumentOutOfRange))
                <==> (&& ExtLightsImageBasedExtensionFactory.EXTENSION_NAME in root.extensions
                      && root.extensions[ExtLightsImageBasedExtensionFactory.EXTENSION_NAME].MmpLights?
                      && !(0 <= id < |root.extensions[ExtLightsImageBasedExtensionFactory.EXTENSION_NAME].mmp.lights|))
      ensures (r == Failure(NullReference))
                <==> (&& ExtLightsImageBasedExtensionFactory.EXTENSION_NAME in root.extensions
                      && !root.extensions[ExtLightsImageBasedExtensionFactory.EXTENSION_NAME].MmpLights?)
    {
      var key := ExtLightsImageBasedExtensionFactory.EXTENSION_NAME;
      if key in root.extensions then
        match root.extensions[key]
        case MmpLights(extension) =>
          if 0 <= id < |extension.lights| then Success(extension.lights[id]) else Failure(ArgumentOutOfRange)
        case _ => Failure(NullReference)
      else
        Failure(ExtensionNotFound(MMP_NOT_FOUND))
    }

    /** The evident intent: the entry under the MMP name. */
    function ValueIntended(): (r: Result<Mmp.MMPImageBasedLight, Error>)
      reads root
      reads if MmpLightsImageBasedExtensionFactory.EXTENSION_NAME in root.extensions
               && root.extensions[MmpLightsImageBasedExtensionFactory.EXTENSION_NAME].MmpLights?
            then {root.extensions[MmpLightsImageBasedExtensionFactory.EXTENSION_NAME].mmp} else {}
      ensures r.Success? <==>
                && MmpLightsImageBasedExtensionFactory.EXTENSION_NAME in root.extensions
                && root.extensions[MmpLightsImageBasedExtensionFactory.EXTENSION_NAME].MmpLights?
                && 0 <= id < |root.extensions[MmpLightsImageBasedExtensionFactory.EXTENSION_NAME].mmp.lights|
      ensures r.Success? ==> r.value == root.extensions[MmpLightsImageBasedExtensionFactory.EXTENSION_NAME].mmp.lights[id]
      ensures (MmpLightsImageBasedExtensionFactory.EXTENSION_NAME !in root.extensions)
                <==> (r == Failure(ExtensionNotFound(MMP_NOT_FOUND)))
      ensures (r == Failure(ArgumentOutOfRange))
                <==> (&& MmpLightsImageBasedExtensionFactory.EXTENSION_NAME in root.extensions
                      && root.extensions[MmpLightsImageBasedExtensionFactory.EXTENSION_NAME].MmpLights?
                      && !(0 <= id < |root.extensions[MmpLightsImageBasedExtensionFactory.EXTENSION_NAME].mmp.lights|))
      ensures (r == Failure(NullReference))
                <==> (&& MmpLightsImageBasedExtensionFactory.EXTENSION_NAME in root.extensions
                      && !root.extensions[MmpLightsImageBasedExtensionFactory.EXTENSION_NAME].MmpLights?)
    {
      var key := MmpLightsImageBasedExtensionFactory.EXTENSION_NAME;
      if key in root.extensions then
        match root.extensions[key]
        case MmpLights(extension) =>
          if 0 <= id < |extension.lights| then Success(extension.lights[id]) else Failure(ArgumentOutOfRange)
        case _ => Failure(NullReference)
      else
        Failure(ExtensionNotFound(MMP_NOT_FOUND))
    }

    /** The copy constructor: the same index, scoped to a new root. */
    static function CopyFrom(lightId: MmpImageBasedLightId, newRoot: GltfRoot): (r: MmpImageBasedLightId)
      ensures r.id == lightId.id && r.root == newRoot
    {
      MmpImageBasedLightId(lightId.id, newRoot)
    }

    /** Reads a handle from the next token, an integer or null; taking `.Value` of a null fails. */
    static function Deserialize(root: GltfRoot, next: Option<int>): (r: Result<MmpImageBasedLightId, Error>)
      ensures r.Success? <==> next.Some?
      ensures r.Success? ==> r.value.id == next.value && r.value.root == root
      ensures r.Failure? ==> r.error == InvalidOperation
    {
      match next
      case Some(id) => Success(MmpImageBasedLightId(id, root))
      case None => Failure(InvalidOperation)
    }
  }

  // ---------------------------------------------------------------------------
  // Scene extensions: a scene's reference to one light.

  /** Reads the light index back from a scene extension property (the reader this model adds). */
  function ReadSceneLight(p: Member, name: string, lightKey: string): Option<int>
  {
    if p.key == name && p.value.JObject? then
      match Lookup(p.value.members, lightKey)
      case Some(JInteger(i)) => Some(i)
      case _ => None
    else None
  }

  datatype ExtLightsImageBasedSceneExtension = ExtLightsImageBasedSceneExtension(lightId: ImageBasedLightId)
  {
    /** The constructor taking a handle: the handle is kept as is and the root ignored. */
    static function FromLightId(lightId: ImageBasedLightId, gltfRoot: GltfRoot): (r: ExtLightsImageBasedSceneExtension)
      ensures r.lightId == lightId
    {
      ExtLightsImageBasedSceneExtension(lightId)
    }

    /** The constructor taking an index: a new handle scoped to the given root. */
    static function FromIndex(lightId: int, gltfRoot: GltfRoot): (r: ExtLightsImageBasedSceneExtension)
      ensures r.lightId.id == lightId && r.lightId.root == gltfRoot
    {
      ExtLightsImageBasedSceneExtension(ImageBasedLightId(lightId, gltfRoot))
    }

    /** The same light index, scoped to the destination root. */
    function Clone(root: GltfRoot): (r: ExtLightsImageBasedSceneExtension)
      ensures r.lightId.id == lightId.id && r.lightId.root == root
      ensures r.Serialize() == Serialize()
    {
      FromIndex(lightId.id, root)
    }

    /** `"EXT_lights_image_based": {"light": id}`. */
    function Serialize(): (r: Member)
      ensures r.key == ExtLightsImageBasedExtensionFactory.EXTENSION_NAME && r.value.JObject?
      ensures Keys(r.value.members) == [ExtLightsImageBasedExtensionFactory.PNAME_LIGHT]
      ensures Lookup(r.value.members, ExtLightsImageBasedExtensionFactory.PNAME_LIGHT) == Some(JInteger(lightId.id))
      ensures EncodeMember(r) == [PropertyName(ExtLightsImageBasedExtensionFactory.EXTENSION_NAME), StartObject,
                                  PropertyName(ExtLightsImageBasedExtensionFactory.PNAME_LIGHT), IntegerValue(lightId.id), EndObject]
    {
      SceneMemberTokens(ExtLightsImageBasedExtensionFactory.EXTENSION_NAME, ExtLightsImageBasedExtensionFactory.PNAME_LIGHT, lightId.id);
      Member(ExtLightsImageBasedExtensionFactory.EXTENSION_NAME,
             JObject([Member(ExtLightsImageBasedExtensionFactory.PNAME_LIGHT, JInteger(lightId.id))]))
    }
  }

  datatype MmpLightsImageBasedSceneExtension = MmpLightsImageBasedSceneExtension(lightId: MmpImageBasedLightId)
  {
    /** The constructor taking a handle: the handle is kept as is and the root ignored. */
    static function FromLightId(lightId: MmpImageBasedLightId, gltfRoot: GltfRoot): (r: MmpLightsImageBasedSceneExtension)
      ensures r.lightId == lightId
    {
      MmpLightsImageBasedSceneExtension(lightId)
    }

    /** The constructor taking an index: a new handle scoped to the given root. */
    static function FromIndex(lightId: int, gltfRoot: GltfRoot): (r: MmpLightsImageBasedSceneExtension)
      ensures r.lightId.id == lightId && r.lightId.root == gltfRoot
    {
      MmpLightsImageBasedSceneExtension(MmpImageBasedLightId(lightId, gltfRoot))
    }

    /** The same light index, scoped to the destination root. */
    function Clone(root: GltfRoot): (r: MmpLightsImageBasedSceneExtension)
      ensures r.lightId.id == lightId.id && r.lightId.root == root
      ensures r.Serialize() == Serialize()
    {
      FromIndex(lightId.id, root)
    }

    /** `"MMP_lights_image_based": {"light": id}`. */
    function Serialize(): (r: Member)
      ensures r.key == MmpLightsImageBasedExtensionFactory.EXTENSION_NAME && r.value.JObject?
      ensures Keys(r.value.members) == [MmpLightsImageBasedExtensionFactory.PNAME_LIGHT]
      ensures Lookup(r.value.members, MmpLightsImageBasedExtensionFactory.PNAME_LIGHT) == Some(JInteger(lightId.id))
      ensures EncodeMember(r) == [PropertyName(MmpLightsImageBasedExtensionFactory.EXTENSION_NAME), StartObject,
                                  PropertyName(MmpLightsImageBasedExtensionFactory.PNAME_LIGHT), IntegerValue(lightId.id), EndObject]
    {
      SceneMemberTokens(MmpLightsImageBasedExtensionFactory.EXTENSION_NAME, MmpLightsImageBasedExtensionFactory.PNAME_LIGHT, lightId.id);
      Member(MmpLightsImageBasedExtensionFactory.EXTENSION_NAME,
             JObject([Member(MmpLightsImageBasedExtensionFactory.PNAME_LIGHT, JInteger(lightId.id))]))
    }
  }

  /** A scene extension's property as written: the extension name around a one-member object. */
  lemma SceneMemberTokens(name: string, lightKey: string, id: int)
    ensures EncodeMember(Member(name, JObject([Member(lightKey, JInteger(id))])))
         == [PropertyName(name), StartObject, PropertyName(lightKey), IntegerValue(id), EndObject]
  {
    SingleMemberObject(lightKey, JInteger(id));
  }

  // ---------------------------------------------------------------------------
  // Properties of containers.

  /**
   * The lights array as written is well formed iff it is empty: any light
   * leaves its object open, which a strict reader rejects.
   */
  lemma LightsArrayParsesIffEmpty(objs: seq<seq<Member>>)
    ensures Parse(LightsArrayTokens(objs)).Some? <==> objs == []
    ensures objs == [] ==> Parse(LightsArrayTokens(objs)) == Some(JArray([]))
  {
    if objs == [] {
      assert LightsArrayTokens(objs) == Encode(JArray([]));
      ParseEncodeDocument(JArray([]));
    } else {
      OpenObjectsRejected(objs);
    }
  }

  /**
   * A container with no lights, such as every container the factories read,
   * is written as the well-formed property `"NAME": {"lights": []}`.
   */
  lemma EmptyPropertyWellFormed(name: string, lightsKey: string)
    ensures PropertyTokens(name, lightsKey, []) == EncodeMember(Member(name, JObject([Member(lightsKey, JArray([]))])))
    ensures IntendedProperty(name, lightsKey, []) == Member(name, JObject([Member(lightsKey, JArray([]))]))
  {
    SingleMemberObject(lightsKey, JArray([]));
    assert ClosedObjects([]) == [];
  }

  /** The lights array as written leaves one object open per light. */
  lemma LightsArrayDepth(objs: seq<seq<Member>>)
    ensures Depth(LightsArrayTokens(objs)) == |objs|
  {
    OpenObjectsDepth(objs);
    DepthAppend([StartArray], OpenObjects(objs));
    DepthAppend([StartArray] + OpenObjects(objs), [EndArray]);
  }

  /** The intended property lists every light, in order, each readable back into what it wrote. */
  lemma ExtIntendedRoundTrip(ls: seq<Ext.ImageBasedLight>)
    requires ExtAllWritable(ls)
    ensures var v := IntendedProperty(ExtLightsImageBasedExtensionFactory.EXTENSION_NAME,
                                      ExtLightsImageBasedExtensionFactory.PNAME_LIGHTS, ExtLightMembers(ls)).value;
      && Parse(Encode(v)) == Some(v)
      && Lookup(v.members, ExtLightsImageBasedExtensionFactory.PNAME_LIGHTS) == Some(JArray(ClosedObjects(ExtLightMembers(ls))))
      && forall i :: 0 <= i < |ls| ==>
           Ext.ImageBasedLight.Decode(ClosedObjects(ExtLightMembers(ls))[i].members) == Some(ls[i].Wire())
  {
    var v := IntendedProperty(ExtLightsImageBasedExtensionFactory.EXTENSION_NAME,
                              ExtLightsImageBasedExtensionFactory.PNAME_LIGHTS, ExtLightMembers(ls)).value;
    ParseEncodeDocument(v);
    forall i | 0 <= i < |ls|
      ensures Ext.ImageBasedLight.Decode(ClosedObjects(ExtLightMembers(ls))[i].members) == Some(ls[i].Wire())
    {
      Ext.WireRoundTrip(ls[i]);
    }
  }

  /** The intended property lists every light, in order, each readable back into what it wrote. */
  lemma MmpIntendedRoundTrip(ls: seq<Mmp.MMPImageBasedLight>)
    requires MmpAllWritable(ls)
    ensures var v := IntendedProperty(MmpLightsImageBasedExtensionFactory.EXTENSION_NAME,
                                      MmpLightsImageBasedExtensionFactory.PNAME_LIGHTS, MmpLightMembers(ls)).value;
      && Parse(Encode(v)) == Some(v)
      && Lookup(v.members, MmpLightsImageBasedExtensionFactory.PNAME_LIGHTS) == Some(JArray(ClosedObjects(MmpLightMembers(ls))))
      && forall i :: 0 <= i < |ls| ==>
           Mmp.MMPImageBasedLight.Decode(ClosedObjects(MmpLightMembers(ls))[i].members) == Some(ls[i].Wire())
  {
    var v := IntendedProperty(MmpLightsImageBasedExtensionFactory.EXTENSION_NAME,
                              MmpLightsImageBasedExtensionFactory.PNAME_LIGHTS, MmpLightMembers(ls)).value;
    ParseEncodeDocument(v);
    forall i | 0 <= i < |ls|
      ensures Mmp.MMPImageBasedLight.Decode(ClosedObjects(MmpLightMembers(ls))[i].members) == Some(ls[i].Wire())
    {
      Mmp.WireRoundTrip(ls[i]);
    }
  }

  /**
   * Copies made by the copy constructor are written exactly like their
   * sources iff every light's name is unset or equal to its inherited name.
   */
  lemma ExtCopiesWrittenAsSource(ls: seq<Ext.ImageBasedLight>, gltfRoot: object)
    requires ExtAllWritable(ls)
    ensures ExtAllWritable(ExtCopies(ls, gltfRoot))
    ensures ExtLightMembers(ExtCopies(ls, gltfRoot)) == ExtLightMembers(ls)
            <==> forall i :: 0 <= i < |ls| ==> ls[i].lightName.None? || ls[i].lightName == ls[i].name
  {
    var cs := ExtCopies(ls, gltfRoot);
    forall i | 0 <= i < |ls|
      ensures cs[i].Writable()
      ensures cs[i].Members() == ls[i].Members() <==> ls[i].lightName.None? || ls[i].lightName == ls[i].name
    {
      Ext.CopyFromEffect(ls[i], gltfRoot);
    }
    if ExtLightMembers(cs) == ExtLightMembers(ls) {
      forall i | 0 <= i < |ls|
        ensures ls[i].lightName.None? || ls[i].lightName == ls[i].name
      {
        assert ExtLightMembers(cs)[i] == ExtLightMembers(ls)[i];
      }
    }
  }

  /** The intended copies are written exactly like their sources, whatever the names. */
  lemma ExtIntendedCopiesWrittenAsSource(ls: seq<Ext.ImageBasedLight>, gltfRoot: object)
    requires ExtAllWritable(ls)
    ensures ExtAllWritable(ExtIntendedCopies(ls, gltfRoot))
    ensures ExtLightMembers(ExtIntendedCopies(ls, gltfRoot)) == ExtLightMembers(ls)
  {
    var cs := ExtIntendedCopies(ls, gltfRoot);
    forall i | 0 <= i < |ls|
      ensures cs[i].Writable() && cs[i].Members() == ls[i].Members()
    {
      Ext.CopyFromIntendedEffect(ls[i], gltfRoot);
    }
  }

  /**
   * Copies made by the copy constructor are written exactly like their
   * sources iff every light's name is unset or equal to its inherited name.
   */
  lemma MmpCopiesWrittenAsSource(ls: seq<Mmp.MMPImageBasedLight>, gltfRoot: object)
    requires MmpAllWritable(ls)
    ensures MmpAllWritable(MmpCopies(ls, gltfRoot))
    ensures MmpLightMembers(MmpCopies(ls, gltfRoot)) == MmpLightMembers(ls)
            <==> forall i :: 0 <= i < |ls| ==> ls[i].lightName.None? || ls[i].lightName == ls[i].name
  {
    var cs := MmpCopies(ls, gltfRoot);
    forall i | 0 <= i < |ls|
      ensures cs[i].Writable()
      ensures cs[i].Members() == ls[i].Members() <==> ls[i].lightName.None? || ls[i].lightName == ls[i].name
    {
      Mmp.CopyFromEffect(ls[i], gltfRoot);
    }
    if MmpLightMembers(cs) == MmpLightMembers(ls) {
      forall i | 0 <= i < |ls|
        ensures ls[i].lightName.None? || ls[i].lightName == ls[i].name
      {
        assert MmpLightMembers(cs)[i] == MmpLightMembers(ls)[i];
      }
    }
  }

  /** The intended copies are written exactly like their sources, whatever the names. */
  lemma MmpIntendedCopiesWrittenAsSource(ls: seq<Mmp.MMPImageBasedLight>, gltfRoot: object)
    requires MmpAllWritable(ls)
    ensures MmpAllWritable(MmpIntendedCopies(ls, gltfRoot))
    ensures MmpLightMembers(MmpIntendedCopies(ls, gltfRoot)) == MmpLightMembers(ls)
  {
    var cs := MmpIntendedCopies(ls, gltfRoot);
    forall i | 0 <= i < |ls|
      ensures cs[i].Writable() && cs[i].Members() == ls[i].Members()
    {
      Mmp.CopyFromIntendedEffect(ls[i], gltfRoot);
    }
  }

  // ---------------------------------------------------------------------------
  // Properties of handles and scene extensions.

  /**
   * As written, an MMP handle never finds a container registered under the
   * MMP name: with nothing under the EXT name it reports the MMP extension
   * missing, and with the EXT container there it fails on the null cast.
   */
  lemma MmpValueMissesMmpEntry(lightId: MmpImageBasedLightId)
    ensures ExtLightsImageBasedExtensionFactory.EXTENSION_NAME !in lightId.root.extensions
            ==> lightId.Value() == Failure(ExtensionNotFound(MMP_NOT_FOUND))
    ensures ExtLightsImageBasedExtensionFactory.EXTENSION_NAME in lightId.root.extensions
            && lightId.root.extensions[ExtLightsImageBasedExtensionFactory.EXTENSION_NAME].ExtLights?
            ==> lightId.Value() == Failure(NullReference)
  {
  }

  /** The intended lookup finds the light in the MMP container whenever the index is in range. */
  lemma MmpValueIntendedFinds(lightId: MmpImageBasedLightId, c: MmpLightsImageBasedExtension)
    requires MmpLightsImageBasedExtensionFactory.EXTENSION_NAME in lightId.root.extensions
    requires lightId.root.extensions[MmpLightsImageBasedExtensionFactory.EXTENSION_NAME] == MmpLights(c)
    requires 0 <= lightId.id < |c.lights|
    requires ExtLightsImageBasedExtensionFactory.EXTENSION_NAME !in lightId.root.extensions
    ensures lightId.ValueIntended() == Success(c.lights[lightId.id])
    ensures lightId.Value() == Failure(ExtensionNotFound(MMP_NOT_FOUND))
  {
  }

  /**
   * Reading a scene extension back against a root gives the handle its clone
   * into that root holds: the index survives serialisation.
   */
  lemma ExtSceneRoundTrip(s: ExtLightsImageBasedSceneExtension, root: GltfRoot)
    ensures ImageBasedLightId.Deserialize(root,
              ReadSceneLight(s.Serialize(), ExtLightsImageBasedExtensionFactory.EXTENSION_NAME,
                             ExtLightsImageBasedExtensionFactory.PNAME_LIGHT))
            == Success(s.Clone(root).lightId)
  {
  }

  lemma MmpSceneRoundTrip(s: MmpLightsImageBasedSceneExtension, root: GltfRoot)
    ensures MmpImageBasedLightId.Deserialize(root,
              ReadSceneLight(s.Serialize(), MmpLightsImageBasedExtensionFactory.EXTENSION_NAME,
                             MmpLightsImageBasedExtensionFactory.PNAME_LIGHT))
            == Success(s.Clone(root).lightId)
  {
  }
}
