/**
 * The JSON writer the serialisers use, modelled as the sequence of calls made
 * on it, together with a JSON value type, the token encoding of a value and a
 * strict reader that turns a token stream back into a value.
 */
module JsonTokens {
  import opened Wrappers
  import opened GltfHost

  /** One call made on the writer. */
  datatype Token =
    | StartObject
    | EndObject
    | StartArray
    | EndArray
    | PropertyName(name: string)
    | StringValue(s: string)
    | DoubleValue(d: Double)
    | IntegerValue(i: int)
    | ExtrasValue(e: Extras)   // `Extras.WriteTo(writer)`: the opaque bag, written whole

  /** A JSON value; objects keep their members in order. */
  datatype Json =
    | JString(s: string)
    | JDouble(d: Double)
    | JInteger(i: int)
    | JExtras(e: Extras)
    | JArray(items: seq<Json>)
    | JObject(members: seq<Member>)

  /** One object member, `"key": value` (a JSON property). */
  datatype Member = Member(key: string, value: Json)

  /** The calls a writer receives when it writes `v`. */
  function Encode(v: Json): seq<Token>
    decreases v
  {
    match v
    case JString(s) => [StringValue(s)]
    case JDouble(d) => [DoubleValue(d)]
    case JInteger(i) => [IntegerValue(i)]
    case JExtras(e) => [ExtrasValue(e)]
    case JArray(items) => [StartArray] + EncodeItems(items) + [EndArray]
    case JObject(ms) => [StartObject] + EncodeMembers(ms) + [EndObject]
  }

  function EncodeItems(items: seq<Json>): seq<Token>
    decreases items
  {
    if items == [] then [] else Encode(items[0]) + EncodeItems(items[1..])
  }

  function EncodeMember(m: Member): seq<Token>
    decreases m
  {
    [PropertyName(m.key)] + Encode(m.value)
  }

  function EncodeMembers(ms: seq<Member>): seq<Token>
    decreases ms
  {
    if ms == [] then [] else EncodeMember(ms[0]) + EncodeMembers(ms[1..])
  }

  /** The keys of an object's members, in order. */
  function Keys(ms: seq<Member>): seq<string>
  {
    seq(|ms|, i requires 0 <= i < |ms| => ms[i].key)
  }

  /** The value of the first member named `key`, if any. */
  function Lookup(ms: seq<Member>, key: string): Option<Json>
  {
    if ms == [] then None
    else if ms[0].key == key then Some(ms[0].value)
    else Lookup(ms[1..], key)
  }

  /** Open objects and arrays minus closed ones: 0 for a balanced stream. */
  function Depth(ts: seq<Token>): int
  {
    if ts == [] then 0
    else
      var d := if ts[0].StartObject? || ts[0].StartArray? then 1
               else if ts[0].EndObject? || ts[0].EndArray? then -1
               else 0;
      d + Depth(ts[1..])
  }

  // ---------------------------------------------------------------------------
  // A strict reader of token streams: every object and array must be closed by
  // its own end token. Each function returns the value read and the tokens left.

  function ParseValue(ts: seq<Token>): (r: Option<(Json, seq<Token>)>)
    ensures r.Some? ==> |r.value.1| < |ts|
    decreases |ts|, 0
  {
    if ts == [] then None
    else match ts[0]
      case StringValue(s) => Some((JString(s), ts[1..]))
      case DoubleValue(d) => Some((JDouble(d), ts[1..]))
      case IntegerValue(i) => Some((JInteger(i), ts[1..]))
      case ExtrasValue(e) => Some((JExtras(e), ts[1..]))
      case StartArray =>
        (match ParseItems(ts[1..])
         case None => None
         case Some((items, rest)) => Some((JArray(items), rest)))
      case StartObject =>
        (match ParseMembers(ts[1..])
         case None => None
         case Some((ms, rest)) => Some((JObject(ms), rest)))
      case _ => None
  }

  /** The items of an array up to and including the closing EndArray. */
  function ParseItems(ts: seq<Token>): (r: Option<(seq<Json>, seq<Token>)>)
    ensures r.Some? ==> |r.value.1| < |ts|
    decreases |ts|, 1
  {
    if ts == [] then None
    else if ts[0].EndArray? then Some(([], ts[1..]))
    else match ParseValue(ts)
      case None => None
      case Some((v, rest)) =>
        match ParseItems(rest)
        case None => None
        case Some((vs, rest')) => Some(([v] + vs, rest'))
  }

  /** The members of an object up to and including the closing EndObject. */
  function ParseMembers(ts: seq<Token>): (r: Option<(seq<Member>, seq<Token>)>)
    ensures r.Some? ==> |r.value.1| < |ts|
    decreases |ts|, 1
  {
    if ts == [] then None
    else if ts[0].EndObject? then Some(([], ts[1..]))
    else if ts[0].PropertyName? then
      match ParseValue(ts[1..])
      case None => None
      case Some((v, rest)) =>
        match ParseMembers(rest)
        case None => None
        case Some((ms, rest')) => Some(([Member(ts[0].name, v)] + ms, rest'))
    else None
  }

  /** A complete document: one value and nothing after it. */
  function Parse(ts: seq<Token>): Option<Json>
  {
    match ParseValue(ts)
    case Some((v, rest)) => if rest == [] then Some(v) else None
    case None => None
  }

  // ---------------------------------------------------------------------------
  // Properties of the encoding.

  /** An encoded value starts with a token that opens a value. */
  lemma EncodeStartsValue(v: Json)
    ensures |Encode(v)| > 0
    ensures !Encode(v)[0].EndArray? && !Encode(v)[0].EndObject? && !Encode(v)[0].PropertyName?
  {
  }

  lemma {:induction false} EncodeItemsAppend(items: seq<Json>, v: Json)
    ensures EncodeItems(items + [v]) == EncodeItems(items) + Encode(v)
    decreases items
  {
    if items == [] {
      assert items + [v] == [v];
    } else {
      assert (items + [v])[1..] == items[1..] + [v];
      EncodeItemsAppend(items[1..], v);
    }
  }

  lemma {:induction false} EncodeMembersAppend(ms: seq<Member>, m: Member)
    ensures EncodeMembers(ms + [m]) == EncodeMembers(ms) + EncodeMember(m)
    decreases ms
  {
    if ms == [] {
      assert ms + [m] == [m];
    } else {
      assert (ms + [m])[1..] == ms[1..] + [m];
      EncodeMembersAppend(ms[1..], m);
    }
  }

  lemma {:induction false} EncodeMembersConcat(a: seq<Member>, b: seq<Member>)
    ensures EncodeMembers(a + b) == EncodeMembers(a) + EncodeMembers(b)
    decreases a
  {
    if a == [] {
      assert a + b == b;
    } else {
      assert (a + b)[1..] == a[1..] + b;
      EncodeMembersConcat(a[1..], b);
    }
  }

  lemma {:induction false} LookupAppend(a: seq<Member>, b: seq<Member>, key: string)
    ensures Lookup(a + b, key) == if Lookup(a, key).Some? then Lookup(a, key) else Lookup(b, key)
    decreases a
  {
    if a == [] {
      assert a + b == b;
    } else {
      assert (a + b)[1..] == a[1..] + b;
      LookupAppend(a[1..], b, key);
    }
  }

  /** A key is found iff some member has it. */
  lemma {:induction false} LookupFound(ms: seq<Member>, key: string)
    ensures Lookup(ms, key).Some? <==> key in Keys(ms)
  {
    if ms != [] {
      LookupFound(ms[1..], key);
      assert Keys(ms) == [ms[0].key] + Keys(ms[1..]);
    }
  }

  lemma EncodeItemsCons(v: Json, rest: seq<Json>)
    ensures EncodeItems([v] + rest) == Encode(v) + EncodeItems(rest)
  {
    assert ([v] + rest)[1..] == rest;
  }

  /** The first member named `key` is the one at index `i`. */
  lemma {:induction false} LookupAt(ms: seq<Member>, key: string, i: nat)
    requires i < |ms| && ms[i].key == key
    requires forall j :: 0 <= j < i ==> ms[j].key != key
    ensures Lookup(ms, key) == Some(ms[i].value)
    decreases i
  {
    if i > 0 {
      LookupAt(ms[1..], key, i - 1);
    }
  }

  lemma KeysAppend(a: seq<Member>, b: seq<Member>)
    ensures Keys(a + b) == Keys(a) + Keys(b)
  {
  }

  lemma {:induction false} DepthAppend(a: seq<Token>, b: seq<Token>)
    ensures Depth(a + b) == Depth(a) + Depth(b)
    decreases a
  {
    if a == [] {
      assert a + b == b;
    } else {
      assert (a + b)[1..] == a[1..] + b;
      DepthAppend(a[1..], b);
    }
  }

  /** Every encoded value is balanced: it closes everything it opens. */
  lemma {:induction false} EncodeBalanced(v: Json)
    ensures Depth(Encode(v)) == 0
    decreases v
  {
    match v
    case JArray(items) =>
      EncodeItemsBalanced(items);
      DepthAppend([StartArray], EncodeItems(items));
      DepthAppend([StartArray] + EncodeItems(items), [EndArray]);
    case JObject(ms) =>
      EncodeMembersBalanced(ms);
      DepthAppend([StartObject], EncodeMembers(ms));
      DepthAppend([StartObject] + EncodeMembers(ms), [EndObject]);
    case _ =>
  }

  lemma {:induction false} EncodeItemsBalanced(items: seq<Json>)
    ensures Depth(EncodeItems(items)) == 0
    decreases items
  {
    if items != [] {
      EncodeBalanced(items[0]);
      EncodeItemsBalanced(items[1..]);
      DepthAppend(Encode(items[0]), EncodeItems(items[1..]));
    }
  }

  lemma {:induction false} EncodeMembersBalanced(ms: seq<Member>)
    ensures Depth(EncodeMembers(ms)) == 0
    decreases ms
  {
    if ms != [] {
      EncodeBalanced(ms[0].value);
      DepthAppend([PropertyName(ms[0].key)], Encode(ms[0].value));
      EncodeMembersBalanced(ms[1..]);
      DepthAppend(EncodeMember(ms[0]), EncodeMembers(ms[1..]));
    }
  }

  /** The reader reads back exactly the value that was written, leaving what follows untouched. */
  lemma {:induction false} ParseEncode(v: Json, rest: seq<Token>)
    ensures ParseValue(Encode(v) + rest) == Some((v, rest))
    decreases v
  {
    match v
    case JArray(items) =>
      var ts := Encode(v) + rest;
      assert ts[1..] == EncodeItems(items) + [EndArray] + rest;
      ParseEncodeItems(items, rest);
    case JObject(ms) =>
      var ts := Encode(v) + rest;
      assert ts[1..] == EncodeMembers(ms) + [EndObject] + rest;
      ParseEncodeMembers(ms, rest);
    case _ =>
      assert (Encode(v) + rest)[1..] == rest;
  }

  lemma {:induction false} ParseEncodeItems(items: seq<Json>, rest: seq<Token>)
    ensures ParseItems(EncodeItems(items) + [EndArray] + rest) == Some((items, rest))
    decreases items
  {
    var ts := EncodeItems(items) + [EndArray] + rest;
    if items == [] {
      assert ts == [EndArray] + rest;
      assert ts[1..] == rest;
    } else {
      var tail := EncodeItems(items[1..]) + [EndArray] + rest;
      assert ts == Encode(items[0]) + tail;
      EncodeStartsValue(items[0]);
      ParseEncode(items[0], tail);
      ParseEncodeItems(items[1..], rest);
      assert [items[0]] + items[1..] == items;
    }
  }

  lemma {:induction false} ParseEncodeMembers(ms: seq<Member>, rest: seq<Token>)
    ensures ParseMembers(EncodeMembers(ms) + [EndObject] + rest) == Some((ms, rest))
    decreases ms
  {
    var ts := EncodeMembers(ms) + [EndObject] + rest;
    if ms == [] {
      assert ts == [EndObject] + rest;
      assert ts[1..] == rest;
    } else {
      var tail := EncodeMembers(ms[1..]) + [EndObject] + rest;
      assert EncodeMembers(ms) == EncodeMember(ms[0]) + EncodeMembers(ms[1..]);
      assert ts == [PropertyName(ms[0].key)] + Encode(ms[0].value) + tail;
      assert ts[1..] == Encode(ms[0].value) + tail;
      ParseEncode(ms[0].value, tail);
      ParseEncodeMembers(ms[1..], rest);
      assert [Member(ms[0].key, ms[0].value)] + ms[1..] == ms;
    }
  }

  /** A written value, on its own, is a complete document that reads back as itself. */
  lemma ParseEncodeDocument(v: Json)
    ensures Parse(Encode(v)) == Some(v)
  {
    ParseEncode(v, []);
    assert Encode(v) + [] == Encode(v);
  }

  /**
   * An object whose members are followed by anything but another member or
   * its closing EndObject is rejected by the reader.
   */
  lemma {:induction false} ParseMembersUnclosed(ms: seq<Member>, rest: seq<Token>)
    requires rest == [] || !(rest[0].PropertyName? || rest[0].EndObject?)
    ensures ParseMembers(EncodeMembers(ms) + rest) == None
    decreases ms
  {
    var ts := EncodeMembers(ms) + rest;
    if ms == [] {
      assert ts == rest;
    } else {
      var tail := EncodeMembers(ms[1..]) + rest;
      assert EncodeMembers(ms) == EncodeMember(ms[0]) + EncodeMembers(ms[1..]);
      assert ts == [PropertyName(ms[0].key)] + Encode(ms[0].value) + tail;
      assert ts[1..] == Encode(ms[0].value) + tail;
      ParseEncode(ms[0].value, tail);
      ParseMembersUnclosed(ms[1..], rest);
    }
  }

  // ---------------------------------------------------------------------------
  // Streams of objects that are opened and never closed, one after the other.

  /** Each member list written as an object whose EndObject never comes. */
  function OpenObjects(objs: seq<seq<Member>>): seq<Token>
    decreases objs
  {
    if objs == [] then [] else [StartObject] + EncodeMembers(objs[0]) + OpenObjects(objs[1..])
  }

  /** The same objects, each closed. */
  function ClosedObjects(objs: seq<seq<Member>>): seq<Json>
  {
    seq(|objs|, i requires 0 <= i < |objs| => JObject(objs[i]))
  }

  lemma {:induction false} OpenObjectsAppend(objs: seq<seq<Member>>, ms: seq<Member>)
    ensures OpenObjects(objs + [ms]) == OpenObjects(objs) + [StartObject] + EncodeMembers(ms)
    decreases objs
  {
    if objs == [] {
      assert objs + [ms] == [ms];
    } else {
      assert (objs + [ms])[1..] == objs[1..] + [ms];
      OpenObjectsAppend(objs[1..], ms);
    }
  }

  /** Every unclosed object leaves one level open. */
  lemma {:induction false} OpenObjectsDepth(objs: seq<seq<Member>>)
    ensures Depth(OpenObjects(objs)) == |objs|
    decreases objs
  {
    if objs != [] {
      OpenObjectsDepth(objs[1..]);
      EncodeMembersBalanced(objs[0]);
      DepthAppend([StartObject], EncodeMembers(objs[0]));
      DepthAppend([StartObject] + EncodeMembers(objs[0]), OpenObjects(objs[1..]));
    }
  }

  /**
   * An array holding at least one unclosed object is rejected: the first
   * object's members are followed by the next object's StartObject or by the
   * array's EndArray, where a member name or EndObject is required.
   */
  lemma OpenObjectsRejected(objs: seq<seq<Member>>)
    requires |objs| > 0
    ensures ParseValue([StartArray] + OpenObjects(objs) + [EndArray]) == None
    ensures Parse([StartArray] + OpenObjects(objs) + [EndArray]) == None
  {
    var rest := OpenObjects(objs[1..]) + [EndArray];
    OpenObjectsThenEnd(objs[1..]);
    ParseMembersUnclosed(objs[0], rest);
    OpenObjectsShape(objs);
    ArrayShape(OpenObjects(objs));
    UnclosedObjectRejected(OpenObjects(objs) + [EndArray]);
    ArrayItemsRejected([StartArray] + OpenObjects(objs) + [EndArray]);
  }

  /** How a run of unclosed objects and an EndArray splits into its first object and the rest. */
  lemma OpenObjectsShape(objs: seq<seq<Member>>)
    requires |objs| > 0
    ensures var items := OpenObjects(objs) + [EndArray];
            |items| > 0 && items[0] == StartObject
            && items[1..] == EncodeMembers(objs[0]) + (OpenObjects(objs[1..]) + [EndArray])
  {
    var a := EncodeMembers(objs[0]);
    var b := OpenObjects(objs[1..]);
    assert OpenObjects(objs) == [StartObject] + a + b;
    HeadTail(StartObject, a, b, [EndArray]);
  }

  /** The array's StartArray followed by its items. */
  lemma ArrayShape(items: seq<Token>)
    ensures var ts := [StartArray] + items + [EndArray];
            |ts| > 0 && ts[0] == StartArray && ts[1..] == items + [EndArray]
  {
    HeadTail(StartArray, [], items, [EndArray]);
  }

  /** Splitting a sequence that starts with one known element. */
  lemma HeadTail<T>(x: T, a: seq<T>, b: seq<T>, c: seq<T>)
    ensures ([x] + a + b + c)[0] == x
    ensures ([x] + a + b + c)[1..] == a + (b + c)
  {
    assert [x] + a + b + c == [x] + (a + (b + c));
  }

  /** What follows a run of unclosed objects and an EndArray starts with StartObject or EndArray. */
  lemma OpenObjectsThenEnd(objs: seq<seq<Member>>)
    ensures var rest := OpenObjects(objs) + [EndArray]; rest[0].StartObject? || rest[0].EndArray?
  {
  }

  /** An object whose members are rejected is rejected, as a value and as an array item. */
  lemma UnclosedObjectRejected(ts: seq<Token>)
    requires |ts| > 0 && ts[0] == StartObject && ParseMembers(ts[1..]) == None
    ensures ParseValue(ts) == None
    ensures ParseItems(ts) == None
  {
  }

  /** An array whose items are rejected is rejected. */
  lemma ArrayItemsRejected(ts: seq<Token>)
    requires |ts| > 0 && ts[0] == StartArray && ParseItems(ts[1..]) == None
    ensures ParseValue(ts) == None
    ensures Parse(ts) == None
  {
  }

  /** Closing every object makes the array well formed, and it reads back as those objects. */
  lemma {:induction false} ClosedObjectsTokens(objs: seq<seq<Member>>)
    ensures EncodeItems(ClosedObjects(objs)) == CloseEach(objs)
    decreases objs
  {
    if objs != [] {
      assert ClosedObjects(objs)[1..] == ClosedObjects(objs[1..]);
      ClosedObjectsTokens(objs[1..]);
    }
  }

  /** Each member list written as an object and closed straight after. */
  function CloseEach(objs: seq<seq<Member>>): seq<Token>
    decreases objs
  {
    if objs == [] then [] else [StartObject] + EncodeMembers(objs[0]) + [EndObject] + CloseEach(objs[1..])
  }

  lemma {:induction false} CloseEachAppend(objs: seq<seq<Member>>, ms: seq<Member>)
    ensures CloseEach(objs + [ms]) == CloseEach(objs) + [StartObject] + EncodeMembers(ms) + [EndObject]
    decreases objs
  {
    if objs == [] {
      assert objs + [ms] == [ms];
    } else {
      assert (objs + [ms])[1..] == objs[1..] + [ms];
      CloseEachAppend(objs[1..], ms);
    }
  }

  /** An object of one member, as written. */
  lemma SingleMemberObject(key: string, v: Json)
    ensures Encode(JObject([Member(key, v)])) == [StartObject, PropertyName(key)] + Encode(v) + [EndObject]
  {
    assert [Member(key, v)][1..] == [];
    assert EncodeMembers([Member(key, v)]) == EncodeMember(Member(key, v)) + EncodeMembers([]);
  }

  // ---------------------------------------------------------------------------

  /** The JSON writer, as the stream of calls made on it so far. */
  class JsonWriter {
    var tokens: seq<Token>

    constructor()
      ensures tokens == []
    {
      tokens := [];
    }

    method WriteStartObject()
      modifies this
      ensures tokens == old(tokens) + [StartObject]
    {
      tokens := tokens + [StartObject];
    }

    method WriteEndObject()
      modifies this
      ensures tokens == old(tokens) + [EndObject]
    {
      tokens := tokens + [EndObject];
    }

    method WriteStartArray()
      modifies this
      ensures tokens == old(tokens) + [StartArray]
    {
      tokens := tokens + [StartArray];
    }

    method WriteEndArray()
      modifies this
      ensures tokens == old(tokens) + [EndArray]
    {
      tokens := tokens + [EndArray];
    }

    method WritePropertyName(name: string)
      modifies this
      ensures tokens == old(tokens) + [PropertyName(name)]
    {
      tokens := tokens + [PropertyName(name)];
    }

    method WriteString(s: string)
      modifies this
      ensures tokens == old(tokens) + [StringValue(s)]
    {
      tokens := tokens + [StringValue(s)];
    }

    method WriteDouble(d: Double)
      modifies this
      ensures tokens == old(tokens) + [DoubleValue(d)]
    {
      tokens := tokens + [DoubleValue(d)];
    }

    method WriteInteger(i: int)
      modifies this
      ensures tokens == old(tokens) + [IntegerValue(i)]
    {
      tokens := tokens + [IntegerValue(i)];
    }

    /** `Extras.WriteTo(writer)`: the extras bag written as one opaque value. */
    method WriteExtras(e: Extras)
      modifies this
      ensures tokens == old(tokens) + [ExtrasValue(e)]
    {
      tokens := tokens + [ExtrasValue(e)];
    }
  }
}
