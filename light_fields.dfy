/**
 * The field encodings both light variants share: the rotation quaternion, the
 * 9x3 irradiance-coefficient grid, and a reference reader for each field (the
 * reading a conformant deserialiser would do; the extension itself never reads
 * lights back).
 */
module LightFields {
  import opened Wrappers
  import opened GltfHost
  import opened JsonTokens

  /** The rotation as written: `[X, Y, Z, W]`. */
  function RotationJson(q: Quaternion): Json
  {
    JArray([JDouble(q.x), JDouble(q.y), JDouble(q.z), JDouble(q.w)])
  }

  /**
   * The coefficient grid has what the writer indexes unconditionally: rows 0..8,
   * each with entries 0..2.
   */
  predicate CoefficientsWritable(g: seq<seq<Double>>)
  {
    |g| >= 9 && forall x :: 0 <= x < 9 ==> |g[x]| >= 3
  }

  /** One coefficient row as written: its first three entries. */
  function CoefficientRowJson(row: seq<Double>): Json
    requires |row| >= 3
  {
    JArray([JDouble(row[0]), JDouble(row[1]), JDouble(row[2])])
  }

  function CoefficientRows(g: seq<seq<Double>>): seq<Json>
    requires CoefficientsWritable(g)
  {
    seq(9, x requires 0 <= x < 9 => CoefficientRowJson(g[x]))
  }

  function CoefficientsJson(g: seq<seq<Double>>): Json
    requires CoefficientsWritable(g)
  {
    JArray(CoefficientRows(g))
  }

  /** The part of the grid that reaches the wire: rows 0..8, entries 0..2. */
  function Coefficients9x3(g: seq<seq<Double>>): (r: seq<seq<Double>>)
    requires CoefficientsWritable(g)
    ensures |r| == 9
    ensures forall x :: 0 <= x < 9 ==> |r[x]| == 3 && r[x] == g[x][..3]
  {
    seq(9, x requires 0 <= x < 9 => g[x][..3])
  }

  // ---------------------------------------------------------------------------
  // Reference readers. Each takes the looked-up member value (None when the key
  // is absent) and fails (None) on a value of the wrong shape.

  /** An optional string: absent means null. */
  function DecodeName(j: Option<Json>): Option<Option<string>>
  {
    match j
    case None => Some(None)
    case Some(JString(s)) => Some(Some(s))
    case Some(_) => None
  }

  /** An optional rotation: absent means the identity. */
  function DecodeRotation(j: Option<Json>): Option<Quaternion>
  {
    match j
    case None => Some(Identity)
    case Some(JArray(items)) =>
      if |items| == 4 && items[0].JDouble? && items[1].JDouble? && items[2].JDouble? && items[3].JDouble?
      then Some(Quaternion(items[0].d, items[1].d, items[2].d, items[3].d))
      else None
    case Some(_) => None
  }

  /** A required number. */
  function DecodeDouble(j: Option<Json>): Option<Double>
  {
    match j
    case Some(JDouble(d)) => Some(d)
    case _ => None
  }

  /** A required integer. */
  function DecodeInteger(j: Option<Json>): Option<int>
  {
    match j
    case Some(JInteger(i)) => Some(i)
    case _ => None
  }

  function DecodeDoubles(j: Json): Option<seq<Double>>
  {
    if j.JArray? && forall i :: 0 <= i < |j.items| ==> j.items[i].JDouble?
    then Some(seq(|j.items|, i requires 0 <= i < |j.items| && j.items[i].JDouble? => j.items[i].d))
    else None
  }

  /** A required array of arrays of numbers. */
  function DecodeDoubleRows(j: Option<Json>): Option<seq<seq<Double>>>
  {
    if j.Some? && j.value.JArray? && forall i :: 0 <= i < |j.value.items| ==> DecodeDoubles(j.value.items[i]).Some?
    then Some(seq(|j.value.items|, i requires 0 <= i < |j.value.items| && DecodeDoubles(j.value.items[i]).Some? =>
                                     DecodeDoubles(j.value.items[i]).value))
    else None
  }

  function DecodeIntegers(j: Json): Option<seq<int>>
  {
    if j.JArray? && forall i :: 0 <= i < |j.items| ==> j.items[i].JInteger?
    then Some(seq(|j.items|, i requires 0 <= i < |j.items| && j.items[i].JInteger? => j.items[i].i))
    else None
  }

  /** A required array of arrays of integers. */
  function DecodeIntegerRows(j: Option<Json>): Option<seq<seq<int>>>
  {
    if j.Some? && j.value.JArray? && forall i :: 0 <= i < |j.value.items| ==> DecodeIntegers(j.value.items[i]).Some?
    then Some(seq(|j.value.items|, i requires 0 <= i < |j.value.items| && DecodeIntegers(j.value.items[i]).Some? =>
                                     DecodeIntegers(j.value.items[i]).value))
    else None
  }

  // ---------------------------------------------------------------------------

  /** The rotation is written as an array of exactly its four components, X, Y, Z, W. */
  lemma RotationTokens(q: Quaternion)
    ensures Encode(RotationJson(q))
         == [StartArray, DoubleValue(q.x), DoubleValue(q.y), DoubleValue(q.z), DoubleValue(q.w), EndArray]
  {
    EncodeItemsCons(JDouble(q.w), []);
    EncodeItemsCons(JDouble(q.z), [JDouble(q.w)]);
    EncodeItemsCons(JDouble(q.y), [JDouble(q.z), JDouble(q.w)]);
    EncodeItemsCons(JDouble(q.x), [JDouble(q.y), JDouble(q.z), JDouble(q.w)]);
  }

  /** A coefficient row is written as an array of exactly its entries 0, 1 and 2. */
  lemma CoefficientRowTokens(row: seq<Double>)
    requires |row| >= 3
    ensures Encode(CoefficientRowJson(row))
         == [StartArray, DoubleValue(row[0]), DoubleValue(row[1]), DoubleValue(row[2]), EndArray]
  {
    EncodeItemsCons(JDouble(row[2]), []);
    EncodeItemsCons(JDouble(row[1]), [JDouble(row[2])]);
    EncodeItemsCons(JDouble(row[0]), [JDouble(row[1]), JDouble(row[2])]);
  }

  /**
   * Eliding the identity rotation loses nothing: a reader that takes a missing
   * rotation as the identity recovers every rotation, written or elided.
   */
  lemma RotationElisionLossless(q: Quaternion)
    ensures DecodeRotation(if q != Identity then Some(RotationJson(q)) else None) == Some(q)
  {
  }

  /** The coefficients written read back as exactly the 9x3 part of the grid. */
  lemma CoefficientsRoundTrip(g: seq<seq<Double>>)
    requires CoefficientsWritable(g)
    ensures DecodeDoubleRows(Some(CoefficientsJson(g))) == Some(Coefficients9x3(g))
  {
    var rows := CoefficientRows(g);
    forall x | 0 <= x < 9
      ensures DecodeDoubles(rows[x]) == Some(g[x][..3])
    {
      assert rows[x] == CoefficientRowJson(g[x]);
      assert DecodeDoubles(rows[x]).value == g[x][..3];
    }
    var j := Some(CoefficientsJson(g));
    assert j.value.items == rows;
    assert DecodeDoubleRows(j).Some?;
    assert DecodeDoubleRows(j).value == Coefficients9x3(g);
  }

  // ---------------------------------------------------------------------------
  // The writer's loops over the shared fields.

  /** Writes the rotation array component by component. */
  method WriteRotation(writer: JsonWriter, q: Quaternion)
    modifies writer
    ensures writer.tokens == old(writer.tokens) + Encode(RotationJson(q))
  {
    writer.WriteStartArray();
    writer.WriteDouble(q.x);
    writer.WriteDouble(q.y);
    writer.WriteDouble(q.z);
    writer.WriteDouble(q.w);
    writer.WriteEndArray();
    RotationTokens(q);
  }

  /** Writes the 9x3 coefficient grid row by row, entries 0..2 of rows 0..8. */
  method WriteCoefficients(writer: JsonWriter, g: seq<seq<Double>>)
    requires CoefficientsWritable(g)
    modifies writer
    ensures writer.tokens == old(writer.tokens) + Encode(CoefficientsJson(g))
  {
    writer.WriteStartArray();
    ghost var rows := CoefficientRows(g);
    ghost var t := writer.tokens;
    for x := 0 to 9
      invariant writer.tokens == t + EncodeItems(rows[..x])
    {
      WriteCoefficientRow(writer, g[x]);
      EncodeItemsAppend(rows[..x], rows[x]);
      assert rows[..x + 1] == rows[..x] + [rows[x]];
    }
    writer.WriteEndArray();
    assert rows[..9] == rows;
  }

  /** Writes entries 0..2 of one coefficient row. */
  method WriteCoefficientRow(writer: JsonWriter, row: seq<Double>)
    requires |row| >= 3
    modifies writer
    ensures writer.tokens == old(writer.tokens) + Encode(CoefficientRowJson(row))
  {
    writer.WriteStartArray();
    writer.WriteDouble(row[0]);
    writer.WriteDouble(row[1]);
    writer.WriteDouble(row[2]);
    writer.WriteEndArray();
    CoefficientRowTokens(row);
  }
}
