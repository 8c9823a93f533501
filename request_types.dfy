/**
 * The structured request body stored as JSON text inside a request's
 * `body` string: tolerant parsing with a fallback to raw text, whole-value
 * serialisation, and field-wise substitution.
 */
module RequestTypes {
  import opened Options

  /** JSON values; numbers are integers here. */
  datatype Json =
    | JNull
    | JBool(b: bool)
    | JNumber(n: int)
    | JString(s: string)
    | JArray(elems: seq<Json>)
    | JObject(fields: map<string, Json>)

  /**
   * `JSON.parse` and `JSON.stringify`, supplied by the runtime: `decode`
   * answers `None` where `JSON.parse` throws.
   */
  datatype JsonCodec = JsonCodec(decode: string -> Option<Json>, encode: Json -> string)

  /** What the model needs of the runtime's JSON: the empty text is not JSON, and decoding undoes encoding. */
  ghost predicate Lawful(codec: JsonCodec) {
    && codec.decode("") == None
    && forall j :: codec.decode(codec.encode(j)) == Some(j)
  }

  /** JavaScript truthiness of a JSON value. */
  predicate Truthy(j: Json) {
    match j
    case JNull => false
    case JBool(b) => b
    case JNumber(n) => n != 0
    case JString(s) => s != ""
    case _ => true
  }

  /**
   * A row as the app writes it (`KeyVal`): `kind` is the optional `type`
   * field. The stored body keeps its rows as the JSON it was given, so
   * this is only the shape of the rows the editors produce.
   */
  datatype KeyVal = KeyVal(key: string, value: string, isEnabled: bool, kind: Option<string>)

  /**
   * `bodyType` is one of "none", "raw", "urlencoded", "formdata" when the
   * body was written by the app; the rows are whatever JSON values the
   * text held.
   */
  datatype StructuredBody = StructuredBody(bodyType: string, raw: string, urlencoded: seq<Json>, formdata: seq<Json>)

  /** What `parseBodyContent` falls back to: the text as a raw body, or no body for the empty text. */
  function Fallback(content: string): StructuredBody {
    StructuredBody(if content != "" then "raw" else "none", content, [], [])
  }

  /** `Array.isArray(parsed[name]) ? parsed[name] : []`: the array itself, untouched. */
  function ItemsOf(f: map<string, Json>, name: string): seq<Json> {
    if name in f && f[name].JArray? then f[name].elems else []
  }

  /** `parsed.raw || ""` */
  function RawOf(f: map<string, Json>): string {
    if "raw" in f && Truthy(f["raw"]) && f["raw"].JString? then f["raw"].s else ""
  }

  /** The decoded value looks like a structured body: an object whose `type` is a string. */
  predicate IsStructured(d: Option<Json>) {
    d.Some? && d.value.JObject? && "type" in d.value.fields && d.value.fields["type"].JString?
  }

  /** `parseBodyContent`: never fails; every text maps to a body. */
  function ParseBodyContent(content: string, codec: JsonCodec): (b: StructuredBody)
    ensures content == "" ==> b == StructuredBody("none", "", [], [])
    ensures content != "" && !IsStructured(codec.decode(content)) ==> b == StructuredBody("raw", content, [], [])
  {
    if content == "" then Fallback(content)
    else
      var parsed := codec.decode(content);
      if IsStructured(parsed) then
        var f := parsed.value.fields;
        StructuredBody(f["type"].s, RawOf(f), ItemsOf(f, "urlencoded"), ItemsOf(f, "formdata"))
      else Fallback(content)
  }

  /** The JSON of a row as the app writes it. */
  function KeyValToJson(kv: KeyVal): Json {
    var base := map["key" := JString(kv.key), "value" := JString(kv.value), "isEnabled" := JBool(kv.isEnabled)];
    JObject(if kv.kind.Some? then base["type" := JString(kv.kind.value)] else base)
  }

  /** The JSON object `JSON.stringify` is given: all four fields, whatever the type. */
  function BodyToJson(b: StructuredBody): Json {
    JObject(map[
      "type" := JString(b.bodyType),
      "raw" := JString(b.raw),
      "urlencoded" := JArray(b.urlencoded),
      "formdata" := JArray(b.formdata)])
  }

  /** `stringifyBodyContent` */
  function StringifyBodyContent(b: StructuredBody, codec: JsonCodec): string {
    codec.encode(BodyToJson(b))
  }

  /** A string field goes through the transform; any other value is kept. */
  function MapString(j: Json, f: string -> string): Json {
    if j.JString? then JString(f(j.s)) else j
  }

  /**
   * `{ ...item, key: f(item.key), value: f(item.value) }` on a row object:
   * the `key` and `value` fields go through the transform when they are
   * strings, and every other field is kept.
   */
  function SubstituteRow(row: Json, f: string -> string): (r: Json)
    ensures !row.JObject? ==> r == row
    ensures row.JObject? ==> r.JObject? && r.fields.Keys == row.fields.Keys
    ensures row.JObject? && "key" in row.fields ==> r.fields["key"] == MapString(row.fields["key"], f)
    ensures row.JObject? && "value" in row.fields ==> r.fields["value"] == MapString(row.fields["value"], f)
    ensures row.JObject? ==> forall k :: k in row.fields && k != "key" && k != "value" ==> r.fields[k] == row.fields[k]
  {
    match row
    case JObject(g) =>
      var g1 := if "key" in g then g["key" := MapString(g["key"], f)] else g;
      JObject(if "value" in g1 then g1["value" := MapString(g1["value"], f)] else g1)
    case _ => row
  }

  /** On a row the app wrote, substitution is the spread with the key and value transformed. */
  lemma SubstituteKeyValRow(kv: KeyVal, f: string -> string)
    ensures SubstituteRow(KeyValToJson(kv), f) == KeyValToJson(kv.(key := f(kv.key), value := f(kv.value)))
  {
    var r := SubstituteRow(KeyValToJson(kv), f);
    var e := KeyValToJson(kv.(key := f(kv.key), value := f(kv.value)));
    assert r.fields.Keys == e.fields.Keys;
    assert forall k :: k in r.fields ==> r.fields[k] == e.fields[k];
  }

  /** `substituteStructuredBody`: the transform applied to `raw` and to every row's string key and value. */
  function SubstituteStructuredBody(b: StructuredBody, f: string -> string): (r: StructuredBody)
    ensures r.bodyType == b.bodyType && r.raw == f(b.raw)
    ensures |r.urlencoded| == |b.urlencoded| && |r.formdata| == |b.formdata|
    ensures forall i :: 0 <= i < |b.urlencoded| ==> r.urlencoded[i] == SubstituteRow(b.urlencoded[i], f)
    ensures forall i :: 0 <= i < |b.formdata| ==> r.formdata[i] == SubstituteRow(b.formdata[i], f)
  {
    b.(raw := f(b.raw), urlencoded := SubstituteRows(b.urlencoded, f), formdata := SubstituteRows(b.formdata, f))
  }

  function SubstituteRows(rows: seq<Json>, f: string -> string): (r: seq<Json>)
    ensures |r| == |rows|
  {
    seq(|rows|, i requires 0 <= i < |rows| => SubstituteRow(rows[i], f))
  }

  /** The encoding of a body is never the empty text. */
  lemma EncodedNotEmpty(codec: JsonCodec, j: Json)
    requires Lawful(codec)
    ensures codec.encode(j) != ""
  {
  }

  /** Round trip: parsing what was stringified gives back the same body, rows and all. */
  lemma ParseStringify(b: StructuredBody, codec: JsonCodec)
    requires Lawful(codec)
    ensures ParseBodyContent(StringifyBodyContent(b, codec), codec) == b
  {
    var j := BodyToJson(b);
    var text := codec.encode(j);
    EncodedNotEmpty(codec, j);
    assert codec.decode(text) == Some(j);
  }

  /** Stringifying is stable through a parse: the stored text does not drift. */
  lemma StringifyStable(b: StructuredBody, codec: JsonCodec)
    requires Lawful(codec)
    ensures StringifyBodyContent(ParseBodyContent(StringifyBodyContent(b, codec), codec), codec)
         == StringifyBodyContent(b, codec)
  {
    ParseStringify(b, codec);
  }

  /**
   * A structured text keeps its `type`; a truthy string `raw` is kept and
   * any other `raw` (falsy or missing) becomes the empty string; a
   * `urlencoded` or `formdata` array is kept element for element, and
   * anything else there becomes the empty list.
   */
  lemma ParseStructured(content: string, codec: JsonCodec)
    requires content != "" && IsStructured(codec.decode(content))
    ensures var f := codec.decode(content).value.fields;
      var b := ParseBodyContent(content, codec);
      && b.bodyType == f["type"].s
      && ("raw" in f && f["raw"].JString? && f["raw"].s != "" ==> b.raw == f["raw"].s)
      && (("raw" !in f || !Truthy(f["raw"])) ==> b.raw == "")
      && (("urlencoded" !in f || !f["urlencoded"].JArray?) ==> b.urlencoded == [])
      && (("formdata" !in f || !f["formdata"].JArray?) ==> b.formdata == [])
      && ("urlencoded" in f && f["urlencoded"].JArray? ==> b.urlencoded == f["urlencoded"].elems)
      && ("formdata" in f && f["formdata"].JArray? ==> b.formdata == f["formdata"].elems)
  {
  }

  /** The identity transform leaves a row as it is. */
  lemma SubstituteRowIdentity(row: Json)
    ensures SubstituteRow(row, s => s) == row
  {
    if row.JObject? {
      var r := SubstituteRow(row, s => s);
      assert r.fields.Keys == row.fields.Keys;
      assert forall k :: k in r.fields ==> r.fields[k] == row.fields[k];
    }
  }

  /** A row depends only on the values of the transform. */
  lemma SubstituteRowExtensional(row: Json, f: string -> string, g: string -> string)
    requires forall s :: f(s) == g(s)
    ensures SubstituteRow(row, f) == SubstituteRow(row, g)
  {
    if row.JObject? {
      var r1 := SubstituteRow(row, f);
      var r2 := SubstituteRow(row, g);
      assert r1.fields.Keys == r2.fields.Keys;
      assert forall k :: k in r1.fields ==> r1.fields[k] == r2.fields[k];
    }
  }

  lemma MapStringCompose(j: Json, f: string -> string, g: string -> string)
    ensures MapString(MapString(j, f), g) == MapString(j, s => g(f(s)))
  {
  }

  /** Two substitutions of a row are one with the composed transform. */
  lemma SubstituteRowCompose(row: Json, f: string -> string, g: string -> string)
    ensures SubstituteRow(SubstituteRow(row, f), g) == SubstituteRow(row, s => g(f(s)))
  {
    if row.JObject? {
      var h := s => g(f(s));
      var r1 := SubstituteRow(SubstituteRow(row, f), g);
      var r2 := SubstituteRow(row, h);
      assert r1.fields.Keys == r2.fields.Keys;
      forall k | k in r1.fields
        ensures r1.fields[k] == r2.fields[k]
      {
        if k == "key" || k == "value" {
          MapStringCompose(row.fields[k], f, g);
        }
      }
    }
  }

  /** Substituting with the identity gives the body back. */
  lemma SubstituteIdentity(b: StructuredBody)
    ensures SubstituteStructuredBody(b, s => s) == b
  {
    var r := SubstituteStructuredBody(b, s => s);
    forall i | 0 <= i < |b.urlencoded| ensures r.urlencoded[i] == b.urlencoded[i] {
      SubstituteRowIdentity(b.urlencoded[i]);
    }
    forall i | 0 <= i < |b.formdata| ensures r.formdata[i] == b.formdata[i] {
      SubstituteRowIdentity(b.formdata[i]);
    }
  }

  /** Only the values of the transform matter. */
  lemma SubstituteExtensional(b: StructuredBody, f: string -> string, g: string -> string)
    requires forall s :: f(s) == g(s)
    ensures SubstituteStructuredBody(b, f) == SubstituteStructuredBody(b, g)
  {
    var r1 := SubstituteStructuredBody(b, f);
    var r2 := SubstituteStructuredBody(b, g);
    forall i | 0 <= i < |b.urlencoded| ensures r1.urlencoded[i] == r2.urlencoded[i] {
      SubstituteRowExtensional(b.urlencoded[i], f, g);
    }
    forall i | 0 <= i < |b.formdata| ensures r1.formdata[i] == r2.formdata[i] {
      SubstituteRowExtensional(b.formdata[i], f, g);
    }
  }

  /** Two substitutions in a row are one substitution with the composed transform. */
  lemma SubstituteCompose(b: StructuredBody, f: string -> string, g: string -> string)
    ensures SubstituteStructuredBody(SubstituteStructuredBody(b, f), g)
         == SubstituteStructuredBody(b, s => g(f(s)))
  {
    var r1 := SubstituteStructuredBody(SubstituteStructuredBody(b, f), g);
    var r2 := SubstituteStructuredBody(b, s => g(f(s)));
    forall i | 0 <= i < |b.urlencoded| ensures r1.urlencoded[i] == r2.urlencoded[i] {
      SubstituteRowCompose(b.urlencoded[i], f, g);
    }
    forall i | 0 <= i < |b.formdata| ensures r1.formdata[i] == r2.formdata[i] {
      SubstituteRowCompose(b.formdata[i], f, g);
    }
  }
}
