/** JSON values as the route handler and the upload loop see them after
    `JSON.parse`, with the few JavaScript operations applied to them:
    truthiness, `typeof`, property reads and conversion to text.

    Numbers are integers here; fractional and exponent numbers are not
    modelled. */
module Json {
  import opened Wrappers
  import opened Types

  datatype Json =
    | JNull
    | JBool(b: bool)
    | JNum(n: int)
    | JStr(s: string)
    | JArr(items: seq<Json>)
    | JObj(props: map<string, Json>)

  /** JavaScript truthiness: `null`, `false`, `0` and `''` are falsy; every
      array and object is truthy, even an empty one. */
  predicate Truthy(v: Json)
  {
    match v
    case JNull => false
    case JBool(b) => b
    case JNum(n) => n != 0
    case JStr(s) => s != ""
    case JArr(_) => true
    case JObj(_) => true
  }

  /** `typeof v`; note that `typeof null` is "object". */
  function TypeOf(v: Json): string
  {
    match v
    case JNull => "object"
    case JBool(_) => "boolean"
    case JNum(_) => "number"
    case JStr(_) => "string"
    case JArr(_) => "object"
    case JObj(_) => "object"
  }

  /** `v.key`: the property of an object, `None` for `undefined`. Only own
      properties of parsed objects are modelled. */
  function Get(v: Json, key: string): Option<Json>
  {
    if v.JObj? && key in v.props then Some(v.props[key]) else None
  }

  /** Truthiness of a property read, where `undefined` is falsy. */
  predicate TruthyGet(v: Json, key: string)
  {
    Get(v, key).Some? && Truthy(Get(v, key).value)
  }

  /** A decimal digit. */
  function Digit(d: int): char
    requires 0 <= d < 10
  {
    "0123456789"[d]
  }

  /** A digit's character code is its value above '0'. */
  lemma DigitValue(d: int)
    requires 0 <= d < 10
    ensures Digit(d) as int - '0' as int == d
  {
  }

  /** The decimal text of a natural number, without leading zeros. */
  function NatText(n: nat): (t: string)
    ensures |t| >= 1
    ensures forall k :: 0 <= k < |t| ==> '0' <= t[k] <= '9'
    ensures |t| > 1 ==> t[0] != '0'
    decreases n
  {
    if n < 10 then [Digit(n)] else NatText(n / 10) + [Digit(n % 10)]
  }

  /** The value a decimal text denotes. */
  function DigitsValue(t: string): int
    decreases |t|
  {
    if t == [] then 0 else DigitsValue(t[..|t| - 1]) * 10 + (t[|t| - 1] as int - '0' as int)
  }

  /** `NatText` writes the number it is given. */
  lemma {:induction false} NatTextValue(n: nat)
    ensures DigitsValue(NatText(n)) == n
    decreases n
  {
    DigitValue(n % 10);
    var t := NatText(n);
    if n >= 10 {
      NatTextValue(n / 10);
      assert t == NatText(n / 10) + [Digit(n % 10)];
      assert t[..|t| - 1] == NatText(n / 10);
      assert DigitsValue(t) == DigitsValue(t[..|t| - 1]) * 10 + (t[|t| - 1] as int - '0' as int);
    } else {
      assert DigitsValue(t) == DigitsValue(t[..0]) * 10 + (t[0] as int - '0' as int);
    }
  }

  /** `String(n)` for an integer. */
  function IntText(i: int): string
  {
    if i < 0 then "-" + NatText(-i) else NatText(i)
  }

  /** `String(v)`: what a value turns into when used as text. An array
      joins its elements with commas, writing `null` elements as ''. */
  function ToText(v: Json): string
    decreases v, 1
  {
    match v
    case JNull => "null"
    case JBool(b) => if b then "true" else "false"
    case JNum(n) => IntText(n)
    case JStr(s) => s
    case JArr(items) => JoinTexts(v, items)
    case JObj(_) => "[object Object]"
  }

  /** The comma-joined texts of the elements of array `v`. */
  function JoinTexts(v: Json, items: seq<Json>): string
    requires forall k :: 0 <= k < |items| ==> items[k] < v
    decreases v, 0, |items|
  {
    if items == [] then ""
    else
      var first := if items[0].JNull? then "" else ToText(items[0]);
      if |items| == 1 then first else first + "," + JoinTexts(v, items[1..])
  }

  /** `JSON.stringify(record)`: one property per field, under the field's
      name, and `id` only when the record has one. */
  function RecordJson(r: MedicalRecord): (j: Json)
    ensures j.JObj?
    ensures forall f: Field :: Get(j, FieldName(f)) == Some(JStr(r.Get(f)))
    ensures Get(j, "id") == if r.id.Some? then Some(JNum(r.id.value)) else None
  {
    var fields := map[
      "disease" := JStr(r.disease), "drug" := JStr(r.drug),
      "medicine" := JStr(r.medicine), "tridose" := JStr(r.tridose),
      "pss" := JStr(r.pss), "planet" := JStr(r.planet), "author" := JStr(r.author)];
    if r.id.Some? then JObj(fields["id" := JNum(r.id.value)]) else JObj(fields)
  }

  /** `JSON.stringify(config)`: `serviceKey` is left out when undefined. */
  function ConfigJson(c: DatabaseConfig): (j: Json)
    ensures j.JObj? && Truthy(j)
  {
    var props := map["url" := JStr(c.url), "anonKey" := JStr(c.anonKey), "tableName" := JStr(c.tableName)];
    if c.serviceKey.Some? then JObj(props["serviceKey" := JStr(c.serviceKey.value)]) else JObj(props)
  }

  /** A property used as a string setting: its text when it is a string,
      '' otherwise. */
  function StringProp(j: Json, key: string): string
  {
    match Get(j, key)
    case Some(JStr(s)) => s
    case _ => ""
  }

  /** The connection settings a parsed `config` property stands for; an
      absent or `null` `serviceKey` is the undefined one `??` skips. */
  function ConfigOf(j: Json): DatabaseConfig
  {
    var key := match Get(j, "serviceKey")
      case None => None
      case Some(JNull) => None
      case Some(k) => Some(if k.JStr? then k.s else "");
    DatabaseConfig(StringProp(j, "url"), StringProp(j, "anonKey"), key, StringProp(j, "tableName"))
  }

  /** The settings survive the trip through JSON unchanged. */
  lemma ConfigRoundTrip(c: DatabaseConfig)
    ensures ConfigOf(ConfigJson(c)) == c
  {
    var j := ConfigJson(c);
    assert Get(j, "url") == Some(JStr(c.url));
    assert Get(j, "anonKey") == Some(JStr(c.anonKey));
    assert Get(j, "tableName") == Some(JStr(c.tableName));
  }

  /** The seven fields of a parsed record object; a missing or non-string
      field reads as '', and `id` is kept when it is a number. */
  function RecordOf(j: Json): MedicalRecord
  {
    var id := match Get(j, "id") case Some(JNum(n)) => Some(n) case _ => None;
    MedicalRecord(id, StringProp(j, "disease"), StringProp(j, "drug"), StringProp(j, "medicine"),
      StringProp(j, "tridose"), StringProp(j, "pss"), StringProp(j, "planet"), StringProp(j, "author"))
  }

  /** A record survives the trip through JSON unchanged. */
  lemma RecordRoundTrip(r: MedicalRecord)
    ensures RecordOf(RecordJson(r)) == r
  {
    var j := RecordJson(r);
    assert Get(j, FieldName(Disease)) == Some(JStr(r.disease));
    assert Get(j, FieldName(Drug)) == Some(JStr(r.drug));
    assert Get(j, FieldName(Medicine)) == Some(JStr(r.medicine));
    assert Get(j, FieldName(Tridose)) == Some(JStr(r.tridose));
    assert Get(j, FieldName(Pss)) == Some(JStr(r.pss));
    assert Get(j, FieldName(Planet)) == Some(JStr(r.planet));
    assert Get(j, FieldName(Author)) == Some(JStr(r.author));
  }

  /** `JSON.stringify(records)`: the array of the records' objects. */
  function RecordsJson(rs: seq<MedicalRecord>): (items: seq<Json>)
    ensures |items| == |rs|
    ensures forall k :: 0 <= k < |rs| ==> items[k] == RecordJson(rs[k])
    decreases |rs|
  {
    if rs == [] then [] else [RecordJson(rs[0])] + RecordsJson(rs[1..])
  }

  /** Each row of a posted batch, as the store receives it, reads back as
      the record it was made from. */
  lemma RecordsRoundTrip(rs: seq<MedicalRecord>)
    ensures forall k :: 0 <= k < |rs| ==> RecordOf(RecordsJson(rs)[k]) == rs[k]
  {
    forall k | 0 <= k < |rs|
      ensures RecordOf(RecordsJson(rs)[k]) == rs[k]
    {
      RecordRoundTrip(rs[k]);
    }
  }
}
