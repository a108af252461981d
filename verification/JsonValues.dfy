/** JSON documents after decoding, and how `serde_json` looks into them. */
module JsonValues {
  import opened Options

  datatype Json =
    | JString(text: string)
    | JInteger(number: int)
    | JFraction(value: real)
    | JBool(flag: bool)
    | JObject(fields: map<string, Json>)
    | JArray(items: seq<Json>)
    | JNull

  function Field(v: Json, key: string): Option<Json> {
    if v.JObject? && key in v.fields then Some(v.fields[key]) else None
  }

  function AsString(v: Json): Option<string> {
    if v.JString? then Some(v.text) else None
  }

  function AsArray(v: Json): Option<seq<Json>> {
    if v.JArray? then Some(v.items) else None
  }

  /** `as_u64`: integers only, and only those that fit. */
  function AsIndex(v: Json): Option<nat> {
    if v.JInteger? && 0 <= v.number < 0x1_0000_0000_0000_0000 then Some(v.number) else None
  }

  function FieldString(v: Json, key: string): Option<string> {
    match Field(v, key)
    case Some(child) => AsString(child)
    case None => None
  }

  function FieldArray(v: Json, key: string): Option<seq<Json>> {
    match Field(v, key)
    case Some(child) => AsArray(child)
    case None => None
  }

  /** One token of a JSON pointer; `0` is the only array index used in this code base. */
  function Child(v: Json, token: string): Option<Json> {
    if v.JArray? then (if token == "0" && v.items != [] then Some(v.items[0]) else None)
    else Field(v, token)
  }

  function Pointer(v: Json, path: seq<string>): Option<Json>
    decreases |path|
  {
    if path == [] then Some(v)
    else match Child(v, path[0])
      case Some(child) => Pointer(child, path[1..])
      case None => None
  }

  function PointerString(v: Json, path: seq<string>): Option<string> {
    match Pointer(v, path)
    case Some(child) => AsString(child)
    case None => None
  }

  /** Decimal digits without leading zeros. */
  function Decimal(n: nat): string {
    if n < 10 then [('0' as int + n) as char] else Decimal(n / 10) + [('0' as int + n % 10) as char]
  }

  /** What a row of digits stands for, most significant first. */
  ghost function NumberOf(digits: string): int {
    if digits == "" then 0
    else
      var last := |digits| - 1;
      10 * NumberOf(digits[..last]) + (digits[last] as int - '0' as int)
  }

  lemma {:induction false} DecimalReadsBack(n: nat)
    ensures NumberOf(Decimal(n)) == n && |Decimal(n)| > 0 && (Decimal(n)[0] == '0' <==> n == 0)
    ensures forall c :: c in Decimal(n) ==> '0' <= c <= '9'
  {
    var text := Decimal(n);
    if n < 10 {
      assert text[..0] == "";
    } else {
      DecimalReadsBack(n / 10);
      assert text[..|text| - 1] == Decimal(n / 10);
    }
  }
}
