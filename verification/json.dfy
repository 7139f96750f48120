/** The JSON values the extractor and the scorer handle, with Python's truthiness and `str()` on them.
    Argument values are scalars (string, integer, null); an object maps keys to scalars and keeps the
    insertion order of a Python `dict`. The decoder (`json.loads`) is a parameter of the model. */
module Json {
  import opened Wrappers

  /** A scalar argument value; `Null` is JSON `null`, which Python reads as `None`. */
  datatype Value = Str(s: string) | Num(n: int) | Null

  /** A JSON object as a Python `dict` built by `json.loads`: key/value pairs in insertion order. */
  type Dict = seq<(string, Value)>

  /** What `json.loads` returns: an object, or a scalar. `Scalar(Null)` is Python's `None`. */
  datatype Json = Object(fields: Dict) | Scalar(value: Value)

  /** `json.loads`: the decoded value, or `None` where it raises `JSONDecodeError`. */
  type Decoder = string -> Option<Json>

  /** Python's `None` in a slot that may hold a decoded JSON value. */
  const NoneValue: Json := Scalar(Null)

  /** `key in d`. */
  predicate HasKey(d: Dict, key: string) {
    exists i :: 0 <= i < |d| && d[i].0 == key
  }

  /** `d.get(key)`: the value bound to `key`, if any. */
  function Get(d: Dict, key: string): (r: Option<Value>)
    ensures r.Some? <==> HasKey(d, key)
    ensures r.Some? ==> (key, r.value) in d
  {
    if d == [] then None
    else if d[0].0 == key then Some(d[0].1)
    else
      var r := Get(d[1..], key);
      assert HasKey(d[1..], key) ==> HasKey(d, key) by {
        if HasKey(d[1..], key) {
          var i :| 0 <= i < |d[1..]| && d[1..][i].0 == key;
          assert d[i + 1].0 == key;
        }
      }
      assert HasKey(d, key) ==> HasKey(d[1..], key) by {
        if HasKey(d, key) {
          var i :| 0 <= i < |d| && d[i].0 == key;
          assert i != 0 && d[1..][i - 1].0 == key;
        }
      }
      r
  }

  /** Python truthiness of a scalar: empty strings, zero and `None` are false. */
  predicate Truthy(v: Value) {
    match v
    case Str(s) => s != ""
    case Num(n) => n != 0
    case Null => false
  }

  /** Python truthiness of a decoded value: an empty `dict` is false as well. */
  predicate TruthyJson(j: Json) {
    match j
    case Object(d) => d != []
    case Scalar(v) => Truthy(v)
  }

  /** The decimal digits of a natural number. */
  function DigitsOf(n: nat): (r: string)
    ensures r != []
    ensures forall k :: 0 <= k < |r| ==> '0' <= r[k] <= '9'
    decreases n
  {
    var d := ['0' + (n % 10) as char];
    if n < 10 then d else DigitsOf(n / 10) + d
  }

  /** `str(v)`: a string as itself, an integer in decimal, `None` as the word None. */
  function ToStr(v: Value): (r: string)
    ensures v.Str? ==> r == v.s
    ensures v.Num? ==> r != [] && (r[0] == '-' <==> v.n < 0)
  {
    match v
    case Str(s) => s
    case Num(n) => if n < 0 then "-" + DigitsOf(-n) else DigitsOf(n)
    case Null => "None"
  }

  /** `json.loads(text)` where `text` begins with `{`: a JSON decoder can only produce an object
      from such text, so any other outcome is read as a decoding failure. */
  function LoadsObject(dec: Decoder, text: string): (r: Option<Dict>)
    ensures r.Some? <==> dec(text).Some? && dec(text).value.Object?
    ensures r.Some? ==> dec(text) == Some(Object(r.value))
  {
    match dec(text)
    case Some(Object(d)) => Some(d)
    case _ => None
  }
}
