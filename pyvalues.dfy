/** Python values as the bot sees them: a decoded JSON body, Python's truth
    value and `str()` of such a value, and the exceptions the bot raises. */
module PyValues {

  datatype Option<+T> = None | Some(value: T)

  /** An exception as the result of a call that raised it. */
  datatype Result<+T> = Ok(value: T) | Err(error: PyError)

  /** What `response.json()` yields: `None`, `bool`, `int`, `str`, `list`
      or `dict` with string keys. Python's `None` in general, including the
      implicit return value of a function, is `JNull`. */
  datatype Json =
    | JNull
    | JBool(b: bool)
    | JInt(i: int)
    | JStr(s: string)
    | JList(items: seq<Json>)
    | JObj(fields: map<string, Json>)

  /** The exceptions raised on the paths the bot takes, each with the
      argument it is constructed with. `AlertFault` is whatever the
      out-of-band alert call of the messaging library raises. */
  datatype PyError =
    | TypeError(text: string)
    | KeyError(key: string)
    | ValueError(text: string)
    | AttributeError(text: string)
    | AlertFault(text: string)

  /** Python's truth value of a JSON-decoded value (`if x:`). */
  predicate Truthy(j: Json)
    ensures !Truthy(j) <==> j in {JNull, JBool(false), JInt(0), JStr(""), JList([]), JObj(map[])}
  {
    match j
    case JNull => false
    case JBool(b) => b
    case JInt(i) => i != 0
    case JStr(s) => s != ""
    case JList(items) => items != []
    case JObj(fields) => fields != map[]
  }

  /** `type(j).__name__`: each kind of decoded value has its own name. */
  function TypeName(j: Json): (r: string)
    ensures r == "NoneType" <==> j.JNull?
    ensures r == "bool" <==> j.JBool?
    ensures r == "int" <==> j.JInt?
    ensures r == "str" <==> j.JStr?
    ensures r == "list" <==> j.JList?
    ensures r == "dict" <==> j.JObj?
  {
    match j
    case JNull => "NoneType"
    case JBool(_) => "bool"
    case JInt(_) => "int"
    case JStr(_) => "str"
    case JList(_) => "list"
    case JObj(_) => "dict"
  }

  /** `d.get(key)` on a dict: the value, or `None` when the key is absent. */
  function Get(fields: map<string, Json>, key: string): (r: Json)
    ensures key in fields ==> r == fields[key]
    ensures key !in fields ==> r == JNull
    ensures r != JNull ==> key in fields
  {
    if key in fields then fields[key] else JNull
  }

  /** Whether `j` can be looked up in a dict (`j in d`): a list and a dict
      are the decoded values that are unhashable, and the test raises a
      `TypeError` for them. */
  predicate Hashable(j: Json) {
    !j.JList? && !j.JObj?
  }

  predicate IsDigits(s: string) {
    forall k :: 0 <= k < |s| ==> '0' <= s[k] <= '9'
  }

  /** The number a string of decimal digits denotes, read most significant
      digit first. */
  function DigitsValue(s: string): int
    requires IsDigits(s)
  {
    if s == [] then 0 else DigitsValue(s[..|s| - 1]) * 10 + (s[|s| - 1] as int - '0' as int)
  }

  /** The decimal digits of `n`, most significant first, as `str(n)` writes
      them: they denote `n` and have no leading zero. */
  function NatToString(n: nat): (r: string)
    ensures r != [] && IsDigits(r)
    ensures DigitsValue(r) == n
    ensures n < 10 <==> |r| == 1
    ensures r[0] == '0' ==> n == 0
  {
    if n < 10 then [Digit(n)]
    else
      var high := NatToString(n / 10);
      var r := high + [Digit(n % 10)];
      assert r[..|r| - 1] == high;
      r
  }

  function Digit(d: nat): (c: char)
    requires d < 10
    ensures '0' <= c <= '9' && c as int - '0' as int == d
  {
    ('0' as int + d) as char
  }

  /** `str(i)` for a Python `int`: the decimal digits of its magnitude,
      after a minus sign when it is negative. */
  function IntToString(i: int): (r: string)
    ensures i >= 0 ==> r != [] && IsDigits(r) && DigitsValue(r) == i && (r[0] == '0' ==> i == 0)
    ensures i >= 0 ==> (i < 10 <==> |r| == 1)
    ensures i < 0 ==> |r| >= 2 && r[0] == '-' && IsDigits(r[1..]) && DigitsValue(r[1..]) == -i
                      && r[1] != '0'
  {
    if i < 0 then
      var digits := NatToString(-i);
      assert ("-" + digits)[1..] == digits;
      "-" + digits
    else
      NatToString(i)
  }

  /** `str(j)` as an f-string inserts it. Strings are inserted as they are;
      `None`, `True`, `False` and integers as Python prints them. A list or a
      dict is printed by Python with `repr`, which this model does not
      reproduce: it inserts "[...]" or "{...}" instead. */
  function Display(j: Json): (r: string)
    ensures j.JStr? ==> r == j.s
    ensures j.JInt? ==> r == IntToString(j.i)
  {
    match j
    case JNull => "None"
    case JBool(b) => if b then "True" else "False"
    case JInt(i) => IntToString(i)
    case JStr(s) => s
    case JList(_) => "[...]"
    case JObj(_) => "{...}"
  }

  /** `str(error)`: a `KeyError` prints the repr of its key, quoted with
      single quotes (the keys raised here contain no quote characters); the
      other exceptions print their text. */
  function ErrorText(e: PyError): (r: string)
    ensures e.KeyError? ==> |r| == |e.key| + 2 && r[0] == '\'' && r[|r| - 1] == '\'' && r[1..|r| - 1] == e.key
    ensures !e.KeyError? ==> r == e.text
  {
    match e
    case KeyError(key) => "'" + key + "'"
    case TypeError(text) => text
    case ValueError(text) => text
    case AttributeError(text) => text
    case AlertFault(text) => text
  }
}
