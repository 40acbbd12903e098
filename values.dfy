/**
 * The values that cross the instrumentation layer: method arguments and
 * return values (with their `toString` text and their JSON rendering), and
 * the outcome of the wrapped business call.
 */
module Values {
  import opened Wrappers

  /**
   * What the JSON serializer makes of an object that is not a String: its
   * JSON text, or the exception it throws, with that exception's message
   * (which may be null).
   */
  datatype Serialized = Json(text: string) | Fails(message: Option<string>)

  /**
   * A Java value: null, a String, or any other object, given by the text its
   * `toString()` returns and by what the serializer makes of it.
   */
  datatype Value = Null | Str(s: string) | Obj(text: string, json: Serialized) {
    /** `toString()`; only defined for non-null values. */
    function Text(): string
      requires !Null?
    {
      if Str? then s else text
    }
  }

  /**
   * Anything a Java method can throw. `isException` separates the
   * `java.lang.Exception` family, which `catch (Exception e)` catches, from
   * `java.lang.Error`, which it does not.
   */
  datatype Throwable = Throwable(kind: string, message: Option<string>, isException: bool)

  /** The outcome of the wrapped business call: its return value or what it threw. */
  datatype Outcome = Ok(value: Value) | Threw(thrown: Throwable)

  /** A call of a business method: the target's class, the method, and its arguments (the array may be null). */
  datatype Invocation = Invocation(className: string, methodName: string, parameters: Option<seq<Value>>)

  /** How Java string concatenation and SLF4J render a possibly-null string. */
  function NullableText(s: Option<string>): string {
    match s
    case Some(t) => t
    case None => "null"
  }

  function HexDigit(d: nat): char
    requires d < 16
  {
    "0123456789ABCDEF"[d]
  }

  /** The escape sequence for one character of a JSON string (RFC 8259, section 7). */
  function EscapeChar(c: char): (r: string)
    ensures |r| >= 1
  {
    if c == '"' then "\\\""
    else if c == '\\' then "\\\\"
    else if c == '\n' then "\\n"
    else if c == '\r' then "\\r"
    else if c == '\t' then "\\t"
    else if c == '\U{0008}' then "\\b"
    else if c == '\U{000C}' then "\\f"
    else if c < ' ' then "\\u00" + [HexDigit(c as int / 16), HexDigit(c as int % 16)]
    else [c]
  }

  function Escape(s: string): (r: string)
    ensures |r| >= |s|
  {
    if s == [] then [] else EscapeChar(s[0]) + Escape(s[1..])
  }

  /** A character JSON writes as itself. */
  predicate IsPlain(c: char) {
    c >= ' ' && c != '"' && c != '\\'
  }

  /** Text without quotes, backslashes or control characters needs no escaping. */
  lemma {:induction false} EscapePlain(s: string)
    requires forall i | 0 <= i < |s| :: IsPlain(s[i])
    ensures Escape(s) == s
  {
    if s != [] {
      EscapePlain(s[1..]);
    }
  }

  /** A JSON string literal for `s`. */
  function JsonString(s: string): string {
    "\"" + Escape(s) + "\""
  }

  /** What the JSON serializer makes of a single value. */
  function ToJson(v: Value): Serialized {
    match v
    case Null => Json("null")
    case Str(s) => Json(JsonString(s))
    case Obj(_, json) => json
  }

  /**
   * The comma-separated JSON texts of `vs`; the serializer stops at the
   * first element that cannot be written and throws its exception.
   */
  function JsonElements(vs: seq<Value>): Serialized {
    if vs == [] then Json("")
    else match ToJson(vs[0])
      case Fails(m) => Fails(m)
      case Json(first) =>
        match JsonElements(vs[1..])
        case Fails(m) => Fails(m)
        case Json(rest) => Json(if |vs| == 1 then first else first + "," + rest)
  }

  /** Prepending a writable element to a non-empty writable array adds one comma-separated item. */
  lemma JsonElementsCons(v: Value, rest: seq<Value>, first: string, others: string)
    requires rest != [] && ToJson(v) == Json(first) && JsonElements(rest) == Json(others)
    ensures JsonElements([v] + rest) == Json(first + "," + others)
  {
    assert ([v] + rest)[1..] == rest;
  }

  /** What the JSON serializer makes of an array of values. */
  function JsonArray(vs: seq<Value>): Serialized {
    match JsonElements(vs)
    case Json(t) => Json("[" + t + "]")
    case Fails(m) => Fails(m)
  }

  /**
   * An array serializes exactly when each element does; when it does not,
   * the exception is that of the first element that cannot be written.
   */
  lemma {:induction false} JsonElementsFails(vs: seq<Value>)
    ensures JsonElements(vs).Json? <==> forall i | 0 <= i < |vs| :: ToJson(vs[i]).Json?
    ensures JsonElements(vs).Fails? ==>
      exists k | 0 <= k < |vs| ::
        ToJson(vs[k]) == JsonElements(vs) && forall i | 0 <= i < k :: ToJson(vs[i]).Json?
  {
    if vs != [] {
      JsonElementsFails(vs[1..]);
      if ToJson(vs[0]).Json? && JsonElements(vs[1..]).Fails? {
        var k :| 0 <= k < |vs[1..]| && ToJson(vs[1..][k]) == JsonElements(vs[1..])
                 && forall i | 0 <= i < k :: ToJson(vs[1..][i]).Json?;
        assert ToJson(vs[k + 1]) == JsonElements(vs);
        forall i | 0 <= i < k + 1 ensures ToJson(vs[i]).Json? {
          if i > 0 { assert vs[i] == vs[1..][i - 1]; }
        }
      }
      if ToJson(vs[0]).Json? && JsonElements(vs[1..]).Json? {
        forall i | 0 <= i < |vs| ensures ToJson(vs[i]).Json? {
          if i > 0 { assert vs[i] == vs[1..][i - 1]; }
        }
      }
    }
  }

  /** Nulls and Strings always serialize. */
  lemma StringsAlwaysSerialize(vs: seq<Value>)
    requires forall i | 0 <= i < |vs| :: vs[i].Null? || vs[i].Str?
    ensures JsonArray(vs).Json?
  {
    JsonElementsFails(vs);
  }
}
