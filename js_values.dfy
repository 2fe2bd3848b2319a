/** The parts of JavaScript value semantics that the chat handlers rely on:
    truthiness (`if (v)`, `!v`), conversion to a string (`String(v)`, template
    literals, property keys) and `String.prototype.trim`. */
module JsValues {

  /** A value as it arrives in an event payload. Payloads are decoded from JSON,
      so there are no functions; numbers are taken to be integers. */
  datatype JsValue =
    | Undefined
    | Null
    | Bool(b: bool)
    | Num(n: int)
    | Str(s: string)
    | Obj(fields: map<string, JsValue>)

  /** ECMAScript ToBoolean: the test behind `if (v)` and `!v`. */
  predicate Truthy(v: JsValue) {
    match v
    case Undefined => false
    case Null => false
    case Bool(b) => b
    case Num(n) => n != 0
    case Str(s) => s != ""
    case Obj(_) => true
  }

  // ---------------------------------------------------------------------------
  // Number to string

  function DigitChar(d: nat): char
    requires d < 10
  {
    ('0' as int + d) as char
  }

  function DigitValue(ch: char): int {
    ch as int - '0' as int
  }

  /** The decimal numeral of `n`, most significant digit first. */
  function Digits(n: nat): (r: string)
    ensures |r| >= 1
    ensures forall i | 0 <= i < |r| :: '0' <= r[i] <= '9'
    ensures r[0] == '0' ==> n == 0
    decreases n
  {
    if n < 10 then [DigitChar(n)] else Digits(n / 10) + [DigitChar(n % 10)]
  }

  /** Reads a numeral back (the partner of `Digits`). */
  function DecimalValue(s: string): int {
    if s == [] then 0 else DecimalValue(s[..|s| - 1]) * 10 + DigitValue(s[|s| - 1])
  }

  lemma {:induction false} DigitsRoundTrip(n: nat)
    ensures DecimalValue(Digits(n)) == n
    decreases n
  {
    if n < 10 {
      assert Digits(n)[..0] == [];
    } else {
      var d := Digits(n / 10);
      assert (d + [DigitChar(n % 10)])[..|d|] == d;
      DigitsRoundTrip(n / 10);
    }
  }

  /** Number.prototype.toString for an integer. */
  function IntToString(n: int): string {
    if n < 0 then "-" + Digits(-n) else Digits(n)
  }

  /** Reads an optionally signed numeral (the partner of `IntToString`). */
  function ParseInt(s: string): int {
    if s != [] && s[0] == '-' then -DecimalValue(s[1..]) else DecimalValue(s)
  }

  lemma IntToStringRoundTrip(n: int)
    ensures ParseInt(IntToString(n)) == n
  {
    if n < 0 {
      assert ("-" + Digits(-n))[1..] == Digits(-n);
      DigitsRoundTrip(-n);
    } else {
      DigitsRoundTrip(n);
    }
  }

  /** ECMAScript ToString, used by `String(v)`, by template literals and when
      a value is used as a property key. */
  function ToJsString(v: JsValue): (r: string)
    ensures r == "" <==> v == Str("")
    ensures v.Str? ==> r == v.s
  {
    match v
    case Undefined => "undefined"
    case Null => "null"
    case Bool(b) => if b then "true" else "false"
    case Num(n) => IntToString(n)
    case Str(s) => s
    case Obj(_) => "[object Object]"
  }

  // ---------------------------------------------------------------------------
  // String.prototype.trim

  /** The ECMAScript WhiteSpace and LineTerminator code points, which `trim`
      removes from both ends of a string. */
  predicate IsJsSpace(ch: char) {
    ch == '\t' || ch == '\n' || ch == '\U{000B}' || ch == '\U{000C}' || ch == '\r'
    || ch == ' ' || ch == '\U{00A0}' || ch == '\U{1680}'
    || ('\U{2000}' <= ch <= '\U{200A}')
    || ch == '\U{2028}' || ch == '\U{2029}' || ch == '\U{202F}' || ch == '\U{205F}'
    || ch == '\U{3000}' || ch == '\U{FEFF}'
  }

  predicate AllSpace(s: string) {
    forall i | 0 <= i < |s| :: IsJsSpace(s[i])
  }

  /** Drops leading white space: the result is a suffix of `s`, what was
      dropped is all white space, and the result does not start with any. */
  function TrimStart(s: string): (r: string)
    ensures |r| <= |s| && r == s[|s| - |r|..]
    ensures AllSpace(s[..|s| - |r|])
    ensures r != [] ==> !IsJsSpace(r[0])
  {
    if s != [] && IsJsSpace(s[0]) then TrimStart(s[1..]) else s
  }

  /** Drops trailing white space: the result is a prefix of `s`, what was
      dropped is all white space, and the result does not end with any. */
  function TrimEnd(s: string): (r: string)
    ensures |r| <= |s| && r == s[..|r|]
    ensures AllSpace(s[|r|..])
    ensures r != [] ==> !IsJsSpace(r[|r| - 1])
  {
    if s != [] && IsJsSpace(s[|s| - 1]) then TrimEnd(s[..|s| - 1]) else s
  }

  function Trim(s: string): (r: string)
    ensures r != [] ==> !IsJsSpace(r[0]) && !IsJsSpace(r[|r| - 1])
  {
    TrimEnd(TrimStart(s))
  }

  /** `s.trim()` is empty exactly when `s` consists of white space only. */
  lemma TrimEmptyIff(s: string)
    ensures Trim(s) == "" <==> AllSpace(s)
  {
    var t := TrimStart(s);
    var k := |s| - |t|;
    if Trim(s) == "" {
      assert AllSpace(t[0..]);
      if t != [] {
        assert false;
      }
      assert s[..k] == s;
    }
  }
}
