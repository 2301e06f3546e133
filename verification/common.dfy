/** Values and string helpers shared by every part of the model: an optional
    value standing for JavaScript's `null`/`undefined`, JavaScript's notion of
    a "truthy" optional field, the whitespace set that `\s` and `trim()` use,
    ASCII case mapping, and the byte-wise text order SQLite uses for TEXT. */
module Common {

  /** A value that may be absent (`null` or `undefined` in the source). */
  datatype Option<+T> = None | Some(value: T) {
    function GetOr(default: T): T {
      match this
      case Some(v) => v
      case None => default
    }
  }

  /** A handler's reply: a JSON body, or an error status with its message. */
  datatype Response<T> = Ok(body: T) | Error(code: int, message: string)

  /** `x` is truthy: present and not the empty string. */
  predicate Truthy(s: Option<string>) {
    s.Some? && s.value != ""
  }

  /** A number field is truthy: present and not zero. */
  predicate TruthyNumber(x: Option<real>) {
    x.Some? && x.value != 0.0
  }

  /** `x || null` on an optional string: a falsy value becomes null. */
  function OrNull(s: Option<string>): (r: Option<string>)
    ensures r.Some? <==> Truthy(s)
    ensures r.Some? ==> r == s
  {
    if Truthy(s) then s else None
  }

  /** `x || fallback` on an optional string. */
  function OrDefault(s: Option<string>, fallback: string): (r: string)
    ensures Truthy(s) ==> r == s.value
    ensures !Truthy(s) ==> r == fallback
  {
    if Truthy(s) then s.value else fallback
  }

  /** How a template literal renders an optional string: `undefined` when absent. */
  function TemplateText(s: Option<string>): string {
    match s
    case Some(v) => v
    case None => "undefined"
  }

  // ---------------------------------------------------------------------
  // Characters

  /** The JavaScript line terminators: LF, CR, LINE SEPARATOR, PARAGRAPH SEPARATOR. */
  predicate IsLineTerminator(c: char) {
    c == '\n' || c == '\r' || c as int == 0x2028 || c as int == 0x2029
  }

  /** The characters matched by the regular-expression class `\s` and removed
      by `String.prototype.trim`: JavaScript's WhiteSpace and LineTerminator. */
  predicate IsJsWhitespace(c: char) {
    var n := c as int;
    || n == 0x09 || n == 0x0A || n == 0x0B || n == 0x0C || n == 0x0D || n == 0x20
    || n == 0xA0 || n == 0x1680 || (0x2000 <= n <= 0x200A)
    || n == 0x2028 || n == 0x2029 || n == 0x202F || n == 0x205F || n == 0x3000 || n == 0xFEFF
  }

  lemma LineTerminatorIsWhitespace(c: char)
    ensures IsLineTerminator(c) ==> IsJsWhitespace(c)
  {
  }

  predicate IsDigit(c: char) {
    '0' <= c <= '9'
  }

  predicate IsHexDigit(c: char) {
    ('0' <= c <= '9') || ('a' <= c <= 'f') || ('A' <= c <= 'F')
  }

  /** ASCII upper case; every other character is unchanged. */
  function AsciiUpper(c: char): char {
    if 'a' <= c <= 'z' then (c as int - 32) as char else c
  }

  /** ASCII lower case; every other character is unchanged. */
  function AsciiLower(c: char): char {
    if 'A' <= c <= 'Z' then (c as int + 32) as char else c
  }

  /** `s.toLowerCase()` restricted to ASCII letters. */
  function ToLower(s: string): (r: string)
    ensures |r| == |s|
    ensures forall i :: 0 <= i < |s| ==> r[i] == AsciiLower(s[i])
  {
    if |s| == 0 then "" else [AsciiLower(s[0])] + ToLower(s[1..])
  }

  /** Lower-casing is idempotent: an already lower-cased address is a fixed point. */
  lemma ToLowerIdempotent(s: string)
    ensures ToLower(ToLower(s)) == ToLower(s)
  {
    var t := ToLower(s);
    assert forall i :: 0 <= i < |t| ==> AsciiLower(t[i]) == t[i];
  }

  // ---------------------------------------------------------------------
  // Trimming

  /** `s` with its leading JavaScript whitespace removed. */
  function TrimStart(s: string): (r: string)
    ensures |r| <= |s| && r == s[|s| - |r|..]
    ensures forall k :: 0 <= k < |s| - |r| ==> IsJsWhitespace(s[k])
    ensures |r| > 0 ==> !IsJsWhitespace(r[0])
  {
    if |s| > 0 && IsJsWhitespace(s[0]) then TrimStart(s[1..]) else s
  }

  /** `s` with its trailing JavaScript whitespace removed. */
  function TrimEnd(s: string): (r: string)
    ensures |r| <= |s| && r == s[..|r|]
    ensures forall k :: |r| <= k < |s| ==> IsJsWhitespace(s[k])
    ensures |r| > 0 ==> !IsJsWhitespace(r[|r| - 1])
  {
    if |s| > 0 && IsJsWhitespace(s[|s| - 1]) then TrimEnd(s[..|s| - 1]) else s
  }

  /** `s.trim()`: a contiguous piece of `s` that neither starts nor ends with
      whitespace, everything cut off being whitespace. */
  function Trim(s: string): (r: string)
    ensures |r| <= |s|
    ensures |r| > 0 ==> !IsJsWhitespace(r[0]) && !IsJsWhitespace(r[|r| - 1])
    ensures var a := |s| - |TrimStart(s)|; a + |r| <= |s| && r == s[a..a + |r|]
  {
    TrimEnd(TrimStart(s))
  }

  /** Text that already neither starts nor ends with whitespace is left as it is. */
  lemma {:induction false} TrimOfTrimmed(s: string)
    requires |s| > 0 ==> !IsJsWhitespace(s[0]) && !IsJsWhitespace(s[|s| - 1])
    ensures Trim(s) == s
  {
    assert TrimStart(s) == s;
    assert TrimEnd(s) == s;
  }

  /** Trimming twice is trimming once. */
  lemma TrimIdempotent(s: string)
    ensures Trim(Trim(s)) == Trim(s)
  {
    TrimOfTrimmed(Trim(s));
  }

  // ---------------------------------------------------------------------
  // Text order (SQLite's BINARY collation: code point by code point)

  /** `a < b` in lexicographic code-point order. */
  predicate StrLess(a: string, b: string)
    decreases |a|
  {
    if |a| == 0 then |b| > 0
    else if |b| == 0 then false
    else if a[0] != b[0] then a[0] < b[0]
    else StrLess(a[1..], b[1..])
  }

  /** The text order is irreflexive and asymmetric. */
  lemma {:induction false} StrLessAsymmetric(a: string, b: string)
    ensures StrLess(a, b) ==> !StrLess(b, a)
    ensures !StrLess(a, a)
    decreases |a|
  {
    if |a| > 0 && |b| > 0 && a[0] == b[0] {
      StrLessAsymmetric(a[1..], b[1..]);
    }
    if |a| > 0 {
      StrLessAsymmetric(a[1..], a[1..]);
    }
  }

  /** Any two distinct texts are ordered one way or the other. */
  lemma {:induction false} StrLessTotal(a: string, b: string)
    ensures StrLess(a, b) || a == b || StrLess(b, a)
    decreases |a|
  {
    if |a| > 0 && |b| > 0 && a[0] == b[0] {
      StrLessTotal(a[1..], b[1..]);
      if a[1..] == b[1..] {
        assert a == [a[0]] + a[1..] && b == [b[0]] + b[1..];
      }
    }
  }

  // ---------------------------------------------------------------------
  // Sequences

  /** Concatenation of a list of text fragments, in order. */
  function Concat(parts: seq<string>): string
  {
    if |parts| == 0 then "" else Concat(parts[..|parts| - 1]) + parts[|parts| - 1]
  }

  /** Concatenating `a + b` is concatenating `a`, then `b`. */
  lemma {:induction false} ConcatAppend(a: seq<string>, b: seq<string>)
    ensures Concat(a + b) == Concat(a) + Concat(b)
    decreases |b|
  {
    if |b| == 0 {
      assert a + b == a;
    } else {
      var b' := b[..|b| - 1];
      assert (a + b)[..|a + b| - 1] == a + b';
      ConcatAppend(a, b');
    }
  }
}
