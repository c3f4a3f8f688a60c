/** Shared vocabulary: an Option type usable with `:-`, the JavaScript values the
    services and pages pass around, JavaScript's character classes and the
    string conversions (decimal text, lower-casing, `includes`) the source uses. */
module Common {

  datatype Option<+T> = None | Some(value: T) {
    predicate IsFailure() { None? }

    function PropagateFailure<U>(): Option<U>
      requires None?
    {
      None
    }

    function Extract(): T
      requires Some?
    {
      value
    }
  }

  /** A JSON value as it travels between the API and the pages. Arrays and
      fractional numbers are not modelled; `Obj` is any object. */
  datatype Value = Null | Bool(b: bool) | Num(n: int) | Str(s: string) | Obj

  /** JavaScript truthiness: null, false, 0 and "" are falsy. */
  predicate Truthy(v: Value)
  {
    match v
    case Null => false
    case Bool(b) => b
    case Num(n) => n != 0
    case Str(s) => s != ""
    case Obj => true
  }

  // ---------------------------------------------------------------------------
  // Character classes of JavaScript regular expressions

  /** `\s`: the WhiteSpace and LineTerminator code points of ECMAScript. */
  predicate IsSpace(c: char)
  {
    c in Blanks || '\U{2000}' <= c <= '\U{200A}'
  }

  const Blanks: set<char> :=
    {'\t', '\n', '\U{000B}', '\U{000C}', '\r', ' ', '\U{00A0}', '\U{1680}',
     '\U{2028}', '\U{2029}', '\U{202F}', '\U{205F}', '\U{3000}', '\U{FEFF}'}

  predicate NotSpace(c: char) { !IsSpace(c) }

  /** The line terminators, which `.` does not match. */
  predicate IsLineTerminator(c: char)
  {
    c == '\n' || c == '\r' || c == '\U{2028}' || c == '\U{2029}'
  }

  /** `.` without the `s` flag. */
  predicate IsDotChar(c: char) { !IsLineTerminator(c) }

  /** `\d` */
  predicate IsDigit(c: char) { '0' <= c <= '9' }

  /** `\w` */
  predicate IsWordChar(c: char)
  {
    ('a' <= c <= 'z') || ('A' <= c <= 'Z') || IsDigit(c) || c == '_'
  }

  /** The character classes the log patterns use. */
  datatype CharClass = Blank | NonBlank | Digit | Word | Dot

  predicate In(c: char, k: CharClass)
  {
    match k
    case Blank => IsSpace(c)
    case NonBlank => !IsSpace(c)
    case Digit => IsDigit(c)
    case Word => IsWordChar(c)
    case Dot => IsDotChar(c)
  }

  /** Every character of `s` is in class `k`. */
  predicate All(s: string, k: CharClass)
  {
    forall i :: 0 <= i < |s| ==> In(s[i], k)
  }

  // ---------------------------------------------------------------------------
  // Decimal text

  function DigitChar(d: nat): (c: char)
    requires d < 10
    ensures IsDigit(c) && c as int - '0' as int == d
  {
    ('0' as int + d) as char
  }

  /** The value of a run of decimal digits, as `parseInt(text)` reads it. */
  function DigitsValue(s: string): nat
    requires All(s, Digit)
  {
    if s == [] then 0
    else DigitsValue(s[..|s| - 1]) * 10 + (s[|s| - 1] as int - '0' as int)
  }

  /** The decimal text of a natural number, as `String(n)` writes it. */
  function NatToDecimal(n: nat): (s: string)
    ensures s != [] && All(s, Digit)
  {
    if n < 10 then [DigitChar(n)] else NatToDecimal(n / 10) + [DigitChar(n % 10)]
  }

  /** Reading back the decimal text of a number gives the number. */
  lemma {:induction false} DigitsValueOfDecimal(n: nat)
    ensures DigitsValue(NatToDecimal(n)) == n
  {
    if n >= 10 {
      var s := NatToDecimal(n);
      assert s[..|s| - 1] == NatToDecimal(n / 10);
      DigitsValueOfDecimal(n / 10);
    } else {
      var s := NatToDecimal(n);
      assert s[..|s| - 1] == [];
    }
  }

  /** The text of an integer, with a leading '-' when negative. */
  function IntToDecimal(n: int): string
  {
    if n < 0 then "-" + NatToDecimal(-n) else NatToDecimal(n)
  }

  /** `String(v)` / `v.toString()`. */
  function ToStr(v: Value): string
  {
    match v
    case Null => "null"
    case Bool(b) => if b then "true" else "false"
    case Num(n) => IntToDecimal(n)
    case Str(s) => s
    case Obj => "[object Object]"
  }

  // ---------------------------------------------------------------------------
  // Lower-casing and substring search

  function LowerChar(c: char): char
  {
    if 'A' <= c <= 'Z' then (c as int - 'A' as int + 'a' as int) as char else c
  }

  /** `toLowerCase()`, for the ASCII letters. */
  function Lower(s: string): (r: string)
    ensures |r| == |s|
    ensures forall i :: 0 <= i < |s| ==> r[i] == LowerChar(s[i])
  {
    if s == [] then [] else [LowerChar(s[0])] + Lower(s[1..])
  }

  /** `needle` occurs in `hay` starting at index `i`. */
  predicate OccursAt(hay: string, needle: string, i: int)
  {
    0 <= i <= |hay| - |needle| && hay[i..i + |needle|] == needle
  }

  /** `hay.includes(needle)`. */
  predicate Includes(hay: string, needle: string)
  {
    exists i | 0 <= i <= |hay| - |needle| :: OccursAt(hay, needle, i)
  }

  /** Case-insensitive `includes`, as the search boxes compare lower-cased texts. */
  predicate IncludesIgnoringCase(hay: string, needle: string)
  {
    Includes(Lower(hay), Lower(needle))
  }

  lemma IncludesEmpty(hay: string)
    ensures Includes(hay, "")
  {
    assert OccursAt(hay, "", 0);
  }

  /** `s` ends with `suffix`. */
  predicate IsSuffix(suffix: string, s: string)
  {
    |suffix| <= |s| && s[|s| - |suffix|..] == suffix
  }
}
