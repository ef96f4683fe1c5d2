/**
 * The slice of JavaScript semantics the console code depends on: values as
 * they appear in form values and records, truthiness, the two equalities,
 * string conversion, String.prototype.split/join, parseInt and the `\s`
 * character class of regular expressions.
 *
 * Numbers are integers here; floating point values are not modelled.
 */
module Js {

  datatype Option<T> = None | Some(value: T)

  /** The outcome of a step that may throw or report an error message. */
  datatype Result<T> = Ok(value: T) | Err(msg: string)

  /** What reading a property of undefined or null throws. */
  const TypeError: string := "TypeError"

  /** A JavaScript value as it occurs in records, form values and request parameters. */
  datatype Value = Undefined | Null | Str(s: string) | Num(n: int) | Bool(b: bool) | List(items: seq<string>)

  /** A plain object (form values, request parameters, record data); a missing key reads as undefined. */
  type Obj = map<string, Value>

  function Get(o: Obj, k: string): Value
  {
    if k in o then o[k] else Undefined
  }

  /**
   * form.getValues: only the fields a form holds are read back, so a loaded
   * value without a field is not among them.
   */
  function FormValues(values: Obj, fields: set<string>): (r: Obj)
    ensures forall k :: k in r <==> k in values && k in fields
    ensures forall k :: k in r ==> r[k] == values[k]
  {
    map k | k in values && k in fields :: values[k]
  }

  /** Ext.isDefined */
  predicate Defined(o: Obj, k: string)
  {
    Get(o, k) != Undefined
  }

  /** ToBoolean */
  predicate Truthy(v: Value)
  {
    match v
    case Undefined => false
    case Null => false
    case Str(s) => s != ""
    case Num(n) => n != 0
    case Bool(b) => b
    case List(_) => true
  }

  predicate IsNullish(v: Value)
  {
    v == Undefined || v == Null
  }

  /**
   * Abstract equality `==`. Arrays are compared by contents, which agrees with
   * reference equality where the same array is compared with itself.
   */
  predicate LooseEq(a: Value, b: Value)
  {
    if IsNullish(a) || IsNullish(b) then IsNullish(a) && IsNullish(b)
    else if a.Bool? && b.Bool? then a == b
    else
      var x := BoolAsNum(a);
      var y := BoolAsNum(b);
      if x.Num? && y.Str? then StrToNumber(y.s) == Some(x.n)
      else if x.Str? && y.Num? then StrToNumber(x.s) == Some(y.n)
      else x == y
  }

  /** A boolean operand of `==` against a non-boolean is first converted to 0 or 1. */
  function BoolAsNum(v: Value): Value
  {
    if v.Bool? then Num(if v.b then 1 else 0) else v
  }

  /** Strict equality `===`; two arrays are never the same object here. */
  predicate StrictEq(a: Value, b: Value)
  {
    a == b && !a.List?
  }

  lemma LooseEqReflexive(v: Value)
    ensures LooseEq(v, v)
  {
  }

  // ---------------------------------------------------------------------
  // Characters

  predicate IsDigit(c: char) { '0' <= c <= '9' }
  predicate IsLowerAlpha(c: char) { 'a' <= c <= 'z' }
  predicate IsUpperAlpha(c: char) { 'A' <= c <= 'Z' }
  predicate IsAlpha(c: char) { IsLowerAlpha(c) || IsUpperAlpha(c) }
  predicate IsAlnum(c: char) { IsAlpha(c) || IsDigit(c) }
  /** The class `\w` */
  predicate IsWordChar(c: char) { IsAlnum(c) || c == '_' }
  predicate IsHexDigit(c: char) { IsDigit(c) || 'a' <= c <= 'f' || 'A' <= c <= 'F' }

  /** The line terminators, which `.` in a regular expression does not match. */
  predicate IsLineTerminator(c: char)
  {
    c == '\n' || c == '\r' || c == '\U{2028}' || c == '\U{2029}'
  }

  /** The class `\s`: white space and line terminators. */
  predicate IsSpace(c: char)
  {
    c == '\t' || c == '\U{B}' || c == '\U{C}' || c == ' ' || c == '\U{A0}' || c == '\U{1680}'
    || ('\U{2000}' <= c <= '\U{200A}') || c == '\U{202F}' || c == '\U{205F}' || c == '\U{3000}'
    || c == '\U{FEFF}' || IsLineTerminator(c)
  }

  predicate AllDigits(s: string) { forall i :: 0 <= i < |s| ==> IsDigit(s[i]) }
  predicate NoSpace(s: string) { forall i :: 0 <= i < |s| ==> !IsSpace(s[i]) }

  /** String.prototype.toLowerCase, for the ASCII letters. */
  function Lower(s: string): (r: string)
    ensures |r| == |s|
  {
    if s == [] then []
    else [if IsUpperAlpha(s[0]) then (s[0] as int + 32) as char else s[0]] + Lower(s[1..])
  }

  predicate IsPrefix(p: string, s: string)
  {
    |p| <= |s| && s[..|p|] == p
  }

  /** `s.indexOf(p) >= 0` */
  predicate Contains(s: string, p: string)
    decreases |s|
  {
    IsPrefix(p, s) || (|s| > 0 && Contains(s[1..], p))
  }

  lemma ContainsEmpty(s: string)
    ensures Contains(s, "")
  {
  }

  // ---------------------------------------------------------------------
  // Numbers and their text

  function DigitValue(c: char): int requires IsDigit(c) { c as int - '0' as int }

  /** The value of a string of decimal digits. */
  function DecimalValue(s: string): nat
    requires AllDigits(s)
  {
    if s == [] then 0 else 10 * DecimalValue(s[..|s|-1]) + DigitValue(s[|s|-1])
  }

  /** Number.prototype.toString for non-negative integers */
  function NatToString(n: nat): (r: string)
    ensures |r| >= 1 && AllDigits(r)
    ensures DecimalValue(r) == n
  {
    var d := [('0' as int + n % 10) as char];
    if n < 10 then d
    else
      var p := NatToString(n / 10);
      assert (p + d)[..|p + d| - 1] == p;
      p + d
  }

  lemma NatToStringLength(n: nat, k: nat)
    requires n < Pow10(k) && k >= 1
    ensures |NatToString(n)| <= k
  {
    if n >= 10 {
      NatToStringLength(n / 10, k - 1);
    }
  }

  function Pow10(k: nat): nat
  {
    if k == 0 then 1 else 10 * Pow10(k - 1)
  }

  function IntToString(i: int): string
  {
    if i < 0 then "-" + NatToString(-i) else NatToString(i)
  }

  /** String(v) */
  function ToStr(v: Value): string
  {
    match v
    case Undefined => "undefined"
    case Null => "null"
    case Str(s) => s
    case Num(n) => IntToString(n)
    case Bool(b) => if b then "true" else "false"
    case List(xs) => Join(xs, ",")
  }

  function TrimStart(s: string): (r: string)
    ensures |r| <= |s| && r == s[|s| - |r|..]
    ensures r == [] || !IsSpace(r[0])
  {
    if s != [] && IsSpace(s[0]) then TrimStart(s[1..]) else s
  }

  function TrimEnd(s: string): (r: string)
    ensures |r| <= |s| && r == s[..|r|]
    ensures r == [] || !IsSpace(r[|r| - 1])
  {
    if s != [] && IsSpace(s[|s| - 1]) then TrimEnd(s[..|s| - 1]) else s
  }

  /** The length of the run of decimal digits that starts s. */
  function DigitRun(s: string): (k: nat)
    ensures k <= |s| && AllDigits(s[..k])
    ensures k == |s| || !IsDigit(s[k])
  {
    if s != [] && IsDigit(s[0]) then
      var k := 1 + DigitRun(s[1..]);
      assert s[..k] == [s[0]] + s[1..][..k - 1];
      k
    else 0
  }

  /** The run of digits at the start of x + t, when t does not go on with a digit, is x. */
  lemma {:induction false} DigitRunOf(x: string, t: string)
    requires AllDigits(x)
    requires t == [] || !IsDigit(t[0])
    ensures DigitRun(x + t) == |x|
    decreases |x|
  {
    if x != [] {
      assert (x + t)[1..] == x[1..] + t;
      DigitRunOf(x[1..], t);
    } else {
      assert x + t == t;
    }
  }

  /**
   * parseInt(s, 10): leading white space, an optional sign, then the longest
   * run of decimal digits; NaN (None) when there is no digit.
   */
  function ParseInt(s: string): Option<int>
  {
    var t := TrimStart(s);
    var neg := t != [] && t[0] == '-';
    var u := if t != [] && (t[0] == '-' || t[0] == '+') then t[1..] else t;
    var k := DigitRun(u);
    if k == 0 then None
    else if neg then Some(-(DecimalValue(u[..k]) as int))
    else Some(DecimalValue(u[..k]))
  }

  /**
   * ToNumber on a string, for the integer notations: surrounding white space
   * is ignored, the empty string is 0, an optionally signed run of decimal
   * digits is its value; everything else is None (NaN, or a value that is not
   * an integer literal).
   */
  function StrToNumber(s: string): Option<int>
  {
    var t := TrimEnd(TrimStart(s));
    var neg := t != [] && t[0] == '-';
    var u := if t != [] && (t[0] == '-' || t[0] == '+') then t[1..] else t;
    if t == [] then Some(0)
    else if u == [] || !AllDigits(u) then None
    else if neg then Some(-(DecimalValue(u) as int))
    else Some(DecimalValue(u))
  }

  /** ToNumber for the integer values: NaN (None) for undefined and for text that is not an integer. */
  function ToNumber(v: Value): Option<int>
  {
    match v
    case Undefined => None
    case Null => Some(0)
    case Bool(b) => Some(if b then 1 else 0)
    case Num(n) => Some(n)
    case Str(s) => StrToNumber(s)
    case List(xs) => StrToNumber(Join(xs, ","))
  }

  /** Text that starts and ends with a capital letter is not a number. */
  lemma NotANumber(s: string)
    requires |s| > 0 && 'A' <= s[0] <= 'Z' && 'A' <= s[|s| - 1] <= 'Z'
    ensures StrToNumber(s) == None
  {
    assert !IsSpace(s[0]) && !IsSpace(s[|s| - 1]);
    Untrimmed(s);
    assert !IsDigit(s[0]);
  }

  /** A falsy value is never loosely equal to non-empty text that is not a number. */
  lemma FalsyNotLooseEqNaN(v: Value, s: string)
    requires !Truthy(v) && s != "" && StrToNumber(s) == None
    ensures !LooseEq(v, Str(s))
  {
  }

  /** A number written out in decimal converts back to itself. */
  lemma StrToNumberOfNatString(n: nat)
    ensures StrToNumber(NatToString(n)) == Some(n)
  {
    DigitsToNumber(NatToString(n));
  }

  /** A non-empty run of decimal digits converts to its decimal value. */
  lemma DigitsToNumber(s: string)
    requires |s| >= 1 && AllDigits(s)
    ensures StrToNumber(s) == Some(DecimalValue(s))
  {
    assert IsDigit(s[0]) && IsDigit(s[|s| - 1]);
    Untrimmed(s);
    assert s[0] != '-' && s[0] != '+';
  }

  /** Text with no white space at either end is its own trim. */
  lemma Untrimmed(s: string)
    requires s == [] || (!IsSpace(s[0]) && !IsSpace(s[|s| - 1]))
    ensures TrimStart(s) == s && TrimEnd(s) == s
  {
  }

  lemma ParseIntOfNatString(n: nat)
    ensures ParseInt(NatToString(n)) == Some(n)
  {
    var s := NatToString(n);
    assert !IsSpace(s[0]);
    assert TrimStart(s) == s;
    assert s[..DigitRun(s)] == s;
  }

  // ---------------------------------------------------------------------
  // split and join

  /** `s.split(sep)` for a one-character separator; `"".split(sep)` is `[""]`. */
  function Split(s: string, sep: char): (r: seq<string>)
    ensures |r| >= 1
  {
    if s == [] then [""]
    else
      var rest := Split(s[1..], sep);
      if s[0] == sep then [""] + rest
      else [[s[0]] + rest[0]] + rest[1..]
  }

  /** `xs.join(sep)` */
  function Join(xs: seq<string>, sep: string): string
  {
    if xs == [] then ""
    else if |xs| == 1 then xs[0]
    else xs[0] + sep + Join(xs[1..], sep)
  }

  lemma {:induction false} SplitNoSep(x: string, t: string, sep: char)
    requires sep !in x
    ensures Split(x + t, sep) == [x + Split(t, sep)[0]] + Split(t, sep)[1..]
    decreases |x|
  {
    if x != [] {
      assert (x + t)[1..] == x[1..] + t;
      SplitNoSep(x[1..], t, sep);
      assert [x[0]] + (x[1..] + Split(t, sep)[0]) == x + Split(t, sep)[0];
    } else {
      assert x + t == t;
      assert Split(t, sep) == [Split(t, sep)[0]] + Split(t, sep)[1..];
      assert x + Split(t, sep)[0] == Split(t, sep)[0];
    }
  }

  /** Joining pieces free of the separator and splitting again gives the pieces back. */
  lemma {:induction false} SplitJoin(xs: seq<string>, sep: char)
    requires |xs| >= 1
    requires forall i :: 0 <= i < |xs| ==> sep !in xs[i]
    ensures Split(Join(xs, [sep]), sep) == xs
    decreases |xs|
  {
    if |xs| == 1 {
      SplitNoSep(xs[0], "", sep);
      assert xs[0] + "" == xs[0];
    } else {
      var t := Join(xs[1..], [sep]);
      SplitJoin(xs[1..], sep);
      assert xs[0] + [sep] + t == xs[0] + ([sep] + t);
      SplitNoSep(xs[0], [sep] + t, sep);
      assert ([sep] + t)[1..] == t;
      assert Split([sep] + t, sep) == [""] + xs[1..];
      assert Join(xs, [sep]) == xs[0] + ([sep] + t);
      assert xs[0] + "" == xs[0];
      assert xs == [xs[0]] + xs[1..];
    }
  }

  /** Splitting and joining again with the same separator gives the string back. */
  lemma {:induction false} JoinSplit(s: string, sep: char)
    ensures Join(Split(s, sep), [sep]) == s
    decreases |s|
  {
    if s != [] {
      JoinSplit(s[1..], sep);
      var rest := Split(s[1..], sep);
      if s[0] == sep {
        assert s == [sep] + s[1..];
      } else {
        if |rest| == 1 {
          assert s == [s[0]] + s[1..];
        } else {
          assert Join(rest, [sep]) == rest[0] + [sep] + Join(rest[1..], [sep]);
          assert s == [s[0]] + s[1..];
        }
      }
    }
  }

  lemma SplitNoSepSingle(s: string, sep: char)
    requires sep !in s
    ensures Split(s, sep) == [s]
  {
    SplitNoSep(s, "", sep);
    assert s + "" == s;
  }

  /** The pieces of a split never contain the separator. */
  lemma {:induction false} SplitPiecesFree(s: string, sep: char)
    ensures forall i :: 0 <= i < |Split(s, sep)| ==> sep !in Split(s, sep)[i]
    decreases |s|
  {
    if s != [] {
      SplitPiecesFree(s[1..], sep);
    }
  }

  /** Drops the run of white space that starts s. */
  function DropSpaces(s: string): (r: string)
    ensures |r| <= |s|
    ensures s != [] && IsSpace(s[0]) ==> |r| < |s|
    ensures r == [] || !IsSpace(r[0])
  {
    if s != [] && IsSpace(s[0]) then DropSpaces(s[1..]) else s
  }

  /**
   * `s.split(/\s+/)`: every maximal run of white space separates two pieces,
   * so a leading run yields an empty first piece and a trailing run an empty
   * last one.
   */
  function SplitWs(s: string): (r: seq<string>)
    ensures |r| >= 1
    decreases |s|
  {
    if s == [] then [""]
    else if IsSpace(s[0]) then [""] + SplitWs(DropSpaces(s))
    else
      var rest := SplitWs(s[1..]);
      [[s[0]] + rest[0]] + rest[1..]
  }

  lemma {:induction false} SplitWsNoSpace(x: string, t: string)
    requires NoSpace(x)
    ensures SplitWs(x + t) == [x + SplitWs(t)[0]] + SplitWs(t)[1..]
    decreases |x|
  {
    if x != [] {
      assert (x + t)[1..] == x[1..] + t;
      SplitWsNoSpace(x[1..], t);
      assert [x[0]] + (x[1..] + SplitWs(t)[0]) == x + SplitWs(t)[0];
    } else {
      assert x + t == t;
      assert SplitWs(t) == [SplitWs(t)[0]] + SplitWs(t)[1..];
      assert x + SplitWs(t)[0] == SplitWs(t)[0];
    }
  }

  /** Joining non-empty words free of white space with " " and splitting on /\s+/ gives the words back. */
  lemma {:induction false} SplitWsJoin(xs: seq<string>)
    requires |xs| >= 1
    requires forall i :: 0 <= i < |xs| ==> xs[i] != "" && NoSpace(xs[i])
    ensures SplitWs(Join(xs, " ")) == xs
    decreases |xs|
  {
    if |xs| == 1 {
      SplitWsNoSpace(xs[0], "");
      assert xs[0] + "" == xs[0];
    } else {
      var t := Join(xs[1..], " ");
      SplitWsJoin(xs[1..]);
      assert t != [] && t[0] == xs[1][0] by {
        if |xs[1..]| == 1 {
        } else {
          assert t == xs[1] + " " + Join(xs[2..], " ");
        }
      }
      assert xs[0] + " " + t == xs[0] + (" " + t);
      SplitWsNoSpace(xs[0], " " + t);
      assert DropSpaces(" " + t) == t;
      assert SplitWs(" " + t) == [""] + xs[1..];
      assert Join(xs, " ") == xs[0] + (" " + t);
      assert xs[0] + "" == xs[0];
      assert xs == [xs[0]] + xs[1..];
    }
  }
}
