/** The pieces of Python's own semantics that the server relies on:
    JSON request values, truthiness, `str.strip()`, `int(x)`, `int(s, 16)`
    and `str(x)`. Exceptions become the `Err` case of `Result`. */
module PySemantics {

  /** The exception classes the modelled code can raise. `DrawError` stands
      for any exception raised inside the imaging library. */
  datatype PyError = TypeError | ValueError | KeyError | AttributeError | DrawError

  datatype Result<+T> = Ok(value: T) | Err(error: PyError) {
    predicate IsFailure() { Err? }
    function PropagateFailure<U>(): Result<U> requires Err? { Err(error) }
    function Extract(): T requires Ok? { value }
  }

  datatype Option<+T> = None | Some(value: T)

  /** A decoded JSON value as Flask hands it to the handler. */
  datatype Json =
    | JNull
    | JBool(b: bool)
    | JNum(n: int)
    | JStr(s: string)
    | JArr(items: seq<Json>)
    | JObj(fields: map<string, Json>)

  /** Python's `bool(v)` for a decoded JSON value. */
  predicate Truthy(v: Json) {
    match v
    case JNull => false
    case JBool(b) => b
    case JNum(n) => n != 0
    case JStr(s) => s != []
    case JArr(items) => items != []
    case JObj(fields) => fields != map[]
  }

  /** `d.get(key, default)` on a dict. */
  function Get(fields: map<string, Json>, key: string, default: Json): Json {
    if key in fields then fields[key] else default
  }

  /** `v[key]`: a KeyError for a missing key of a dict, a TypeError for
      anything that is not a dict (strings, lists, numbers, None). */
  function Index(v: Json, key: string): (r: Result<Json>)
    ensures r.Ok? <==> v.JObj? && key in v.fields
    ensures r.Ok? ==> r.value == v.fields[key]
  {
    match v
    case JObj(fields) => if key in fields then Ok(fields[key]) else Err(KeyError)
    case _ => Err(TypeError)
  }

  /** The characters `str.isspace()` accepts, and so the ones `str.strip()`
      removes. */
  const Whitespace: set<char> := {
    '\t', '\n', '\U{B}', '\U{C}', '\r', '\U{1C}', '\U{1D}', '\U{1E}', '\U{1F}', ' ',
    '\U{85}', '\U{A0}', '\U{1680}',
    '\U{2000}', '\U{2001}', '\U{2002}', '\U{2003}', '\U{2004}', '\U{2005}',
    '\U{2006}', '\U{2007}', '\U{2008}', '\U{2009}', '\U{200A}',
    '\U{2028}', '\U{2029}', '\U{202F}', '\U{205F}', '\U{3000}'}

  /** `c.isspace()`. */
  predicate IsSpace(c: char) {
    c in Whitespace
  }

  /** The characters `int()` skips around a literal: the ASCII white space
      `\t \n \v \f \r` and ' ', and every non-ASCII character that
      `isspace()` accepts. The ASCII separators U+001C to U+001F count as
      white space for `isspace()` and `strip()`, but not for `int()`. */
  const IntWhitespace: set<char> := Whitespace - {'\U{1C}', '\U{1D}', '\U{1E}', '\U{1F}'}

  /** The first index at or after `i` whose character is not in `ws`, or
      |s| when there is none. */
  function SkipSpace(s: string, i: nat, ws: set<char>): (k: nat)
    requires i <= |s|
    ensures i <= k <= |s|
    decreases |s| - i
  {
    if i < |s| && s[i] in ws then SkipSpace(s, i + 1, ws) else i
  }

  /** The end of `s[lo..j]` once its trailing characters from `ws` are cut
      off. */
  function TrimEnd(s: string, lo: nat, j: nat, ws: set<char>): (k: nat)
    requires lo <= j <= |s|
    ensures lo <= k <= j
    decreases j
  {
    if lo < j && s[j - 1] in ws then TrimEnd(s, lo, j - 1, ws) else j
  }

  /** `s.strip()`: white space removed from both ends. */
  function Strip(s: string): (r: string)
    ensures |r| <= |s|
  {
    var lo := SkipSpace(s, 0, Whitespace);
    s[lo..TrimEnd(s, lo, |s|, Whitespace)]
  }

  lemma {:induction false} SkipSpaceSpec(s: string, i: nat, ws: set<char>)
    requires i <= |s|
    ensures forall k :: i <= k < SkipSpace(s, i, ws) ==> s[k] in ws
    ensures SkipSpace(s, i, ws) < |s| ==> s[SkipSpace(s, i, ws)] !in ws
    decreases |s| - i
  {
    if i < |s| && s[i] in ws {
      SkipSpaceSpec(s, i + 1, ws);
    }
  }

  lemma {:induction false} TrimEndSpec(s: string, lo: nat, j: nat, ws: set<char>)
    requires lo <= j <= |s|
    ensures forall k :: TrimEnd(s, lo, j, ws) <= k < j ==> s[k] in ws
    ensures TrimEnd(s, lo, j, ws) > lo ==> s[TrimEnd(s, lo, j, ws) - 1] !in ws
    decreases j
  {
    if lo < j && s[j - 1] in ws {
      TrimEndSpec(s, lo, j - 1, ws);
    }
  }

  /** `s.strip()` is the infix of `s` left when white space is cut off both
      ends: it neither starts nor ends with white space, and everything cut
      off is white space. */
  lemma StripIsInfix(s: string)
    ensures Strip(s) == [] || (!IsSpace(Strip(s)[0]) && !IsSpace(Strip(s)[|Strip(s)| - 1]))
    ensures exists i, j ::
              && 0 <= i <= j <= |s| && Strip(s) == s[i..j]
              && (forall k :: 0 <= k < i ==> IsSpace(s[k]))
              && (forall k :: j <= k < |s| ==> IsSpace(s[k]))
  {
    var lo := SkipSpace(s, 0, Whitespace);
    var hi := TrimEnd(s, lo, |s|, Whitespace);
    SkipSpaceSpec(s, 0, Whitespace);
    TrimEndSpec(s, lo, |s|, Whitespace);
    assert Strip(s) == s[lo..hi];
  }

  /** True when `s.strip()` is the empty string. */
  predicate Blank(s: string) {
    Strip(s) == []
  }

  /** A string that neither starts nor ends with white space is its own strip. */
  lemma StripNoSpaceEnds(s: string)
    requires s == [] || (!IsSpace(s[0]) && !IsSpace(s[|s| - 1]))
    ensures Strip(s) == s
  {
    assert SkipSpace(s, 0, Whitespace) == 0;
    assert TrimEnd(s, 0, |s|, Whitespace) == |s|;
  }

  /** Stripping is idempotent: a stripped string is its own strip. */
  lemma {:induction false} StripIdempotent(s: string)
    ensures Strip(Strip(s)) == Strip(s)
  {
    StripIsInfix(s);
    StripNoSpaceEnds(Strip(s));
  }

  /** `s.strip()` is empty exactly when every character of `s` is white space. */
  lemma {:induction false} BlankIffAllSpace(s: string)
    ensures Blank(s) <==> forall k :: 0 <= k < |s| ==> IsSpace(s[k])
  {
    StripIsInfix(s);
  }

  /** The value of one digit character in bases up to 36; 36 for any other
      character, which no base admits. */
  function DigitValue(c: char): (v: nat)
    ensures v <= 36
  {
    if '0' <= c <= '9' then (c - '0') as nat
    else if 'a' <= c <= 'z' then (c - 'a') as nat + 10
    else if 'A' <= c <= 'Z' then (c - 'A') as nat + 10
    else 36
  }

  predicate IsHexDigit(c: char) {
    DigitValue(c) < 16
  }

  /** Where the digits of the literal `s[i..hi]` start: after one optional
      sign and, in base 16, an optional `0x` or `0X` prefix that may be
      followed by one underscore. */
  function DigitsStart(s: string, i: nat, hi: nat, base: nat): (k: nat)
    requires i <= hi <= |s|
    ensures i <= k <= hi
  {
    var j := if i < hi && (s[i] == '+' || s[i] == '-') then i + 1 else i;
    if base == 16 && j + 2 <= hi && s[j] == '0' && (s[j + 1] == 'x' || s[j + 1] == 'X') then
      if j + 2 < hi && s[j + 2] == '_' then j + 3 else j + 2
    else j
  }

  /** `s[lo..hi]` is a digit string of `base`: digits, with single
      underscores allowed between two digits. */
  predicate DigitsOk(s: string, lo: nat, hi: nat, base: nat)
    requires lo <= hi <= |s|
    decreases hi
  {
    && lo < hi
    && DigitValue(s[hi - 1]) < base
    && (|| hi - lo == 1
        || if s[hi - 2] == '_' then hi - lo >= 3 && DigitsOk(s, lo, hi - 2, base)
           else DigitsOk(s, lo, hi - 1, base))
  }

  /** The value of the digit string `s[lo..hi]`, underscores ignored. */
  function DigitsValue(s: string, lo: nat, hi: nat, base: nat): nat
    requires lo <= hi <= |s|
    decreases hi
  {
    if lo == hi then 0
    else if s[hi - 1] == '_' then DigitsValue(s, lo, hi - 1, base)
    else DigitsValue(s, lo, hi - 1, base) * base + DigitValue(s[hi - 1])
  }

  /** `int(s, base)` for a string in base 10 or 16: surrounding white space
      (as `int()` counts it), one sign, the base-16 prefix and underscores
      between digits are accepted; anything else is a ValueError. */
  function ParseInt(s: string, base: nat): (r: Result<int>)
    requires base == 10 || base == 16
    ensures r.Err? ==> r.error == ValueError
  {
    var lo := SkipSpace(s, 0, IntWhitespace);
    var hi := TrimEnd(s, lo, |s|, IntWhitespace);
    var start := DigitsStart(s, lo, hi, base);
    var magnitude: int := DigitsValue(s, start, hi, base);
    if !DigitsOk(s, start, hi, base) then Err(ValueError)
    else if s[lo] == '-' then Ok(-magnitude)
    else Ok(magnitude)
  }

  /** `int(v)` for a decoded JSON value: numbers are kept, booleans are 0
      or 1, strings are parsed in base 10, and None, lists and dicts are a
      TypeError. */
  function ToInt(v: Json): Result<int> {
    match v
    case JNum(n) => Ok(n)
    case JBool(b) => Ok(if b then 1 else 0)
    case JStr(s) => ParseInt(s, 10)
    case _ => Err(TypeError)
  }

  /** The decimal digits of a natural number, most significant first. */
  function NatDigits(n: nat): (r: string)
    ensures r != []
    ensures forall i :: 0 <= i < |r| ==> '0' <= r[i] <= '9'
    decreases n
  {
    if n < 10 then [('0' as int + n) as char]
    else NatDigits(n / 10) + [('0' as int + n % 10) as char]
  }

  /** `str(n)` for an int. */
  function IntToString(n: int): (r: string)
    ensures r != [] && (r[0] == '-' <==> n < 0)
    ensures forall i :: (if n < 0 then 1 else 0) <= i < |r| ==> '0' <= r[i] <= '9'
  {
    if n < 0 then "-" + NatDigits(-n) else NatDigits(n)
  }

  /** The value of a digit string does not see what follows it. */
  lemma {:induction false} DigitsValuePrefix(s: string, t: string, lo: nat, hi: nat, base: nat)
    requires lo <= hi <= |s|
    ensures DigitsValue(s + t, lo, hi, base) == DigitsValue(s, lo, hi, base)
    decreases hi
  {
    if lo < hi {
      assert (s + t)[hi - 1] == s[hi - 1];
      DigitsValuePrefix(s, t, lo, hi - 1, base);
    }
  }

  /** Nor does it see what precedes it. */
  lemma {:induction false} DigitsValueShift(c: char, s: string, lo: nat, hi: nat, base: nat)
    requires lo <= hi <= |s|
    ensures DigitsValue([c] + s, lo + 1, hi + 1, base) == DigitsValue(s, lo, hi, base)
    decreases hi
  {
    if lo < hi {
      assert ([c] + s)[hi] == s[hi - 1];
      DigitsValueShift(c, s, lo, hi - 1, base);
    }
  }

  /** The decimal digits of n denote n. */
  lemma {:induction false} NatDigitsValue(n: nat)
    ensures DigitsValue(NatDigits(n), 0, |NatDigits(n)|, 10) == n
    decreases n
  {
    if n >= 10 {
      var p := NatDigits(n / 10);
      var c := ('0' as int + n % 10) as char;
      NatDigitsValue(n / 10);
      DigitsValuePrefix(p, [c], 0, |p|, 10);
      assert NatDigits(n) == p + [c];
      assert (p + [c])[|p|] == c;
    }
  }

  /** A run of digits of the base is a well-formed digit string. */
  lemma {:induction false} AllDigitsOk(s: string, lo: nat, hi: nat, base: nat)
    requires lo < hi <= |s| && base <= 36
    requires forall k :: lo <= k < hi ==> DigitValue(s[k]) < base
    ensures DigitsOk(s, lo, hi, base)
    decreases hi
  {
    if hi - lo > 1 {
      assert DigitValue(s[hi - 2]) < base;
      AllDigitsOk(s, lo, hi - 1, base);
    }
  }

  /** `int(t, 10)` of an optional '-' followed by decimal digits is the
      value of those digits, negated after a '-'. */
  lemma SignedDigitsParse(t: string, lo: nat)
    requires lo < |t| && (lo == 0 || (lo == 1 && t[0] == '-'))
    requires forall k :: lo <= k < |t| ==> '0' <= t[k] <= '9'
    ensures ParseInt(t, 10) == Ok(if lo == 1 then -(DigitsValue(t, 1, |t|, 10) as int) else DigitsValue(t, 0, |t|, 10))
  {
    assert t[0] !in IntWhitespace && t[|t| - 1] !in IntWhitespace;
    assert SkipSpace(t, 0, IntWhitespace) == 0;
    assert TrimEnd(t, 0, |t|, IntWhitespace) == |t|;
    assert DigitsStart(t, 0, |t|, 10) == lo;
    AllDigitsOk(t, lo, |t|, 10);
  }

  /** `int(str(n)) == n`: the decimal text of an integer reads back as it. */
  lemma {:induction false} IntToStringRoundTrip(n: int)
    ensures ParseInt(IntToString(n), 10) == Ok(n)
  {
    var m: nat := if n < 0 then -n else n;
    var d := NatDigits(m);
    NatDigitsValue(m);
    if n < 0 {
      var r := ['-'] + d;
      assert IntToString(n) == r;
      DigitsValueShift('-', d, 0, |d|, 10);
      SignedDigitsParse(r, 1);
    } else {
      assert IntToString(n) == d;
      SignedDigitsParse(d, 0);
    }
  }

  /** `str(v)` for a decoded JSON value. Lists and dicts are printed by
      Python's `repr`, which `containerRepr` stands for. */
  function ToStr(v: Json, containerRepr: Json -> string): string {
    match v
    case JStr(s) => s
    case JNum(n) => IntToString(n)
    case JBool(b) => if b then "True" else "False"
    case JNull => "None"
    case _ => containerRepr(v)
  }

  /** A digit character is neither white space, a sign nor an underscore. */
  lemma DigitIsPlain(c: char)
    requires DigitValue(c) < 36
    ensures c !in IntWhitespace && c != '+' && c != '-' && c != '_'
  {
  }

  /** `int(s, 16)` of a string of exactly two hexadecimal digits is the
      value of that two-digit number. */
  lemma ParseHexPair(s: string)
    requires |s| == 2 && IsHexDigit(s[0]) && IsHexDigit(s[1])
    ensures ParseInt(s, 16) == Ok(PairValue(s[0], s[1]))
  {
    DigitIsPlain(s[0]);
    DigitIsPlain(s[1]);
    assert SkipSpace(s, 0, IntWhitespace) == 0;
    assert TrimEnd(s, 0, 2, IntWhitespace) == 2;
    assert DigitsStart(s, 0, 2, 16) == 0;
    assert DigitsOk(s, 0, 1, 16);
    assert DigitsValue(s, 0, 1, 16) == DigitValue(s[0]);
  }

  /** The value of a two-digit hexadecimal number. */
  function PairValue(hi: char, lo: char): int {
    DigitValue(hi) * 16 + DigitValue(lo)
  }

  /** The ASCII separators are white space to `strip()` but not to `int()`:
      "\x1c5" strips to "5", yet `int("\x1c5", 16)` raises ValueError. */
  lemma SeparatorsNotSkippedByInt()
    ensures Strip("\U{1C}5") == "5"
    ensures ParseInt("\U{1C}5", 16) == Err(ValueError)
  {
    assert SkipSpace("\U{1C}5", 0, Whitespace) == 1;
    assert SkipSpace("\U{1C}5", 0, IntWhitespace) == 0;
  }

  /** `int('', 16)` is a ValueError. */
  lemma ParseEmpty(base: nat)
    requires base == 10 || base == 16
    ensures ParseInt([], base) == Err(ValueError)
  {
  }
}
