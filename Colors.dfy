/** `hex_to_rgb` (server.py:79-82): a colour string such as "#FF8800" read
    as three integer components. */
module Colors {
  import opened PySemantics

  datatype Rgb = Rgb(r: int, g: int, b: int)

  /** An RGBA fill as the drawing calls receive it. */
  datatype Rgba = Rgba(r: int, g: int, b: int, a: int)

  /** `rgb + (255,)`: the colour at full opacity. */
  function Opaque(c: Rgb): (f: Rgba)
    ensures f.a == 255 && f.r == c.r && f.g == c.g && f.b == c.b
  {
    Rgba(c.r, c.g, c.b, 255)
  }

  predicate IsByte(n: int) {
    0 <= n <= 255
  }

  predicate InByteRange(c: Rgb) {
    IsByte(c.r) && IsByte(c.g) && IsByte(c.b)
  }

  /** `s.lstrip('#')`: every leading '#' removed, and nothing else. */
  function LStripHash(s: string): (r: string)
    ensures |r| <= |s|
  {
    if s != [] && s[0] == '#' then LStripHash(s[1..]) else s
  }

  /** What `lstrip('#')` leaves is a suffix that does not start with '#',
      and what it removes is all '#'. */
  lemma {:induction false} LStripHashSpec(s: string)
    ensures LStripHash(s) == s[|s| - |LStripHash(s)|..]
    ensures LStripHash(s) == [] || LStripHash(s)[0] != '#'
    ensures forall i :: 0 <= i < |s| - |LStripHash(s)| ==> s[i] == '#'
  {
    if s != [] && s[0] == '#' {
      LStripHashSpec(s[1..]);
    }
  }

  /** Python's slice `s[i:j]`: bounds beyond the end are clamped, so a slice
      past the end is empty. */
  function PySlice(s: string, i: nat, j: nat): (r: string)
    requires i <= j
    ensures |r| == (if j <= |s| then j - i else if i <= |s| then |s| - i else 0)
  {
    if i >= |s| then [] else if j >= |s| then s[i..] else s[i..j]
  }

  /** `hex_to_rgb(color)`: strip the leading '#' characters, then read the
      slices [0:2], [2:4] and [4:6] with `int(_, 16)`, in that order; the
      first slice that does not parse raises ValueError. */
  function HexToRgb(color: string): (r: Result<Rgb>)
    ensures r.Err? ==> r.error == ValueError
  {
    var cs :- Components(LStripHash(color), [0, 2, 4]);
    Ok(Rgb(cs[0], cs[1], cs[2]))
  }

  /** The generator `int(t[i:i+2], 16) for i in offsets`, consumed in
      order: a result per offset, or the error of the first slice that does
      not parse. */
  function Components(t: string, offsets: seq<nat>): (r: Result<seq<int>>)
    ensures r.Ok? ==> |r.value| == |offsets|
    ensures r.Err? ==> r.error == ValueError
  {
    if offsets == [] then Ok([])
    else
      var c :- ParseInt(PySlice(t, offsets[0], offsets[0] + 2), 16);
      var rest :- Components(t, offsets[1..]);
      Ok([c] + rest)
  }

  /** Fewer than five characters after the '#' leave the slice [4:6]
      empty, and `int('', 16)` raises ValueError (if an earlier slice has
      not raised it already). */
  lemma ShortColorRejected(color: string)
    requires |LStripHash(color)| < 5
    ensures HexToRgb(color) == Err(ValueError)
  {
    var t := LStripHash(color);
    ParseEmpty(16);
    assert PySlice(t, 4, 6) == [];
    assert Components(t, [4]) == Err(ValueError);
    assert [2, 4][1..] == [4];
    assert Components(t, [2, 4]) == Err(ValueError);
    assert [0, 2, 4][1..] == [2, 4];
  }

  /** The first six characters of `t` are hexadecimal digits. */
  predicate StartsWithSixHexDigits(t: string) {
    && |t| >= 6
    && IsHexDigit(t[0]) && IsHexDigit(t[1]) && IsHexDigit(t[2])
    && IsHexDigit(t[3]) && IsHexDigit(t[4]) && IsHexDigit(t[5])
  }

  /** Slices that each hold two hexadecimal digits decode pair by pair,
      in the order of their offsets. */
  lemma {:induction false} PairsDecode(t: string, offsets: seq<nat>)
    requires forall k :: 0 <= k < |offsets| ==>
               offsets[k] + 2 <= |t| && IsHexDigit(t[offsets[k]]) && IsHexDigit(t[offsets[k] + 1])
    ensures Components(t, offsets).Ok?
    ensures forall k :: 0 <= k < |offsets| ==>
              Components(t, offsets).value[k] == PairValue(t[offsets[k]], t[offsets[k] + 1])
  {
    if offsets != [] {
      var i := offsets[0];
      PairDecodes(t, i);
      PairsDecode(t, offsets[1..]);
      var rest := Components(t, offsets[1..]).value;
      var cs := [PairValue(t[i], t[i + 1])] + rest;
      assert Components(t, offsets) == Ok(cs);
      forall k | 0 <= k < |offsets|
        ensures cs[k] == PairValue(t[offsets[k]], t[offsets[k] + 1])
      {
        if k > 0 {
          assert offsets[k] == offsets[1..][k - 1];
        }
      }
    }
  }

  /** The slice [i:i+2] of two hexadecimal digits reads as their value. */
  lemma PairDecodes(t: string, i: nat)
    requires i + 2 <= |t| && IsHexDigit(t[i]) && IsHexDigit(t[i + 1])
    ensures ParseInt(PySlice(t, i, i + 2), 16) == Ok(PairValue(t[i], t[i + 1]))
  {
    var s := PySlice(t, i, i + 2);
    assert s[0] == t[i] && s[1] == t[i + 1];
    ParseHexPair(s);
  }

  /** A character `int(_, 16)` cannot accept anywhere in a slice of one or
      two characters: no hexadecimal digit, no white space, no sign and no
      underscore. */
  predicate Foreign(c: char) {
    DigitValue(c) >= 16 && c !in IntWhitespace && c != '+' && c != '-' && c != '_'
  }

  /** A slice of one or two characters holding a foreign character raises
      ValueError. */
  lemma ForeignSliceRejected(s: string)
    requires 1 <= |s| <= 2
    requires Foreign(s[0]) || Foreign(s[|s| - 1])
    ensures ParseInt(s, 16) == Err(ValueError)
  {
    var lo := SkipSpace(s, 0, IntWhitespace);
    var hi := TrimEnd(s, lo, |s|, IntWhitespace);
    SkipSpaceSpec(s, 0, IntWhitespace);
    TrimEndSpec(s, lo, |s|, IntWhitespace);
    if |s| == 2 && !Foreign(s[0]) {
      assert hi == 2;
    }
  }

  /** One slice that does not parse makes the whole generator raise. */
  lemma {:induction false} ComponentsFailAt(t: string, offsets: seq<nat>, k: nat)
    requires k < |offsets| && ParseInt(PySlice(t, offsets[k], offsets[k] + 2), 16).Err?
    ensures Components(t, offsets).Err?
  {
    if k > 0 && ParseInt(PySlice(t, offsets[0], offsets[0] + 2), 16).Ok? {
      ComponentsFailAt(t, offsets[1..], k - 1);
    }
  }

  /** A foreign character among the six read after the '#' raises
      ValueError. */
  lemma HexToRgbRejectsForeign(color: string, i: nat)
    requires i < 6 && i < |LStripHash(color)| && Foreign(LStripHash(color)[i])
    ensures HexToRgb(color) == Err(ValueError)
  {
    var t := LStripHash(color);
    var k := i / 2;
    var offsets: seq<nat> := [0, 2, 4];
    var slice := PySlice(t, offsets[k], offsets[k] + 2);
    assert slice[i - offsets[k]] == t[i];
    ForeignSliceRejected(slice);
    ComponentsFailAt(t, offsets, k);
  }

  /** "#GG0000" raises ValueError: 'G' is no hexadecimal digit. */
  lemma NonHexColorRejected()
    ensures HexToRgb("#GG0000") == Err(ValueError)
  {
    assert LStripHash("#GG0000") == "GG0000";
    HexToRgbRejectsForeign("#GG0000", 0);
  }

  /** `hex_to_rgb(v)` for a decoded JSON value: anything but a string has
      no `lstrip` and raises AttributeError. */
  function ColorOf(v: Json): (r: Result<Rgb>)
    ensures !v.JStr? ==> r == Err(AttributeError)
  {
    match v
    case JStr(s) => HexToRgb(s)
    case _ => Err(AttributeError)
  }

  /** `k` '#' characters. */
  function Hashes(k: nat): (r: string)
    ensures |r| == k && forall i :: 0 <= i < k ==> r[i] == '#'
  {
    seq(k, _ => '#')
  }

  /** Any number of leading '#' followed by a character other than '#'
      strips to exactly the rest of the string. */
  lemma {:induction false} LStripHashes(k: nat, rest: string)
    requires rest != [] && rest[0] != '#'
    ensures LStripHash(Hashes(k) + rest) == rest
  {
    if k > 0 {
      assert (Hashes(k) + rest)[1..] == Hashes(k - 1) + rest;
      LStripHashes(k - 1, rest);
    }
  }

  /** Text appended after a string that does not strip to nothing survives
      the strip unchanged. */
  lemma {:induction false} LStripHashAppend(s: string, tail: string)
    requires LStripHash(s) != []
    ensures LStripHash(s + tail) == LStripHash(s) + tail
  {
    if s[0] == '#' {
      assert (s + tail)[1..] == s[1..] + tail;
      LStripHashAppend(s[1..], tail);
    }
  }

  /** The colour a string denotes when, after any number of leading '#',
      it has six hexadecimal digits: each component is the value of its
      digit pair and lies in 0..255, and whatever follows the six digits is
      ignored. */
  lemma HexDigitsDecode(k: nat, digits: string, tail: string)
    requires |digits| == 6 && StartsWithSixHexDigits(digits)
    ensures HexToRgb(Hashes(k) + digits + tail)
         == Ok(Rgb(PairValue(digits[0], digits[1]),
                   PairValue(digits[2], digits[3]),
                   PairValue(digits[4], digits[5])))
    ensures IsByte(PairValue(digits[0], digits[1]))
    ensures IsByte(PairValue(digits[2], digits[3]))
    ensures IsByte(PairValue(digits[4], digits[5]))
  {
    var rest := digits + tail;
    assert Hashes(k) + digits + tail == Hashes(k) + rest;
    assert rest[..6] == digits;
    assert DigitValue(rest[0]) < 16;
    LStripHashes(k, rest);
    PairsDecode(rest, [0, 2, 4]);
  }

  /** Once at least six characters remain after the leading '#' are
      stripped, anything appended to the colour string is ignored. */
  lemma HexToRgbIgnoresTail(color: string, tail: string)
    requires |LStripHash(color)| >= 6
    ensures HexToRgb(color + tail) == HexToRgb(color)
  {
    var t := LStripHash(color);
    LStripHashAppend(color, tail);
    assert LStripHash(color + tail) == t + tail;
    ComponentsIgnoreTail(t, tail, [0, 2, 4]);
    assert Components(LStripHash(color + tail), [0, 2, 4]) == Components(t, [0, 2, 4]);
  }

  /** Slices that lie inside `t` do not see what follows it. */
  lemma {:induction false} ComponentsIgnoreTail(t: string, tail: string, offsets: seq<nat>)
    requires forall k :: 0 <= k < |offsets| ==> offsets[k] + 2 <= |t|
    ensures Components(t + tail, offsets) == Components(t, offsets)
  {
    if offsets != [] {
      var i := offsets[0];
      assert PySlice(t + tail, i, i + 2) == PySlice(t, i, i + 2);
      ComponentsIgnoreTail(t, tail, offsets[1..]);
    }
  }

  /** The upper-case hexadecimal digit for 0..15. */
  function HexDigitChar(d: nat): (c: char)
    requires d < 16
    ensures IsHexDigit(c) && DigitValue(c) == d
  {
    "0123456789ABCDEF"[d]
  }

  /** The two-digit hexadecimal text of a byte. */
  function Hex2(n: nat): (s: string)
    requires n < 256
    ensures |s| == 2 && IsHexDigit(s[0]) && IsHexDigit(s[1])
    ensures PairValue(s[0], s[1]) == n
  {
    [HexDigitChar(n / 16), HexDigitChar(n % 16)]
  }

  /** "#RRGGBB", the form of the default colours "#000000" and "#FFFFFF". */
  function FormatHex(c: Rgb): string
    requires InByteRange(c)
  {
    "#" + Hex2(c.r) + Hex2(c.g) + Hex2(c.b)
  }

  /** `hex_to_rgb` reads back every colour written as "#RRGGBB". */
  lemma {:induction false} FormatHexRoundTrip(c: Rgb)
    requires InByteRange(c)
    ensures HexToRgb(FormatHex(c)) == Ok(c)
  {
    var digits := Hex2(c.r) + Hex2(c.g) + Hex2(c.b);
    assert FormatHex(c) == Hashes(1) + digits + [];
    HexDigitsDecode(1, digits, []);
  }

  /** The two default colours of an extracted block. */
  lemma DefaultColors()
    ensures HexToRgb("#000000") == Ok(Rgb(0, 0, 0))
    ensures HexToRgb("#FFFFFF") == Ok(Rgb(255, 255, 255))
  {
    assert FormatHex(Rgb(0, 0, 0)) == "#000000";
    FormatHexRoundTrip(Rgb(0, 0, 0));
    assert FormatHex(Rgb(255, 255, 255)) == "#FFFFFF";
    FormatHexRoundTrip(Rgb(255, 255, 255));
  }

  /** Pure green and pure red, as a colour picker writes them. */
  lemma GreenAndRed()
    ensures HexToRgb("#00FF00") == Ok(Rgb(0, 255, 0))
    ensures HexToRgb("#FF0000") == Ok(Rgb(255, 0, 0))
  {
    assert FormatHex(Rgb(0, 255, 0)) == "#00FF00";
    FormatHexRoundTrip(Rgb(0, 255, 0));
    assert FormatHex(Rgb(255, 0, 0)) == "#FF0000";
    FormatHexRoundTrip(Rgb(255, 0, 0));
  }
}
