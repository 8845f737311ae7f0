/**
 * The tenant-name sanitiser `safeUsername` of api/app.js:
 * `String(u).toLowerCase().replace(/[^a-z0-9-_]/g, "-").slice(0, 40)`.
 *
 * JavaScript strings are sequences of UTF-16 code units, and the regular
 * expression (no `u` flag) and `slice` both work on code units.  After the
 * replacement every code unit is one of the safe ASCII characters, so the
 * result is an ordinary string of at most 40 characters.  The lower-casing
 * and the replacement are fused here into one map from an input character
 * to the code units it contributes (`CharUnits`), which is exact for every
 * input without lone surrogates.
 */
module Sanitizer {

  /** The length at which the sanitised name is cut off. */
  const MaxLength: nat := 40

  /** The characters of the class `[a-z0-9-_]`. */
  predicate IsSafeChar(c: char)
  {
    ('a' <= c <= 'z') || ('0' <= c <= '9') || c == '-' || c == '_'
  }

  predicate IsSafe(s: string)
  {
    forall i :: 0 <= i < |s| ==> IsSafeChar(s[i])
  }

  /**
   * What one input character becomes after `toLowerCase()` and the
   * replacement of every disallowed code unit by '-':
   * - ASCII upper-case letters become their lower-case letter;
   * - KELVIN SIGN (U+212A) lower-cases to the ASCII letter 'k';
   * - LATIN CAPITAL LETTER I WITH DOT ABOVE (U+0130) lower-cases to the two
   *   characters 'i' and U+0307, the second of which is then replaced;
   * - a character outside the Basic Multilingual Plane is two code units
   *   (its lower case is again outside that plane), each replaced by '-';
   * - every other character lower-cases to a non-ASCII character or to
   *   itself, so it is kept exactly when it is safe.
   */
  function CharUnits(c: char): (r: string)
    ensures 1 <= |r| <= 2 && IsSafe(r)
    ensures IsSafeChar(c) ==> r == [c]
    ensures c as int < 0x80 ==> |r| == 1
  {
    if 'A' <= c <= 'Z' then [(c as int + 32) as char]
    else if c == '\U{212A}' then ['k']
    else if c == '\U{0130}' then ['i', '-']
    else if IsSafeChar(c) then [c]
    else if c as int > 0xFFFF then ['-', '-']
    else ['-']
  }

  /** The lower-cased, replaced input before truncation. */
  function Normalized(s: string): (r: string)
    ensures IsSafe(r)
    ensures |s| <= |r| <= 2 * |s|
  {
    if s == [] then [] else CharUnits(s[0]) + Normalized(s[1..])
  }

  function Min(a: nat, b: nat): nat
  {
    if a <= b then a else b
  }

  /** `safeUsername(u)` for a string `u`. */
  function SafeUsername(u: string): (r: string)
    ensures |r| <= MaxLength && IsSafe(r)
    ensures |r| == Min(MaxLength, |Normalized(u)|)
    ensures r == Normalized(u)[..|r|]
  {
    var n := Normalized(u);
    if |n| <= MaxLength then n else n[..MaxLength]
  }

  /** Normalisation works character by character, so it keeps position. */
  lemma {:induction false} NormalizedConcat(a: string, b: string)
    ensures Normalized(a + b) == Normalized(a) + Normalized(b)
  {
    if a == [] {
      assert a + b == b;
    } else {
      assert (a + b)[1..] == a[1..] + b;
      NormalizedConcat(a[1..], b);
    }
  }

  /** Safe characters pass through normalisation unchanged. */
  lemma {:induction false} NormalizedOfSafe(s: string)
    requires IsSafe(s)
    ensures Normalized(s) == s
  {
    if s != [] {
      NormalizedOfSafe(s[1..]);
    }
  }

  /** A name made of safe characters is kept, cut to 40 characters. */
  lemma SafeUsernameOfSafe(u: string)
    requires IsSafe(u)
    ensures SafeUsername(u) == u[..Min(MaxLength, |u|)]
  {
    NormalizedOfSafe(u);
  }

  /** Sanitising a sanitised name changes nothing. */
  lemma SafeUsernameIdempotent(u: string)
    ensures SafeUsername(SafeUsername(u)) == SafeUsername(u)
  {
    var r := SafeUsername(u);
    SafeUsernameOfSafe(r);
    assert r[..|r|] == r;
  }

  /** The sanitised form of an ASCII character. */
  function AsciiUnit(c: char): char
  {
    if 'A' <= c <= 'Z' then (c as int + 32) as char
    else if IsSafeChar(c) then c
    else '-'
  }

  predicate IsAscii(s: string)
  {
    forall i :: 0 <= i < |s| ==> s[i] as int < 0x80
  }

  lemma {:induction false} NormalizedAscii(s: string)
    requires IsAscii(s)
    ensures |Normalized(s)| == |s|
    ensures forall i :: 0 <= i < |s| ==> Normalized(s)[i] == AsciiUnit(s[i])
  {
    if s != [] {
      NormalizedAscii(s[1..]);
      var n := Normalized(s);
      assert n == CharUnits(s[0]) + Normalized(s[1..]);
      forall i | 0 <= i < |s|
        ensures n[i] == AsciiUnit(s[i])
      {
        if i > 0 {
          assert n[i] == Normalized(s[1..])[i - 1];
        }
      }
    }
  }

  /**
   * On ASCII input the sanitised name has exactly min(40, |u|) characters,
   * and the character at each position is the sanitised input character
   * at that position.
   */
  lemma SafeUsernameAscii(u: string)
    requires IsAscii(u)
    ensures |SafeUsername(u)| == Min(MaxLength, |u|)
    ensures forall i :: 0 <= i < |SafeUsername(u)| ==> SafeUsername(u)[i] == AsciiUnit(u[i])
  {
    NormalizedAscii(u);
  }

  /** Extending the input can only extend the sanitised name. */
  lemma SafeUsernamePrefix(a: string, b: string)
    ensures SafeUsername(a) <= SafeUsername(a + b)
  {
    NormalizedConcat(a, b);
    var na, nab := Normalized(a), Normalized(a + b);
    var r, r' := SafeUsername(a), SafeUsername(a + b);
    assert |r| <= |r'|;
    forall i | 0 <= i < |r|
      ensures r[i] == r'[i]
    {
      assert r[i] == na[i] && r'[i] == nab[i];
    }
  }

  /**
   * A non-empty name yields a non-empty name that is a single path
   * component: it has no '/' and no '.', so it is neither "." nor "..".
   */
  lemma SafeUsernameIsPathComponent(u: string)
    requires u != []
    ensures SafeUsername(u) != []
    ensures '/' !in SafeUsername(u) && '.' !in SafeUsername(u)
  {
    var r := SafeUsername(u);
    assert forall i :: 0 <= i < |r| ==> r[i] != '/' && r[i] != '.';
  }

  /** The worked example: punctuation becomes '-', it is not dropped. */
  lemma SafeUsernameExample()
    ensures SafeUsername("Alice!!") == "alice--"
  {
    var s := "Alice!!";
    assert IsAscii(s);
    SafeUsernameAscii(s);
    var r := SafeUsername(s);
    assert |r| == 7;
    assert r[0] == 'a' && r[1] == 'l' && r[2] == 'i' && r[3] == 'c' && r[4] == 'e';
    assert r[5] == '-' && r[6] == '-';
  }
}
