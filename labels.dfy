/**
 * `toHeader` of lib/schema.ts: turns a camelCase or snake_case key into a
 * display label with three regular-expression replacements, modelled here
 * one function per pass, character by character.
 */
module Labels {

  /** `[A-Z]` in a JavaScript regular expression without the `i` flag. */
  predicate IsAsciiUpper(c: char) {
    'A' <= c <= 'Z'
  }

  predicate IsAsciiLower(c: char) {
    'a' <= c <= 'z'
  }

  /** Upper-case mapping, for the ASCII letters. */
  function UpperAscii(c: char): (u: char)
    ensures IsAsciiLower(c) ==> IsAsciiUpper(u)
    ensures !IsAsciiLower(c) ==> u == c
  {
    if IsAsciiLower(c) then (c as int - 32) as char else c
  }

  /** Lower-case mapping, for the ASCII letters. */
  function LowerAscii(c: char): (l: char)
    ensures IsAsciiUpper(c) ==> IsAsciiLower(l)
    ensures !IsAsciiUpper(c) ==> l == c
  {
    if IsAsciiUpper(c) then (c as int + 32) as char else c
  }

  /** `String.prototype.toLowerCase`, for the ASCII letters. */
  function LowerAsciiString(s: string): (r: string)
    ensures |r| == |s|
    ensures forall i :: 0 <= i < |s| ==> r[i] == LowerAscii(s[i])
  {
    seq(|s|, i requires 0 <= i < |s| => LowerAscii(s[i]))
  }

  /** The number of ASCII upper-case letters in `s`. */
  function CountUpper(s: string): nat {
    if s == [] then 0 else (if IsAsciiUpper(s[0]) then 1 else 0) + CountUpper(s[1..])
  }

  /** First pass, `.replace(/([A-Z])/g, " $1")`: a space before every upper-case letter. */
  function SpaceBeforeUpper(s: string): (r: string)
    ensures |r| == |s| + CountUpper(s)
    ensures s != [] && IsAsciiUpper(s[0]) ==> r[0] == ' '
    ensures s != [] && !IsAsciiUpper(s[0]) ==> r[0] == s[0]
  {
    if s == [] then []
    else (if IsAsciiUpper(s[0]) then [' ', s[0]] else [s[0]]) + SpaceBeforeUpper(s[1..])
  }

  /** Second pass, `.replace(/_/g, " ")`: every underscore becomes a space. */
  function UnderscoresToSpaces(s: string): (r: string)
    ensures |r| == |s|
    ensures '_' !in r
    ensures forall i :: 0 <= i < |s| && s[i] != '_' ==> r[i] == s[i]
    ensures forall i :: 0 <= i < |s| && s[i] == '_' ==> r[i] == ' '
  {
    if s == [] then []
    else [if s[0] == '_' then ' ' else s[0]] + UnderscoresToSpaces(s[1..])
  }

  /**
   * Third pass, `.replace(/^./, (s) => s.toUpperCase())`: the first character
   * is upper-cased. (`.` does not match a line terminator, but upper-casing
   * leaves those unchanged anyway.)
   */
  function CapitalizeFirst(s: string): (r: string)
    ensures |r| == |s|
    ensures s != [] ==> r[0] == UpperAscii(s[0]) && r[1..] == s[1..]
  {
    if s == [] then [] else [UpperAscii(s[0])] + s[1..]
  }

  /** `toHeader(key)`. */
  function ToHeader(key: string): (h: string)
    ensures |h| == |key| + CountUpper(key)
    ensures '_' !in h
  {
    CapitalizeFirst(UnderscoresToSpaces(SpaceBeforeUpper(key)))
  }

  /** Every space is removed. */
  function DropSpaces(s: string): (r: string)
    ensures ' ' !in r
  {
    if s == [] then [] else (if s[0] == ' ' then [] else [s[0]]) + DropSpaces(s[1..])
  }

  /** Reads a header back as a key: the first character lower-cased, spaces dropped. */
  function FromHeader(h: string): string {
    DropSpaces(if h == [] then [] else [LowerAscii(h[0])] + h[1..])
  }

  /** In the first pass's output, every upper-case letter follows an inserted space. */
  lemma {:induction false} SpaceBeforeUpperPrecedes(s: string)
    ensures forall i :: 0 <= i < |SpaceBeforeUpper(s)| && IsAsciiUpper(SpaceBeforeUpper(s)[i]) ==>
      i > 0 && SpaceBeforeUpper(s)[i - 1] == ' '
  {
    if s != [] {
      SpaceBeforeUpperPrecedes(s[1..]);
      var head := if IsAsciiUpper(s[0]) then [' ', s[0]] else [s[0]];
      var tail := SpaceBeforeUpper(s[1..]);
      assert SpaceBeforeUpper(s) == head + tail;
      forall i | 0 <= i < |head + tail| && IsAsciiUpper((head + tail)[i])
        ensures i > 0 && (head + tail)[i - 1] == ' '
      {
        if i > |head| {
          assert (head + tail)[i] == tail[i - |head|];
          assert (head + tail)[i - 1] == tail[i - |head| - 1];
        }
      }
    }
  }

  /**
   * In a header, every upper-case letter after the first position is
   * preceded by a space: words are split before each capital.
   */
  lemma HeaderCapitalsStartWords(key: string)
    ensures forall i :: 0 < i < |ToHeader(key)| && IsAsciiUpper(ToHeader(key)[i]) ==>
      ToHeader(key)[i - 1] == ' '
  {
    var t := SpaceBeforeUpper(key);
    var u := UnderscoresToSpaces(t);
    SpaceBeforeUpperPrecedes(key);
    forall i | 0 < i < |ToHeader(key)| && IsAsciiUpper(ToHeader(key)[i])
      ensures ToHeader(key)[i - 1] == ' '
    {
      assert ToHeader(key)[i] == u[i];
      assert u[i] == t[i];
      if i - 1 > 0 {
        assert ToHeader(key)[i - 1] == u[i - 1];
      }
    }
  }

  /**
   * The first character of a header: a key starting with a capital gets a
   * leading space ("ID" gives " I D"), a leading underscore becomes a space,
   * anything else is upper-cased.
   */
  lemma HeaderFirstChar(key: string)
    requires key != []
    ensures ToHeader(key)[0] ==
      if IsAsciiUpper(key[0]) || key[0] == '_' then ' ' else UpperAscii(key[0])
  {
  }

  lemma {:induction false} DropSpacesSplit(key: string)
    requires ' ' !in key
    ensures DropSpaces(SpaceBeforeUpper(key)) == key
  {
    if key != [] {
      DropSpacesSplit(key[1..]);
      var tail := SpaceBeforeUpper(key[1..]);
      if IsAsciiUpper(key[0]) {
        assert SpaceBeforeUpper(key) == [' '] + ([key[0]] + tail);
        DropSpacesAppend([' '], [key[0]] + tail);
        DropSpacesAppend([key[0]], tail);
      } else {
        assert SpaceBeforeUpper(key) == [key[0]] + tail;
        DropSpacesAppend([key[0]], tail);
      }
      assert [key[0]] + key[1..] == key;
    }
  }

  lemma {:induction false} DropSpacesAppend(a: string, b: string)
    ensures DropSpaces(a + b) == DropSpaces(a) + DropSpaces(b)
  {
    if a != [] {
      DropSpacesAppend(a[1..], b);
      assert (a + b)[1..] == a[1..] + b;
    } else {
      assert a + b == b;
    }
  }

  /**
   * A key without spaces and underscores is recovered from its header, so
   * `toHeader` loses nothing on camelCase keys.
   */
  lemma HeaderRoundTrip(key: string)
    requires ' ' !in key && '_' !in key
    ensures FromHeader(ToHeader(key)) == key
  {
    var t := SpaceBeforeUpper(key);
    var u := UnderscoresToSpaces(t);
    assert '_' !in t by {
      SplitKeepsChars(key, '_');
    }
    assert u == t;
    if t != [] {
      var h := ToHeader(key);
      assert h == [UpperAscii(t[0])] + t[1..];
      assert !IsAsciiUpper(t[0]);
      assert [LowerAscii(h[0])] + h[1..] == t;
    }
    DropSpacesSplit(key);
  }

  /** The first pass inserts only spaces: any other character is absent after it if it was before. */
  lemma {:induction false} SplitKeepsChars(key: string, c: char)
    requires c != ' ' && c !in key
    ensures c !in SpaceBeforeUpper(key)
  {
    if key != [] {
      SplitKeepsChars(key[1..], c);
    }
  }

  /** The first pass works character by character, so it distributes over concatenation. */
  lemma {:induction false} SpaceBeforeUpperAppend(a: string, b: string)
    ensures SpaceBeforeUpper(a + b) == SpaceBeforeUpper(a) + SpaceBeforeUpper(b)
  {
    if a == [] {
      assert a + b == b;
    } else {
      assert (a + b)[0] == a[0];
      assert (a + b)[1..] == a[1..] + b;
      SpaceBeforeUpperAppend(a[1..], b);
    }
  }

  /** Without capitals, the first pass changes nothing. */
  lemma {:induction false} SpaceBeforeUpperNoUpper(s: string)
    requires forall i :: 0 <= i < |s| ==> !IsAsciiUpper(s[i])
    ensures SpaceBeforeUpper(s) == s
  {
    if s != [] {
      assert forall i :: 0 <= i < |s[1..]| ==> s[1..][i] == s[i + 1];
      SpaceBeforeUpperNoUpper(s[1..]);
      assert [s[0]] + s[1..] == s;
    }
  }

  /** A key with neither capitals nor underscores only has its first letter upper-cased. */
  lemma LowerKeyHeader(key: string)
    requires key != []
    requires forall i :: 0 <= i < |key| ==> !IsAsciiUpper(key[i]) && key[i] != '_'
    ensures ToHeader(key) == [UpperAscii(key[0])] + key[1..]
  {
    SpaceBeforeUpperNoUpper(key);
    assert UnderscoresToSpaces(key) == key;
  }

  /** Distinct camelCase keys get distinct headers. */
  lemma HeaderInjective(k1: string, k2: string)
    requires ' ' !in k1 && '_' !in k1
    requires ' ' !in k2 && '_' !in k2
    requires ToHeader(k1) == ToHeader(k2)
    ensures k1 == k2
  {
    HeaderRoundTrip(k1);
    HeaderRoundTrip(k2);
  }
}
