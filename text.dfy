/**
 * Strings as sequences of characters, and the handful of string operations the
 * application uses: substring and prefix tests, the two different `trim`s of
 * JavaScript and Java, `split(",")` and `join(sep)`.
 */
module Text {

  /** `sub` occurs in `s` starting at index `i`. */
  predicate ContainsAt(s: string, sub: string, i: nat) {
    i + |sub| <= |s| && s[i..i + |sub|] == sub
  }

  /** JavaScript `s.includes(sub)` and Java `s.contains(sub)`. */
  predicate Contains(s: string, sub: string) {
    exists i: nat :: i <= |s| && ContainsAt(s, sub, i)
  }

  /** JavaScript `s.startsWith(p)` and Java `s.startsWith(p)`. */
  predicate StartsWith(s: string, p: string) {
    |p| <= |s| && s[..|p|] == p
  }

  lemma ContainsWitness(s: string, sub: string, i: nat)
    requires ContainsAt(s, sub, i)
    ensures Contains(s, sub)
  {
  }

  lemma StartsWithContains(s: string, p: string)
    requires StartsWith(s, p)
    ensures Contains(s, p)
  {
    assert ContainsAt(s, p, 0);
  }

  /** Containment is transitive: an occurrence inside an occurrence is an occurrence. */
  lemma {:induction false} ContainsTransitive(a: string, b: string, c: string)
    requires Contains(a, b) && Contains(b, c)
    ensures Contains(a, c)
  {
    var i: nat :| i <= |a| && ContainsAt(a, b, i);
    var j: nat :| j <= |b| && ContainsAt(b, c, j);
    assert a[i..i + |b|] == b;
    assert b[j..j + |c|] == c;
    assert a[i + j..i + j + |c|] == c by {
      forall k | 0 <= k < |c| ensures a[i + j..i + j + |c|][k] == c[k] {
        assert c[k] == b[j + k] == a[i..i + |b|][j + k];
      }
    }
    assert ContainsAt(a, c, i + j);
  }

  /** A string contains each of its prefixes extended to the right. */
  lemma ContainsInConcat(a: string, b: string, sub: string)
    requires Contains(b, sub)
    ensures Contains(a + b, sub)
  {
    var i: nat :| i <= |b| && ContainsAt(b, sub, i);
    assert (a + b)[|a| + i..|a| + i + |sub|] == b[i..i + |sub|];
    assert ContainsAt(a + b, sub, |a| + i);
  }

  /** `s` with `f` applied to every character. */
  function MapChars(s: string, f: char -> char): (r: string)
    ensures |r| == |s|
    ensures forall k :: 0 <= k < |s| ==> r[k] == f(s[k])
  {
    if s == [] then [] else [f(s[0])] + MapChars(s[1..], f)
  }

  /** Mapping characters one by one carries every occurrence over. */
  lemma {:induction false} MapCharsContains(s: string, sub: string, f: char -> char)
    requires Contains(s, sub)
    ensures Contains(MapChars(s, f), MapChars(sub, f))
  {
    var i: nat :| i <= |s| && ContainsAt(s, sub, i);
    var ms, msub := MapChars(s, f), MapChars(sub, f);
    assert ms[i..i + |msub|] == msub by {
      forall k | 0 <= k < |msub| ensures ms[i..i + |msub|][k] == msub[k] {
        assert s[i..i + |sub|][k] == sub[k];
      }
    }
    assert ContainsAt(ms, msub, i);
  }

  // ---------------------------------------------------------------------
  // Whitespace and trimming

  /**
   * The characters ECMAScript's `String.prototype.trim` removes: WhiteSpace
   * (tab, vertical tab, form feed, space, no-break space, zero-width no-break
   * space and every space separator) and LineTerminator (line feed, carriage
   * return, line and paragraph separator).
   */
  predicate IsJsSpace(c: char) {
    c == '\t' || c == '\n' || c == '\U{000B}' || c == '\U{000C}' || c == '\r' || c == ' '
    || c == '\U{00A0}' || c == '\U{1680}' || ('\U{2000}' <= c <= '\U{200A}')
    || c == '\U{2028}' || c == '\U{2029}' || c == '\U{202F}' || c == '\U{205F}'
    || c == '\U{3000}' || c == '\U{FEFF}'
  }

  /** The characters Java's `String.trim` removes: every code point up to U+0020. */
  predicate IsJavaSpace(c: char) {
    c <= ' '
  }

  /** `s` without its leading characters of kind `ws`. */
  function TrimStart(s: string, ws: char -> bool): (r: string)
    ensures |r| <= |s| && r == s[|s| - |r|..]
    ensures forall k :: 0 <= k < |s| - |r| ==> ws(s[k])
    ensures r != [] ==> !ws(r[0])
  {
    if s != [] && ws(s[0]) then TrimStart(s[1..], ws) else s
  }

  /** `s` without its trailing characters of kind `ws`. */
  function TrimEnd(s: string, ws: char -> bool): (r: string)
    ensures |r| <= |s| && r == s[..|r|]
    ensures forall k :: |r| <= k < |s| ==> ws(s[k])
    ensures r != [] ==> !ws(r[|r| - 1])
  {
    if s != [] && ws(s[|s| - 1]) then TrimEnd(s[..|s| - 1], ws) else s
  }

  /** `s` without leading and trailing characters of kind `ws`. */
  function Trim(s: string, ws: char -> bool): string {
    TrimEnd(TrimStart(s, ws), ws)
  }

  /** JavaScript `s.trim()`. */
  function JsTrim(s: string): string {
    Trim(s, IsJsSpace)
  }

  /** Java `s.trim()`. */
  function JavaTrim(s: string): string {
    Trim(s, IsJavaSpace)
  }

  /** `s` neither starts nor ends with a character of kind `ws`. */
  predicate IsTrimmed(s: string, ws: char -> bool) {
    s != [] ==> !ws(s[0]) && !ws(s[|s| - 1])
  }

  /** Trimming leaves a string that neither starts nor ends with `ws`. */
  lemma TrimTrimmed(s: string, ws: char -> bool)
    ensures IsTrimmed(Trim(s, ws), ws)
  {
    var a := TrimStart(s, ws);
    var r := TrimEnd(a, ws);
    if r != [] {
      assert r[0] == a[0];
    }
  }

  /** Trimming keeps a contiguous slice of the input. */
  lemma TrimSlice(s: string, ws: char -> bool)
    ensures exists lo: nat, hi: nat :: lo <= hi <= |s| && Trim(s, ws) == s[lo..hi]
  {
    var a := TrimStart(s, ws);
    var r := TrimEnd(a, ws);
    var lo := |s| - |a|;
    assert r == s[lo..lo + |r|];
  }

  /** Trimming leaves nothing exactly when every character is of kind `ws`. */
  lemma TrimEmptyIff(s: string, ws: char -> bool)
    ensures Trim(s, ws) == [] <==> forall k :: 0 <= k < |s| ==> ws(s[k])
  {
    var a := TrimStart(s, ws);
    if a != [] {
      assert TrimEnd(a, ws) != [] by {
        assert !ws(a[0]);
      }
    }
  }

  /** Trimming adds no character: one absent from the input is absent from its trim. */
  lemma TrimKeepsOut(s: string, ws: char -> bool, c: char)
    ensures c !in s ==> c !in Trim(s, ws)
  {
    var a := TrimStart(s, ws);
    var r := TrimEnd(a, ws);
    forall k | 0 <= k < |r| ensures r[k] == s[|s| - |a| + k] {
      assert r[k] == a[k];
    }
  }

  /** A trimmed string is its own trim. */
  lemma TrimOfTrimmed(s: string, ws: char -> bool)
    requires IsTrimmed(s, ws)
    ensures Trim(s, ws) == s
  {
  }

  /** Trimming twice is trimming once. */
  lemma TrimIdempotent(s: string, ws: char -> bool)
    ensures Trim(Trim(s, ws), ws) == Trim(s, ws)
  {
    TrimTrimmed(s, ws);
    TrimOfTrimmed(Trim(s, ws), ws);
  }

  /** Trimming a string with extra whitespace in front gives the trim of the string. */
  lemma {:induction false} TrimStartSpace(sp: string, s: string, ws: char -> bool)
    requires forall k :: 0 <= k < |sp| ==> ws(sp[k])
    ensures TrimStart(sp + s, ws) == TrimStart(s, ws)
  {
    if sp == [] {
      assert sp + s == s;
    } else {
      assert (sp + s)[0] == sp[0];
      assert (sp + s)[1..] == sp[1..] + s;
      TrimStartSpace(sp[1..], s, ws);
    }
  }

  /** A string is blank, in JavaScript's sense, when `trim()` leaves nothing. */
  predicate IsBlank(s: string) {
    JsTrim(s) == []
  }

  lemma BlankIffAllSpace(s: string)
    ensures IsBlank(s) <==> forall k :: 0 <= k < |s| ==> IsJsSpace(s[k])
  {
    TrimEmptyIff(s, IsJsSpace);
  }

  // ---------------------------------------------------------------------
  // split and join

  /** JavaScript `s.split(d)` for a one-character separator `d`. */
  function Split(s: string, d: char): (r: seq<string>)
    ensures |r| >= 1
    ensures forall k :: 0 <= k < |r| ==> d !in r[k]
  {
    if s == [] then [""]
    else
      var rest := Split(s[1..], d);
      if s[0] == d then [""] + rest else [[s[0]] + rest[0]] + rest[1..]
  }

  /** A string without the separator splits into itself. */
  lemma {:induction false} SplitNoSeparator(s: string, d: char)
    requires d !in s
    ensures Split(s, d) == [s]
  {
    if s != [] {
      assert d !in s[1..];
      SplitNoSeparator(s[1..], d);
      assert [s[0]] + s[1..] == s;
    }
  }

  /** Splitting `a + [d] + b`, where `a` has no separator, peels off `a`. */
  lemma {:induction false} SplitAtSeparator(a: string, b: string, d: char)
    requires d !in a
    ensures Split(a + [d] + b, d) == [a] + Split(b, d)
  {
    if a == [] {
      assert a + [d] + b == [d] + b;
      assert ([d] + b)[1..] == b;
    } else {
      assert (a + [d] + b)[1..] == a[1..] + [d] + b;
      assert d !in a[1..];
      SplitAtSeparator(a[1..], b, d);
      assert [a[0]] + a[1..] == a;
    }
  }

  /** JavaScript `parts.join(sep)`. */
  function Join(parts: seq<string>, sep: string): string {
    if |parts| == 0 then ""
    else if |parts| == 1 then parts[0]
    else parts[0] + sep + Join(parts[1..], sep)
  }

  /** Joining the empty list gives the empty string; a one-element list gives that element. */
  lemma JoinSmall(parts: seq<string>, sep: string)
    ensures |parts| == 0 ==> Join(parts, sep) == ""
    ensures |parts| == 1 ==> Join(parts, sep) == parts[0]
  {
  }

  /** The join is empty only when every part is and, with a non-empty separator, there is at most one part. */
  lemma {:induction false} JoinEmpty(parts: seq<string>, sep: string)
    requires sep != ""
    ensures Join(parts, sep) == "" <==> |parts| == 0 || (|parts| == 1 && parts[0] == "")
  {
    if |parts| > 1 {
      assert |Join(parts, sep)| >= |sep|;
    }
  }

  /** Every part occurs in the join. */
  lemma {:induction false} JoinContainsParts(parts: seq<string>, sep: string, k: nat)
    requires k < |parts|
    ensures Contains(Join(parts, sep), parts[k])
  {
    if |parts| == 1 {
      assert ContainsAt(parts[0], parts[0], 0);
    } else if k == 0 {
      assert ContainsAt(Join(parts, sep), parts[0], 0);
    } else {
      JoinContainsParts(parts[1..], sep, k - 1);
      ContainsInConcat(parts[0] + sep, Join(parts[1..], sep), parts[k]);
    }
  }
}
