/**
 * JSON values and `JSON.parse` as a partial function from text to values.
 *
 * The parser follows the JSON grammar of ECMA-404 (the one `JSON.parse`
 * accepts): insignificant whitespace is space, tab, line feed and carriage
 * return; literals `true`, `false`, `null`; numbers with an optional minus
 * sign, no leading zeros, an optional fraction and exponent; strings with the
 * eight short escapes and `\uXXXX`. Numbers are kept as their lexeme, so no
 * floating point is involved.
 */
module Json {
  import opened Wrappers
  import Text

  datatype JsonValue =
    | JNull
    | JBool(b: bool)
    | JNumber(lexeme: string)
    | JString(text: string)
    | JArray(items: seq<JsonValue>)
    | JObject(members: seq<(string, JsonValue)>)

  /** The outcome of parsing a prefix of the input: a value and the index just after it. */
  datatype Parsed<T> = Fail | Done(value: T, next: nat)

  predicate IsJsonSpace(c: char) {
    c == ' ' || c == '\t' || c == '\n' || c == '\r'
  }

  predicate IsDigit(c: char) {
    '0' <= c <= '9'
  }

  /** The first index at or after `i` that is not insignificant whitespace. */
  function SkipSpace(s: string, i: nat): (j: nat)
    requires i <= |s|
    ensures i <= j <= |s|
    ensures j == |s| || !IsJsonSpace(s[j])
    decreases |s| - i
  {
    if i < |s| && IsJsonSpace(s[i]) then SkipSpace(s, i + 1) else i
  }

  /** The first index at or after `i` that is not a decimal digit. */
  function SkipDigits(s: string, i: nat): (j: nat)
    requires i <= |s|
    ensures i <= j <= |s|
    ensures forall k :: i <= k < j ==> IsDigit(s[k])
    ensures j == |s| || !IsDigit(s[j])
    decreases |s| - i
  {
    if i < |s| && IsDigit(s[i]) then SkipDigits(s, i + 1) else i
  }

  function HexDigit(c: char): (r: int)
    ensures -1 <= r < 16
  {
    if '0' <= c <= '9' then c as int - '0' as int
    else if 'a' <= c <= 'f' then c as int - 'a' as int + 10
    else if 'A' <= c <= 'F' then c as int - 'A' as int + 10
    else -1
  }

  /** The code unit written as four hex digits at `i`. */
  function Hex4(s: string, i: nat): (r: Parsed<int>)
    requires i <= |s|
    ensures r.Done? ==> r.next == i + 4 <= |s| && 0 <= r.value < 0x1_0000
  {
    if i + 4 <= |s| then
      var a, b, c, d := HexDigit(s[i]), HexDigit(s[i + 1]), HexDigit(s[i + 2]), HexDigit(s[i + 3]);
      if a < 0 || b < 0 || c < 0 || d < 0 then Fail
      else Done(((a * 16 + b) * 16 + c) * 16 + d, i + 4)
    else Fail
  }

  /** The character denoted by the escape sequence whose letter is at `i`. */
  function Escape(s: string, i: nat): (r: Parsed<char>)
    requires i <= |s|
    ensures r.Done? ==> i < r.next <= |s|
  {
    if i == |s| then Fail
    else
      var e := s[i];
      if e == '"' then Done('"', i + 1)
      else if e == '\\' then Done('\\', i + 1)
      else if e == '/' then Done('/', i + 1)
      else if e == 'b' then Done('\U{0008}', i + 1)
      else if e == 'f' then Done('\U{000C}', i + 1)
      else if e == 'n' then Done('\n', i + 1)
      else if e == 'r' then Done('\r', i + 1)
      else if e == 't' then Done('\t', i + 1)
      else if e == 'u' then
        match Hex4(s, i + 1)
        case Fail => Fail
        case Done(hi, j) =>
          if hi < 0xD800 || 0xE000 <= hi then Done(hi as char, j)
          else if hi < 0xDC00 && j + 2 <= |s| && s[j] == '\\' && s[j + 1] == 'u' then
            match Hex4(s, j + 2)
            case Fail => Fail
            case Done(lo, k) =>
              if 0xDC00 <= lo < 0xE000 then
                Done((0x1_0000 + (hi - 0xD800) * 0x400 + (lo - 0xDC00)) as char, k)
              else Fail
          else Fail
      else Fail
  }

  /** The rest of a string literal from index `i` (after the opening quote), appended to `acc`. */
  function ParseChars(s: string, i: nat, acc: string): (r: Parsed<string>)
    requires i <= |s|
    ensures r.Done? ==> i < r.next <= |s|
    decreases |s| - i
  {
    if i == |s| then Fail
    else if s[i] == '"' then Done(acc, i + 1)
    else if s[i] == '\\' then
      match Escape(s, i + 1)
      case Fail => Fail
      case Done(c, j) => ParseChars(s, j, acc + [c])
    else if s[i] < ' ' then Fail
    else ParseChars(s, i + 1, acc + [s[i]])
  }

  /** A number lexeme starting at `i`. */
  function ParseNumber(s: string, i: nat): (r: Parsed<JsonValue>)
    requires i <= |s|
    ensures r.Done? ==> i < r.next <= |s| && r.value == JNumber(s[i..r.next])
  {
    var a := if i < |s| && s[i] == '-' then i + 1 else i;
    if a == |s| || !IsDigit(s[a]) then Fail
    else
      var b := if s[a] == '0' then a + 1 else SkipDigits(s, a);
      if b < |s| && s[b] == '.' && (b + 1 == |s| || !IsDigit(s[b + 1])) then Fail
      else
        var c := if b < |s| && s[b] == '.' then SkipDigits(s, b + 1) else b;
        if c < |s| && (s[c] == 'e' || s[c] == 'E') then
          var d := if c + 1 < |s| && (s[c + 1] == '+' || s[c + 1] == '-') then c + 2 else c + 1;
          if d < |s| && IsDigit(s[d]) then
            var e := SkipDigits(s, d);
            Done(JNumber(s[i..e]), e)
          else Fail
        else Done(JNumber(s[i..c]), c)
  }

  /** The literal `word`, standing for `v`, at index `i`. */
  function ParseLiteral(s: string, i: nat, word: string, v: JsonValue): (r: Parsed<JsonValue>)
    requires i <= |s| && word != ""
    ensures r.Done? ==> i < r.next <= |s|
  {
    if i + |word| <= |s| && s[i..i + |word|] == word then Done(v, i + |word|) else Fail
  }

  /** A JSON value starting exactly at index `i`. */
  function ParseValue(s: string, i: nat): (r: Parsed<JsonValue>)
    requires i <= |s|
    ensures r.Done? ==> i < r.next <= |s|
    decreases |s| - i, 0
  {
    if i == |s| then Fail
    else if s[i] == '{' then ParseObject(s, i + 1)
    else if s[i] == '[' then ParseArray(s, i + 1)
    else if s[i] == '"' then
      match ParseChars(s, i + 1, "")
      case Fail => Fail
      case Done(t, j) => Done(JString(t), j)
    else if s[i] == 't' then ParseLiteral(s, i, "true", JBool(true))
    else if s[i] == 'f' then ParseLiteral(s, i, "false", JBool(false))
    else if s[i] == 'n' then ParseLiteral(s, i, "null", JNull)
    else if s[i] == '-' || IsDigit(s[i]) then ParseNumber(s, i)
    else Fail
  }

  /** The rest of an array from index `i` (after the opening bracket). */
  function ParseArray(s: string, i: nat): (r: Parsed<JsonValue>)
    requires i <= |s|
    ensures r.Done? ==> i < r.next <= |s|
    decreases |s| - i, 2
  {
    var j := SkipSpace(s, i);
    if j < |s| && s[j] == ']' then Done(JArray([]), j + 1)
    else ParseItems(s, j, [])
  }

  /** Array elements from index `i`, after the elements `acc` already read. */
  function ParseItems(s: string, i: nat, acc: seq<JsonValue>): (r: Parsed<JsonValue>)
    requires i <= |s|
    ensures r.Done? ==> i < r.next <= |s|
    decreases |s| - i, 1
  {
    match ParseValue(s, i)
    case Fail => Fail
    case Done(v, j) =>
      var k := SkipSpace(s, j);
      if k < |s| && s[k] == ',' then ParseItems(s, SkipSpace(s, k + 1), acc + [v])
      else if k < |s| && s[k] == ']' then Done(JArray(acc + [v]), k + 1)
      else Fail
  }

  /** No two members of an object have the same key. */
  predicate DistinctKeys(ms: seq<(string, JsonValue)>) {
    forall i, j :: 0 <= i < j < |ms| ==> ms[i].0 != ms[j].0
  }

  /**
   * Defining the member `key` as `JSON.parse` does: a key already present
   * keeps its place and takes the new value (the last one read wins); a new
   * key goes at the end.
   */
  function Put(ms: seq<(string, JsonValue)>, key: string, v: JsonValue): (r: seq<(string, JsonValue)>)
    ensures exists i :: 0 <= i < |r| && r[i] == (key, v)
    ensures |r| == |ms| || r == ms + [(key, v)]
    ensures forall i :: 0 <= i < |ms| ==> r[i].0 == ms[i].0
    ensures forall i :: 0 <= i < |ms| && ms[i].0 != key ==> r[i] == ms[i]
    ensures (forall i :: 0 <= i < |ms| ==> ms[i].0 != key) ==> r == ms + [(key, v)]
    ensures DistinctKeys(ms) ==> DistinctKeys(r)
  {
    match KeyIndex(ms, key)
    case None =>
      var r := ms + [(key, v)];
      assert r[|ms|] == (key, v);
      r
    case Some(k) =>
      var r := ms[k := (key, v)];
      assert r[k] == (key, v);
      r
  }

  /** Where `key` is among the members, if it is. */
  function KeyIndex(ms: seq<(string, JsonValue)>, key: string): (r: Option<nat>)
    ensures r.Some? ==> r.value < |ms| && ms[r.value].0 == key
    ensures r.None? ==> forall i :: 0 <= i < |ms| ==> ms[i].0 != key
  {
    if ms == [] then None
    else if ms[0].0 == key then Some(0)
    else match KeyIndex(ms[1..], key)
      case None => None
      case Some(k) => Some(k + 1)
  }

  /** The rest of an object from index `i` (after the opening brace). */
  function ParseObject(s: string, i: nat): (r: Parsed<JsonValue>)
    requires i <= |s|
    ensures r.Done? ==> i < r.next <= |s|
    ensures r.Done? ==> r.value.JObject? && DistinctKeys(r.value.members)
    decreases |s| - i, 2
  {
    var j := SkipSpace(s, i);
    if j < |s| && s[j] == '}' then Done(JObject([]), j + 1)
    else ParseMembers(s, j, [])
  }

  /** Object members from index `i`, after the members `acc` already read; a repeated key keeps its last value. */
  function ParseMembers(s: string, i: nat, acc: seq<(string, JsonValue)>): (r: Parsed<JsonValue>)
    requires i <= |s|
    ensures r.Done? ==> i < r.next <= |s|
    ensures r.Done? ==> r.value.JObject? && (DistinctKeys(acc) ==> DistinctKeys(r.value.members))
    decreases |s| - i, 1
  {
    if i < |s| && s[i] == '"' then
      match ParseChars(s, i + 1, "")
      case Fail => Fail
      case Done(key, j) =>
        var k := SkipSpace(s, j);
        if k < |s| && s[k] == ':' then
          match ParseValue(s, SkipSpace(s, k + 1))
          case Fail => Fail
          case Done(v, n) =>
            var p := SkipSpace(s, n);
            if p < |s| && s[p] == ',' then ParseMembers(s, SkipSpace(s, p + 1), Put(acc, key, v))
            else if p < |s| && s[p] == '}' then Done(JObject(Put(acc, key, v)), p + 1)
            else Fail
        else Fail
    else Fail
  }

  /** `JSON.parse(text)`: `None` where it throws a SyntaxError. */
  function Parse(text: string): Option<JsonValue> {
    match ParseValue(text, SkipSpace(text, 0))
    case Fail => None
    case Done(v, j) => if SkipSpace(text, j) == |text| then Some(v) else None
  }

  /** Whether a value is truthy in JavaScript (what `v || other` tests). */
  predicate Truthy(v: JsonValue) {
    match v
    case JNull => false
    case JBool(b) => b
    case JNumber(lexeme) => !ZeroMantissa(lexeme)
    case JString(t) => t != ""
    case JArray(_) => true
    case JObject(_) => true
  }

  /** `v || d` for a request field that holds a JSON value or is absent. */
  function OrElse(v: Option<JsonValue>, d: JsonValue): (r: JsonValue)
    ensures v.Some? && Truthy(v.value) ==> r == v.value
    ensures !(v.Some? && Truthy(v.value)) ==> r == d
  {
    if v.Some? && Truthy(v.value) then v.value else d
  }

  /** A number lexeme denotes zero when no digit before its exponent is non-zero. */
  predicate ZeroMantissa(lexeme: string) {
    lexeme == [] || lexeme[0] == 'e' || lexeme[0] == 'E'
    || (!('1' <= lexeme[0] <= '9') && ZeroMantissa(lexeme[1..]))
  }
  // ---------------------------------------------------------------------
  // Facts about Parse

  /** A text whose first significant character is a backtick (a code fence) is rejected. */
  lemma BacktickRejected(text: string)
    requires SkipSpace(text, 0) < |text| && text[SkipSpace(text, 0)] == '`'
    ensures Parse(text) == None
  {
  }

  /** A character that stands for itself inside a string literal. */
  predicate IsPlainChar(c: char) {
    c != '"' && c != '\\' && c >= ' '
  }

  predicate IsPlain(t: string) {
    forall k :: 0 <= k < |t| ==> IsPlainChar(t[k])
  }

  /** `w` occurs in `s` at index `i`. */
  predicate At(s: string, i: nat, w: string) {
    i + |w| <= |s| && forall k :: 0 <= k < |w| ==> s[i + k] == w[k]
  }

  lemma AtSelf(s: string)
    ensures At(s, 0, s)
  {
    forall k | 0 <= k < |s| ensures s[0 + k] == s[k] {
    }
  }

  lemma AtHead(s: string, i: nat, w: string)
    requires At(s, i, w) && w != []
    ensures s[i] == w[0] && At(s, i + 1, w[1..])
  {
    assert s[i + 0] == w[0];
    forall k | 0 <= k < |w| - 1 ensures s[i + 1 + k] == w[1..][k] {
      assert s[i + (k + 1)] == w[k + 1];
    }
  }

  lemma AtConcat(s: string, i: nat, a: string, b: string)
    requires At(s, i, a + b)
    ensures At(s, i, a) && At(s, i + |a|, b)
  {
    forall k | 0 <= k < |a| ensures s[i + k] == a[k] {
      assert (a + b)[k] == a[k];
    }
    forall k | 0 <= k < |b| ensures s[i + |a| + k] == b[k] {
      assert s[i + (|a| + k)] == (a + b)[|a| + k] == b[k];
    }
  }

  /** Plain characters followed by a quote are read back as they are. */
  lemma {:induction false} ParsePlainChars(s: string, i: nat, acc: string, t: string)
    requires IsPlain(t) && At(s, i, t + "\"")
    ensures ParseChars(s, i, acc) == Done(acc + t, i + |t| + 1)
    decreases |t|
  {
    AtHead(s, i, t + "\"");
    if t == [] {
      assert s[i] == '"';
      assert acc + t == acc;
    } else {
      assert s[i] == t[0];
      assert (t + "\"")[1..] == t[1..] + "\"";
      ParsePlainChars(s, i + 1, acc + [t[0]], t[1..]);
      assert acc + [t[0]] + t[1..] == acc + t;
    }
  }

  /** A string literal without escapes, as `JSON.stringify` writes one. */
  function Quote(t: string): string {
    "\"" + t + "\""
  }

  /** The elements of a non-empty compact array of strings, with the closing bracket. */
  function RenderItems(names: seq<string>): string
    requires names != []
    decreases |names|, 1
  {
    Quote(names[0]) + RenderTail(names)
  }

  /** What follows the first element: the closing bracket, or a comma and the other elements. */
  function RenderTail(names: seq<string>): string
    requires names != []
    decreases |names|, 0
  {
    if |names| == 1 then "]" else "," + RenderItems(names[1..])
  }

  /** The compact text of an array of strings, as `JSON.stringify` writes it: `["a","b"]`. */
  function RenderStrings(names: seq<string>): string {
    if names == [] then "[]" else "[" + RenderItems(names)
  }

  function Strings(names: seq<string>): (r: seq<JsonValue>)
    ensures |r| == |names|
    ensures forall k :: 0 <= k < |names| ==> r[k] == JString(names[k])
  {
    if names == [] then [] else [JString(names[0])] + Strings(names[1..])
  }

  lemma ValueAtQuote(s: string, i: nat, n: string)
    requires IsPlain(n) && At(s, i, Quote(n))
    ensures ParseValue(s, i) == Done(JString(n), i + |n| + 2)
  {
    AtHead(s, i, Quote(n));
    assert Quote(n)[1..] == n + "\"";
    ParsePlainChars(s, i + 1, "", n);
    assert "" + n == n;
  }

  lemma ItemsNext(s: string, i: nat, acc: seq<JsonValue>, v: JsonValue, j: nat)
    requires i <= |s| && ParseValue(s, i) == Done(v, j)
    requires j + 1 < |s| && s[j] == ',' && s[j + 1] == '"'
    ensures ParseItems(s, i, acc) == ParseItems(s, j + 1, acc + [v])
  {
    assert SkipSpace(s, j) == j;
    assert SkipSpace(s, j + 1) == j + 1;
  }

  lemma ItemsLast(s: string, i: nat, acc: seq<JsonValue>, v: JsonValue, j: nat)
    requires i <= |s| && ParseValue(s, i) == Done(v, j)
    requires j < |s| && s[j] == ']'
    ensures ParseItems(s, i, acc) == Done(JArray(acc + [v]), j + 1)
  {
    assert SkipSpace(s, j) == j;
  }

  /** A rendered list of items is a quoted name followed by its tail. */
  lemma RenderedItemsShape(s: string, i: nat, names: seq<string>)
    requires names != [] && At(s, i, RenderItems(names))
    ensures At(s, i, Quote(names[0])) && At(s, i + |names[0]| + 2, RenderTail(names))
    ensures |RenderItems(names)| == |names[0]| + 2 + |RenderTail(names)|
  {
    AtConcat(s, i, Quote(names[0]), RenderTail(names));
  }

  lemma RenderItemsStart(names: seq<string>)
    requires names != []
    ensures RenderItems(names) != [] && RenderItems(names)[0] == '"'
  {
    assert Quote(names[0])[0] == '"';
  }

  /** The elements of a rendered array of plain strings are read back one by one. */
  lemma {:induction false} ParseRenderedItems(s: string, i: nat, acc: seq<JsonValue>, names: seq<string>)
    requires names != [] && forall k :: 0 <= k < |names| ==> IsPlain(names[k])
    requires At(s, i, RenderItems(names))
    ensures ParseItems(s, i, acc) == Done(JArray(acc + Strings(names)), i + |RenderItems(names)|)
    decreases |names|, 1
  {
    RenderedItemsShape(s, i, names);
    ValueAtQuote(s, i, names[0]);
    if |names| == 1 {
      ParseLastItem(s, i, acc, names);
    } else {
      ParseNextItems(s, i, acc, names);
    }
  }

  lemma ParseLastItem(s: string, i: nat, acc: seq<JsonValue>, names: seq<string>)
    requires |names| == 1
    requires i <= |s| && ParseValue(s, i) == Done(JString(names[0]), i + |names[0]| + 2)
    requires At(s, i + |names[0]| + 2, RenderTail(names))
    ensures ParseItems(s, i, acc) == Done(JArray(acc + Strings(names)), i + |names[0]| + 3)
  {
    var j := i + |names[0]| + 2;
    AtHead(s, j, "]");
    ItemsLast(s, i, acc, JString(names[0]), j);
    assert Strings(names) == [JString(names[0])];
  }

  lemma {:induction false} ParseNextItems(s: string, i: nat, acc: seq<JsonValue>, names: seq<string>)
    requires |names| > 1 && forall k :: 0 <= k < |names| ==> IsPlain(names[k])
    requires i <= |s| && ParseValue(s, i) == Done(JString(names[0]), i + |names[0]| + 2)
    requires At(s, i + |names[0]| + 2, RenderTail(names))
    ensures ParseItems(s, i, acc) == Done(JArray(acc + Strings(names)), i + |names[0]| + 2 + |RenderTail(names)|)
    decreases |names|, 0
  {
    var n := names[0];
    var j := i + |n| + 2;
    var more := RenderItems(names[1..]);
    AtHead(s, j, "," + more);
    assert ("," + more)[1..] == more;
    RenderItemsStart(names[1..]);
    AtHead(s, j + 1, more);
    ItemsNext(s, i, acc, JString(n), j);
    assert forall k :: 0 <= k < |names[1..]| ==> IsPlain(names[1..][k]);
    ParseRenderedItems(s, j + 1, acc + [JString(n)], names[1..]);
    assert Strings(names) == [JString(n)] + Strings(names[1..]);
    assert acc + [JString(n)] + Strings(names[1..]) == acc + Strings(names);
  }

  lemma ParseWhole(s: string, v: JsonValue)
    requires s != [] && !IsJsonSpace(s[0]) && ParseValue(s, 0) == Done(v, |s|)
    ensures Parse(s) == Some(v)
  {
    assert SkipSpace(s, 0) == 0;
  }

  lemma ArrayOfItems(s: string, i: nat)
    requires i < |s| && s[i] == '"'
    ensures ParseArray(s, i) == ParseItems(s, i, [])
  {
    assert SkipSpace(s, i) == i;
  }

  lemma ValueOfArray(s: string)
    requires s != [] && s[0] == '['
    ensures ParseValue(s, 0) == ParseArray(s, 1)
  {
  }

  /** A reply that is exactly a compact array of plain strings parses to that array. */
  lemma ParseRenderedStrings(names: seq<string>)
    requires forall k :: 0 <= k < |names| ==> IsPlain(names[k])
    ensures Parse(RenderStrings(names)) == Some(JArray(Strings(names)))
  {
    var s := RenderStrings(names);
    ParseRenderedValue(names, s);
    ParseWhole(s, JArray(Strings(names)));
  }

  lemma ParseRenderedValue(names: seq<string>, s: string)
    requires forall k :: 0 <= k < |names| ==> IsPlain(names[k])
    requires s == RenderStrings(names)
    ensures s != [] && s[0] == '['
    ensures ParseValue(s, 0) == Done(JArray(Strings(names)), |s|)
  {
    if names == [] {
      ParseEmptyArray();
    } else {
      var body := RenderItems(names);
      AtSelf(s);
      AtConcat(s, 0, "[", body);
      AtHead(s, 0, "[");
      ParseNonEmptyArray(s, names);
    }
  }

  lemma ParseEmptyArray()
    ensures ParseValue("[]", 0) == Done(JArray([]), 2)
  {
    assert SkipSpace("[]", 1) == 1;
  }

  /** A repeated key keeps only its last value: `{"a":1,"a":2}` parses to `{a: 2}`. */
  lemma DuplicateKeyLastWins()
    ensures Parse("{\"a\":1,\"a\":2}") == Some(JObject([("a", JNumber("2"))]))
  {
    var s := "{\"a\":1,\"a\":2}";
    DuplicateObject(s);
    assert SkipSpace(s, 0) == 0;
    assert SkipSpace(s, 13) == 13;
  }

  /** The object value that `{"a":1,"a":2}` starts with ends at its last character. */
  lemma DuplicateObject(s: string)
    requires s == "{\"a\":1,\"a\":2}"
    ensures ParseValue(s, 0) == Done(JObject([("a", JNumber("2"))]), 13)
  {
    DuplicateFirstMember(s);
    DuplicateLastMember(s);
    assert SkipSpace(s, 1) == 1;
    assert ParseObject(s, 1) == ParseMembers(s, 1, []);
  }

  /** The first `"a":1,` of `{"a":1,"a":2}` records `a: 1` and moves on to the second key. */
  lemma DuplicateFirstMember(s: string)
    requires s == "{\"a\":1,\"a\":2}"
    ensures ParseMembers(s, 1, []) == ParseMembers(s, 7, [("a", JNumber("1"))])
  {
    assert IsPlain("a") by { assert IsPlainChar("a"[0]); }
    assert At(s, 1, Quote("a") + ":");
    DigitValue(s, 5);
    assert [s[5]] == "1";
    assert Put([], "a", JNumber("1")) == [("a", JNumber("1"))];
    MemberStep(s, 1, [], "a", JNumber("1"), 6);
  }

  /** The second `"a":2}` of `{"a":1,"a":2}` replaces the value of `a` and closes the object. */
  lemma DuplicateLastMember(s: string)
    requires s == "{\"a\":1,\"a\":2}"
    ensures ParseMembers(s, 7, [("a", JNumber("1"))]) == Done(JObject([("a", JNumber("2"))]), 13)
  {
    assert IsPlain("a") by { assert IsPlainChar("a"[0]); }
    assert At(s, 7, Quote("a") + ":");
    DigitValue(s, 11);
    assert [s[11]] == "2";
    assert KeyIndex([("a", JNumber("1"))], "a") == Some(0);
    assert Put([("a", JNumber("1"))], "a", JNumber("2")) == [("a", JNumber("2"))];
    MemberStep(s, 7, [("a", JNumber("1"))], "a", JNumber("2"), 12);
  }

  /** A one-digit number that is not zero. */
  lemma DigitValue(s: string, i: nat)
    requires i + 1 < |s| && '1' <= s[i] <= '9'
    requires !IsDigit(s[i + 1]) && s[i + 1] != '.' && s[i + 1] != 'e' && s[i + 1] != 'E'
    ensures ParseValue(s, i) == Done(JNumber([s[i]]), i + 1)
  {
    assert SkipDigits(s, i + 1) == i + 1;
    assert SkipDigits(s, i) == i + 1;
    assert s[i..i + 1] == [s[i]];
  }

  /** One member `"key":value` at `i`, followed by `}` or by `,` and the next key. */
  lemma MemberStep(s: string, i: nat, acc: seq<(string, JsonValue)>, key: string, v: JsonValue, n: nat)
    requires IsPlain(key) && At(s, i, Quote(key) + ":")
    requires i + |key| + 3 < |s| && !IsJsonSpace(s[i + |key| + 3])
    requires ParseValue(s, i + |key| + 3) == Done(v, n)
    ensures n < |s| && s[n] == '}' ==> ParseMembers(s, i, acc) == Done(JObject(Put(acc, key, v)), n + 1)
    ensures n + 1 < |s| && s[n] == ',' && s[n + 1] == '"' ==>
      ParseMembers(s, i, acc) == ParseMembers(s, n + 1, Put(acc, key, v))
  {
    AtConcat(s, i, Quote(key), ":");
    AtHead(s, i, Quote(key));
    assert Quote(key)[1..] == key + "\"";
    ParsePlainChars(s, i + 1, "", key);
    assert "" + key == key;
    var c := i + |key| + 2;
    assert s[c] == ":"[0];
    assert SkipSpace(s, c) == c;
    assert SkipSpace(s, c + 1) == c + 1;
    if n < |s| && (s[n] == '}' || s[n] == ',') {
      assert SkipSpace(s, n) == n;
    }
    if n + 1 < |s| && s[n] == ',' && s[n + 1] == '"' {
      assert SkipSpace(s, n + 1) == n + 1;
    }
  }

  lemma ParseNonEmptyArray(s: string, names: seq<string>)
    requires names != [] && forall k :: 0 <= k < |names| ==> IsPlain(names[k])
    requires |s| == 1 + |RenderItems(names)| && s[0] == '[' && At(s, 1, RenderItems(names))
    ensures ParseValue(s, 0) == Done(JArray(Strings(names)), |s|)
  {
    RenderItemsStart(names);
    AtHead(s, 1, RenderItems(names));
    ValueOfArray(s);
    ArrayOfItems(s, 1);
    ParseRenderedItems(s, 1, [], names);
    assert [] + Strings(names) == Strings(names);
  }
}
