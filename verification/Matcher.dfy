/**
 * Payload qualifiers: a literal-substring test that stands in for reading a JSON field,
 * and the compact JSON encoding of the payloads it is applied to.
 */
module Matcher {
  type Fields = seq<(string, string)>

  /** Characters the encoder copies; the rest it escapes (section 7 of RFC 8259, and HTML-unsafe ones). */
  predicate Plain(c: char) {
    c >= ' ' && c != '"' && c != '\\' && c != '<' && c != '>' && c != '&' && c != '\U{2028}' && c != '\U{2029}'
  }

  predicate PlainText(s: string) { forall i | 0 <= i < |s| :: Plain(s[i]) }

  function HexDigit(n: nat): char
    requires n < 16
  {
    "0123456789abcdef"[n]
  }

  function Escape(c: char): string {
    if Plain(c) then [c]
    else if c == '"' then ['\\', '"']
    else if c == '\\' then ['\\', '\\']
    else if c == '\n' then ['\\', 'n']
    else if c == '\r' then ['\\', 'r']
    else if c == '\t' then ['\\', 't']
    else if c == '\U{8}' then ['\\', 'b']
    else if c == '\U{c}' then ['\\', 'f']
    else
      var n := c as int;
      ['\\', 'u', HexDigit(n / 4096 % 16), HexDigit(n / 256 % 16), HexDigit(n / 16 % 16), HexDigit(n % 16)]
  }

  function Encoded(s: string): string {
    if s == [] then [] else Escape(s[0]) + Encoded(s[1..])
  }

  function Head(k: string): string { ['"'] + k + ['"', ':', '"'] }

  function Field(f: (string, string)): string { Head(f.0) + Encoded(f.1) + ['"'] }

  /** The fields and the closing brace. */
  function Body(fs: Fields): string
    decreases |fs|, 1
  {
    if fs == [] then ['}'] else Field(fs[0]) + Tail(fs)
  }

  /** What follows the first field. */
  function Tail(fs: Fields): string
    requires fs != []
    decreases |fs|, 0
  {
    if |fs| == 1 then ['}'] else [','] + Body(fs[1..])
  }

  /** The compact encoding of a flat object with plain keys. */
  function Encode(fs: Fields): string { ['{'] + Body(fs) }

  predicate KeyChar(c: char) {
    'a' <= c <= 'z' || 'A' <= c <= 'Z' || '0' <= c <= '9' || c == '_'
  }

  predicate KeyText(k: string) { k != [] && forall i | 0 <= i < |k| :: KeyChar(k[i]) }

  ghost predicate WellFormed(fs: Fields) {
    forall i | 0 <= i < |fs| :: KeyText(fs[i].0)
  }

  ghost predicate DistinctKeys(fs: Fields) {
    forall i, j | 0 <= i < j < |fs| :: fs[i].0 != fs[j].0
  }

  function Needle(k: string, v: string): string { ['"'] + k + ['"', ':', '"'] + v + ['"'] }

  predicate OccursAt(text: string, needle: string, p: int) {
    0 <= p <= |text| - |needle| && text[p..p + |needle|] == needle
  }

  predicate Contains(text: string, needle: string) {
    exists p | 0 <= p <= |text| - |needle| :: OccursAt(text, needle, p)
  }

  /** The text of a pair, as a compact object holds it. */
  function PairText(k: string, v: string): string { "\"" + k + "\":\"" + v + "\"" }

  /** Somewhere within the text. */
  ghost predicate Within(text: string, part: string) {
    exists before, after :: text == before + part + after
  }

  lemma ContainsWithin(text: string, part: string)
    ensures Contains(text, part) <==> Within(text, part)
  {
    if Contains(text, part) {
      var p :| 0 <= p <= |text| - |part| && OccursAt(text, part, p);
      assert text == text[..p] + part + text[p + |part|..];
    }
    if Within(text, part) {
      var before, after :| text == before + part + after;
      assert OccursAt(text, part, |before|);
    }
  }

  lemma ContainsIff(text: string, k: string, v: string)
    ensures Contains(text, Needle(k, v)) <==> Within(text, PairText(k, v))
  {
    assert PairText(k, v) == Needle(k, v);
    ContainsWithin(text, PairText(k, v));
  }

  /** True when every required pair occurs literally; the scan stops at the first that does not. */
  method PayloadMatches(payload: string, required: map<string, string>) returns (ok: bool)
    ensures ok <==> forall k | k in required :: Contains(payload, Needle(k, required[k]))
    ensures ok <==> forall k | k in required :: Within(payload, "\"" + k + "\":\"" + required[k] + "\"")
  {
    forall k | k in required ensures Contains(payload, Needle(k, required[k])) <==> Within(payload, PairText(k, required[k])) {
      ContainsIff(payload, k, required[k]);
    }
    var rest := required.Keys;
    while rest != {}
      invariant rest <= required.Keys
      invariant forall k | k in required && k !in rest :: Contains(payload, Needle(k, required[k]))
      decreases rest
    {
      var k :| k in rest;
      if !Contains(payload, Needle(k, required[k])) { return false; }
      rest := rest - {k};
    }
    return true;
  }

  // ---------- the encoder ----------

  lemma EscapeShape(c: char)
    ensures Plain(c) ==> Escape(c) == [c]
    ensures !Plain(c) ==> |Escape(c)| >= 2 && Escape(c)[0] == '\\'
    ensures forall i | 0 <= i < |Escape(c)| && Escape(c)[i] == '"' :: i > 0 && Escape(c)[i - 1] == '\\'
  {}

  /** Inside an encoded value every quote follows a backslash. */
  lemma {:induction false} QuotesEscaped(s: string)
    ensures forall i | 0 <= i < |Encoded(s)| && Encoded(s)[i] == '"' :: i > 0 && Encoded(s)[i - 1] == '\\'
  {
    if s != [] {
      EscapeShape(s[0]);
      QuotesEscaped(s[1..]);
    }
  }

  predicate Prefix(a: string, b: string) { |a| <= |b| && b[..|a|] == a }

  lemma PrefixStep(c: char, a: string, d: char, b: string)
    ensures Prefix([c] + a, [d] + b) <==> c == d && Prefix(a, b)
  {
    if |a| <= |b| {
      assert ([d] + b)[..|a| + 1] == [d] + b[..|a|];
      if [d] + b[..|a|] == [c] + a {
        assert ([d] + b[..|a|])[1..] == ([c] + a)[1..];
      }
    }
  }

  /** A plain text with its closing quote starts an encoded value exactly when it is the value. */
  lemma {:induction false} PlainValueMatch(v: string, w: string, rest: string)
    requires PlainText(v)
    ensures Prefix(v + ['"'], Encoded(w) + ['"'] + rest) <==> v == w
  {
    hide Escape;
    var text := Encoded(w) + ['"'] + rest;
    if v == [] {
      if w != [] {
        EscapeShape(w[0]);
        assert text[0] != '"';
      }
    } else if w == [] {
      assert (v + ['"'])[0] == v[0] && text[0] == '"';
    } else {
      EscapeShape(w[0]);
      assert text[0] == Escape(w[0])[0];
      if Plain(w[0]) {
        var tail := Encoded(w[1..]) + ['"'] + rest;
        assert text == [w[0]] + tail;
        assert v + ['"'] == [v[0]] + (v[1..] + ['"']);
        PrefixStep(v[0], v[1..] + ['"'], w[0], tail);
        PlainValueMatch(v[1..], w[1..], rest);
        assert v == [v[0]] + v[1..] && w == [w[0]] + w[1..];
      } else {
        assert (v + ['"'])[0] == v[0] != '\\';
      }
    }
  }

  /** Leading backslashes double. */
  lemma {:induction false} BackslashesDouble(v: string, m: nat)
    requires m <= |v| && forall i | 0 <= i < m :: v[i] == '\\'
    ensures |Encoded(v)| >= 2 * m && forall i | 0 <= i < 2 * m :: Encoded(v)[i] == '\\'
  {
    if m > 0 {
      BackslashesDouble(v[1..], m - 1);
      assert Encoded(v) == ['\\', '\\'] + Encoded(v[1..]);
    }
  }

  lemma LeadingBackslash(v: string, rest: string)
    requires v != [] && v[0] == '\\'
    ensures !Prefix(v + ['"'], Encoded(v) + ['"'] + rest)
  {
    hide Encoded;
    var text := Encoded(v) + ['"'] + rest;
    var m := 1;
    while m < |v| && v[m] == '\\'
      invariant 1 <= m <= |v| && forall i | 0 <= i < m :: v[i] == '\\'
    {
      m := m + 1;
    }
    BackslashesDouble(v, m);
    assert text[m] == '\\' && (v + ['"'])[m] != '\\';
  }

  /** A text that needs escaping never occurs as its own encoded value. */
  lemma {:induction false} EscapedValueMismatch(v: string, rest: string)
    requires !PlainText(v)
    ensures !Prefix(v + ['"'], Encoded(v) + ['"'] + rest)
  {
    var text := Encoded(v) + ['"'] + rest;
    EscapeShape(v[0]);
    if Plain(v[0]) {
      assert v == [v[0]] + v[1..];
      EscapedValueMismatch(v[1..], rest);
      assert text == [v[0]] + (Encoded(v[1..]) + ['"'] + rest);
      assert v + ['"'] == [v[0]] + (v[1..] + ['"']);
      PrefixStep(v[0], v[1..] + ['"'], v[0], Encoded(v[1..]) + ['"'] + rest);
    } else if v[0] == '\\' {
      LeadingBackslash(v, rest);
    } else {
      assert text[0] == '\\' && (v + ['"'])[0] == v[0];
    }
  }

  /** The escapes, spelled out. */
  lemma EscapesSpelled()
    ensures Escape('"') == "\\\"" && Escape('\\') == "\\\\"
    ensures Escape('\n') == "\\n" && Escape('\r') == "\\r" && Escape('\t') == "\\t"
    ensures Escape('\U{8}') == "\\b" && Escape('\U{c}') == "\\f"
  {}

  lemma HtmlEscapesSpelled()
    ensures Escape('<') == "\\u003c" && Escape('>') == "\\u003e" && Escape('&') == "\\u0026"
  {}

  lemma LineEscapesSpelled()
    ensures Escape('\U{2028}') == "\\u2028" && Escape('\U{2029}') == "\\u2029"
  {}

  lemma ControlEscapeSpelled()
    ensures Escape('\U{1f}') == "\\u001f"
  {}

  lemma CopiedAsIs(c: char)
    ensures c >= ' ' && c !in {'"', '\\', '<', '>', '&', '\U{2028}', '\U{2029}'} <==> Escape(c) == [c]
  {
    EscapeShape(c);
    hide Escape;
  }

  function HexValue(c: char): nat {
    if '0' <= c <= '9' then (c - '0') as nat
    else if 'a' <= c <= 'f' then (c - 'a') as nat + 10
    else if 'A' <= c <= 'F' then (c - 'A') as nat + 10
    else 0
  }

  /** The character of a code unit; halves of surrogate pairs are no characters of their own. */
  function CharOf(n: nat): char {
    if n < 0xD800 || 0xE000 <= n < 0x10000 then n as char else '\U{FFFD}'
  }

  /** Reading a JSON string's content back (section 7 of RFC 8259). */
  function Decoded(s: string): string {
    if s == [] then []
    else if s[0] != '\\' || |s| == 1 then [s[0]] + Decoded(s[1..])
    else if s[1] == 'u' && |s| >= 6 then
      [CharOf(4096 * HexValue(s[2]) + 256 * HexValue(s[3]) + 16 * HexValue(s[4]) + HexValue(s[5]))] + Decoded(s[6..])
    else if s[1] == 'n' then ['\n'] + Decoded(s[2..])
    else if s[1] == 'r' then ['\r'] + Decoded(s[2..])
    else if s[1] == 't' then ['\t'] + Decoded(s[2..])
    else if s[1] == 'b' then ['\U{8}'] + Decoded(s[2..])
    else if s[1] == 'f' then ['\U{c}'] + Decoded(s[2..])
    else [s[1]] + Decoded(s[2..])
  }

  lemma HexDigitValue(n: nat)
    requires n < 16
    ensures HexValue(HexDigit(n)) == n
  {}

  lemma DigitsOf(n: nat)
    requires n < 0x10000
    ensures 4096 * (n / 4096 % 16) + 256 * (n / 256 % 16) + 16 * (n / 16 % 16) + n % 16 == n
  {
    var a, b, c := n / 16, n / 256, n / 4096;
    assert n == 16 * a + n % 16;
    assert b == a / 16 && a == 16 * b + a % 16;
    assert c == b / 16 && b == 16 * c + b % 16;
    assert c < 16 && c % 16 == c;
  }

  lemma DecodesHex(a: char, b: char, c: char, d: char, rest: string)
    ensures Decoded(['\\', 'u', a, b, c, d] + rest)
         == [CharOf(4096 * HexValue(a) + 256 * HexValue(b) + 16 * HexValue(c) + HexValue(d))] + Decoded(rest)
  {
    hide HexValue;
    hide CharOf;
    var s := ['\\', 'u', a, b, c, d] + rest;
    assert s[6..] == rest;
  }

  lemma DecodesPair(x: char, rest: string)
    requires x != 'u'
    ensures Decoded(['\\', x] + rest)
         == [if x == 'n' then '\n' else if x == 'r' then '\r' else if x == 't' then '\t' else if x == 'b' then '\U{8}'
             else if x == 'f' then '\U{c}' else x] + Decoded(rest)
  {
    hide HexValue;
    hide CharOf;
    var s := ['\\', x] + rest;
    assert s[2..] == rest;
  }

  lemma DecodesPlain(c: char, rest: string)
    requires c != '\\'
    ensures Decoded([c] + rest) == [c] + Decoded(rest)
  {
    assert ([c] + rest)[1..] == rest;
  }

  lemma DecodesOne(c: char, rest: string)
    ensures Decoded(Escape(c) + rest) == [c] + Decoded(rest)
  {
    hide Decoded;
    hide HexValue;
    hide HexDigit;
    if Plain(c) {
      DecodesPlain(c, rest);
    } else if |Escape(c)| == 2 {
      DecodesPair(Escape(c)[1], rest);
    } else {
      var n := c as int;
      DigitsOf(n);
      HexDigitValue(n / 4096 % 16);
      HexDigitValue(n / 256 % 16);
      HexDigitValue(n / 16 % 16);
      HexDigitValue(n % 16);
      DecodesHex(HexDigit(n / 4096 % 16), HexDigit(n / 256 % 16), HexDigit(n / 16 % 16), HexDigit(n % 16), rest);
    }
  }

  /** What is encoded reads back as it was, whatever it holds. */
  lemma {:induction false} DecodesBack(s: string)
    ensures Decoded(Encoded(s)) == s
  {
    if s != [] {
      DecodesOne(s[0], Encoded(s[1..]));
      DecodesBack(s[1..]);
    }
  }

  // ---------- where a key can occur ----------

  lemma FieldShape(key: string, w: string, tail: string)
    ensures var t, n, e := Field((key, w)) + tail, |key|, |Encoded(w)|;
      && |Field((key, w))| == n + e + 5 && |t| == n + e + 5 + |tail|
      && t[0] == '"' && t[n + 1] == '"' && t[n + 2] == ':' && t[n + 3] == '"' && t[n + 4 + e] == '"'
      && (forall i | 1 <= i <= n :: t[i] == key[i - 1])
      && (forall i | n + 4 <= i < n + 4 + e :: t[i] == Encoded(w)[i - n - 4])
      && (forall i | n + 5 + e <= i < |t| :: t[i] == tail[i - n - 5 - e])
  {
    hide Encoded;
    var f := Field((key, w));
    assert f == ['"'] + key + ['"', ':', '"'] + Encoded(w) + ['"'];
  }

  lemma HeadShape(text: string, k: string, p: nat)
    requires OccursAt(text, Head(k), p)
    ensures HeadAt(text, k, p)
  {}

  /** The key's head, character by character. */
  ghost predicate HeadAt(text: string, k: string, p: nat) {
    && p + |k| + 4 <= |text|
    && text[p] == '"' && text[p + |k| + 1] == '"' && text[p + |k| + 2] == ':' && text[p + |k| + 3] == '"'
    && forall i | p < i <= p + |k| :: text[i] == k[i - p - 1]
  }

  /** A key's head cannot start inside a field, whatever the field's value contains. */
  lemma HeadNotInsideField(key: string, w: string, tail: string, k: string, p: nat)
    requires KeyText(key) && KeyText(k) && tail != [] && tail[0] in {',', '}'}
    ensures HeadAt(Field((key, w)) + tail, k, p) ==> p > |Field((key, w))| || (p == 0 && k == key)
  {
    var t, n, e := Field((key, w)) + tail, |key|, |Encoded(w)|;
    FieldShape(key, w, tail);
    assert KeyChar(k[0]) && t[n + 5 + e] == tail[0];
    if p == 0 {
      SameKey(t, key, k);
    } else if p <= n {
      assert t[p] == key[p - 1] && KeyChar(key[p - 1]);
    } else if p == n + 1 || p == n + 4 + e {
      assert t[p + 1] == ':' || t[p + 1] == tail[0];
      assert t[p + 1] != k[0];
    } else if n + 3 <= p < n + 4 + e {
      HeadNotInValue(w, t, n + 4, k, p);
    }
  }

  lemma SameKey(t: string, key: string, k: string)
    requires KeyText(key) && KeyText(k)
    requires |key| + 1 < |t| && t[|key| + 1] == '"' && forall i | 1 <= i <= |key| :: t[i] == key[i - 1]
    ensures HeadAt(t, k, 0) ==> k == key
  {
    if |k| < |key| {
      assert KeyChar(key[|k|]) && t[|k| + 1] == key[|k|];
    } else if |k| > |key| {
      assert KeyChar(k[|key|]);
    } else {
      assert forall i | 0 <= i < |key| :: key[i] == t[i + 1];
      if HeadAt(t, k, 0) { assert forall i | 0 <= i < |k| :: k[i] == t[i + 1]; }
    }
  }

  /** The case of a head that would start at or after a value's opening quote. */
  lemma HeadNotInValue(w: string, t: string, start: nat, k: string, p: nat)
    requires KeyText(k) && start <= p + 1 && p < start + |Encoded(w)| && start + |Encoded(w)| + 1 < |t|
    requires forall i | start <= i < start + |Encoded(w)| :: t[i] == Encoded(w)[i - start]
    requires t[start + |Encoded(w)|] == '"' && t[start + |Encoded(w)| + 1] in {',', '}'}
    ensures !HeadAt(t, k, p)
  {
    hide Encoded;
    var q, close := p + |k| + 1, start + |Encoded(w)|;
    if q < close {
      QuoteInValue(w, t, start, q);
      assert KeyChar(k[|k| - 1]) && k[q - 1 - p - 1] == k[|k| - 1];
    } else if q > close {
      assert KeyChar(k[close - p - 1]);
    }
  }

  lemma QuoteInValue(w: string, t: string, start: nat, q: nat)
    requires start < q < start + |Encoded(w)| <= |t|
    requires forall i | start <= i < start + |Encoded(w)| :: t[i] == Encoded(w)[i - start]
    ensures t[q] == '"' ==> t[q - 1] == '\\'
  {
    QuotesEscaped(w);
    var i := q - start;
    assert t[q] == Encoded(w)[i] && t[q - 1] == Encoded(w)[i - 1];
  }

  /** Where the i-th field starts in the body. */
  function Offset(fs: Fields, i: nat): nat
    requires i <= |fs|
  {
    if i == 0 then 0 else |Field(fs[0])| + 1 + Offset(fs[1..], i - 1)
  }

  lemma SkipField(a: string, b: string, needle: string, n: nat)
    ensures OccursAt(a + b, needle, |a| + n) <==> OccursAt(b, needle, n)
  {
    if n + |needle| <= |b| { assert (a + b)[|a| + n..|a| + n + |needle|] == b[n..n + |needle|]; }
  }

  /** A key's head occurs only where a field with that key starts. */
  lemma {:induction false} HeadLocates(fs: Fields, k: string, p: nat)
    requires WellFormed(fs) && KeyText(k) && OccursAt(Body(fs), Head(k), p)
    ensures exists i :: 0 <= i < |fs| && fs[i].0 == k && p == Offset(fs, i)
    decreases fs
  {
    hide Encoded;
    HeadShape(Body(fs), k, p);
    if fs != [] {
      var f, tail, body := Field(fs[0]), Tail(fs), Body(fs);
      HeadNotInsideField(fs[0].0, fs[0].1, tail, k, p);
      if p == 0 {
        assert fs[0].0 == k && Offset(fs, 0) == 0;
      } else if |fs| > 1 {
        var skip := p - |f| - 1;
        SkipField(f + [','], Body(fs[1..]), Head(k), skip);
        assert body == f + [','] + Body(fs[1..]) by { Regroup([], f, [','], Body(fs[1..])); }
        HeadLocates(fs[1..], k, skip);
        var j :| 0 <= j < |fs[1..]| && fs[1..][j].0 == k && skip == Offset(fs[1..], j);
        assert fs[j + 1].0 == k && p == Offset(fs, j + 1);
      }
    }
  }

  /** What follows the i-th field. */
  function Following(fs: Fields, i: nat): string
    requires i < |fs|
  {
    if i == 0 then Tail(fs) else Following(fs[1..], i - 1)
  }

  /** From a field's start on, the body reads head, value, closing quote. */
  lemma {:induction false} BodyAt(fs: Fields, i: nat)
    requires i < |fs|
    ensures Offset(fs, i) <= |Body(fs)|
    ensures Body(fs)[Offset(fs, i)..] == Head(fs[i].0) + (Encoded(fs[i].1) + ['"'] + Following(fs, i))
    decreases i
  {
    hide Encoded;
    if i == 0 {
      Regroup(Head(fs[0].0), Encoded(fs[0].1), ['"'], Tail(fs));
    } else {
      var head, rest := Field(fs[0]) + [','], fs[1..];
      BodyAt(rest, i - 1);
      Regroup([], Field(fs[0]), [','], Body(rest));
      DropBoth(head, Body(rest), Offset(rest, i - 1));
    }
  }

  lemma Regroup(a: string, b: string, c: string, d: string)
    ensures (a + b + c) + d == a + (b + c + d)
    ensures [] + b + c == b + c && b + c + d == b + (c + d)
    ensures ((a + b + c) + d)[0..] == a + (b + c + d)
  {}

  lemma DropBoth(a: string, b: string, n: nat)
    requires n <= |b|
    ensures (a + b)[|a| + n..] == b[n..]
  {}

  lemma NeedleSplit(text: string, k: string, v: string, rest: string, p: nat)
    requires p <= |text| && text[p..] == Head(k) + rest
    ensures OccursAt(text, Needle(k, v), p) <==> Prefix(v + ['"'], rest)
  {
    assert Needle(k, v) == Head(k) + (v + ['"']);
    var h, u := Head(k), v + ['"'];
    if |u| <= |rest| {
      assert text[p..p + |h| + |u|] == text[p..][..|h| + |u|] == h + rest[..|u|];
      if h + rest[..|u|] == h + u { assert (h + rest[..|u|])[|h|..] == (h + u)[|h|..]; }
    }
  }

  lemma NeedleStartsWithHead(text: string, k: string, v: string, p: nat)
    requires OccursAt(text, Needle(k, v), p)
    ensures OccursAt(text, Head(k), p)
  {
    assert Needle(k, v)[..|Head(k)|] == Head(k);
    assert text[p..p + |Needle(k, v)|][..|Head(k)|] == text[p..p + |Head(k)|];
  }

  lemma NeedleInBody(fs: Fields, k: string, v: string, i: nat)
    requires i < |fs| && fs[i].0 == k
    ensures OccursAt(Body(fs), Needle(k, v), Offset(fs, i))
       <==> Prefix(v + ['"'], Encoded(fs[i].1) + ['"'] + Following(fs, i))
  {
    BodyAt(fs, i);
    NeedleSplit(Body(fs), k, v, Encoded(fs[i].1) + ['"'] + Following(fs, i), Offset(fs, i));
  }

  lemma ShiftBack(fs: Fields, n: string, p: nat)
    requires n != [] && n[0] == '"' && OccursAt(Encode(fs), n, p)
    ensures p > 0 && OccursAt(Body(fs), n, p - 1)
  {
    assert Encode(fs)[p] == Encode(fs)[p..p + |n|][0] == '"';
    assert Encode(fs)[p..p + |n|] == Body(fs)[p - 1..p - 1 + |n|];
  }

  lemma ShiftOn(fs: Fields, n: string, p: nat)
    requires OccursAt(Body(fs), n, p)
    ensures OccursAt(Encode(fs), n, p + 1)
  {
    assert Encode(fs)[p + 1..p + 1 + |n|] == Body(fs)[p..p + |n|];
  }

  /** A qualifier occurs in an encoding if and only if its text starts the value of a field with its key. */
  lemma OccursIff(fs: Fields, k: string, v: string)
    requires WellFormed(fs) && KeyText(k)
    ensures Contains(Encode(fs), Needle(k, v)) <==>
      (exists i :: 0 <= i < |fs| && fs[i].0 == k && Prefix(v + ['"'], Encoded(fs[i].1) + ['"'] + Following(fs, i)))
  {
    var n := Needle(k, v);
    if Contains(Encode(fs), n) {
      var p :| 0 <= p <= |Encode(fs)| - |n| && OccursAt(Encode(fs), n, p);
      ShiftBack(fs, n, p);
      NeedleStartsWithHead(Body(fs), k, v, p - 1);
      HeadLocates(fs, k, p - 1);
      var i :| 0 <= i < |fs| && fs[i].0 == k && p - 1 == Offset(fs, i);
      NeedleInBody(fs, k, v, i);
    }
    forall i | 0 <= i < |fs| && fs[i].0 == k && Prefix(v + ['"'], Encoded(fs[i].1) + ['"'] + Following(fs, i))
      ensures Contains(Encode(fs), n)
    {
      NeedleInBody(fs, k, v, i);
      ShiftOn(fs, n, Offset(fs, i));
    }
  }

  /**
   * Substring matching is exact: for every flat payload, whatever quotes, backslashes or
   * other text its values contain, a qualifier with a plain value occurs in the encoding
   * if and only if the payload has that key with that value.
   */
  lemma MatchIsExact(fs: Fields, k: string, v: string)
    requires WellFormed(fs) && KeyText(k) && PlainText(v)
    ensures Contains(Encode(fs), Needle(k, v)) <==> (k, v) in fs
  {
    OccursIff(fs, k, v);
    forall i | 0 <= i < |fs|
      ensures Prefix(v + ['"'], Encoded(fs[i].1) + ['"'] + Following(fs, i)) <==> v == fs[i].1
    {
      PlainValueMatch(v, fs[i].1, Following(fs, i));
    }
    if i :| 0 <= i < |fs| && fs[i].0 == k && fs[i].1 == v { assert fs[i] == (k, v); }
  }

  /** Where keys are distinct, as in an encoded map, a plain qualifier reads the field of its key. */
  lemma MatchReadsField(fs: Fields, i: nat, v: string)
    requires WellFormed(fs) && DistinctKeys(fs) && i < |fs| && PlainText(v)
    ensures Contains(Encode(fs), Needle(fs[i].0, v)) <==> fs[i].1 == v
  {
    MatchIsExact(fs, fs[i].0, v);
    assert fs[i] in fs;
    if (fs[i].0, v) in fs {
      var j :| 0 <= j < |fs| && fs[j] == (fs[i].0, v);
      assert j == i;
    }
  }

  /** A value that needs escaping is missed even where the payload has exactly it. */
  lemma EscapedValueIsMissed(k: string, v: string)
    requires KeyText(k) && !PlainText(v)
    ensures !Contains(Encode([(k, v)]), Needle(k, v))
  {
    OccursIff([(k, v)], k, v);
    EscapedValueMismatch(v, Following([(k, v)], 0));
  }

  /** A qualifier is exact on all payloads if and only if its value needs no escaping. */
  lemma ExactIffPlain(k: string, v: string)
    requires KeyText(k)
    ensures (forall fs: Fields | WellFormed(fs) :: Contains(Encode(fs), Needle(k, v)) <==> (k, v) in fs)
       <==> PlainText(v)
  {
    if PlainText(v) {
      forall fs: Fields | WellFormed(fs) ensures Contains(Encode(fs), Needle(k, v)) <==> (k, v) in fs {
        MatchIsExact(fs, k, v);
      }
    } else {
      EscapedValueIsMissed(k, v);
      assert WellFormed([(k, v)]) && (k, v) in [(k, v)];
    }
  }
}
