/**
  * JavaScript objects whose property values are strings, kept as their
  * properties in insertion order, and `JSON.stringify` of such an object
  * with no indentation (sections 25.5.2.3 and 25.5.2.5 of ECMA-262): each
  * string goes through QuoteJSONString, properties are joined by `,` and
  * keys are separated from values by `:`.
  *
  * A value may also be `Raw`: text emitted as it is, in place of a quoted
  * string. Nothing in JavaScript's JSON.stringify produces that; it is how
  * the corrected webhook body of `WebhooksClient` is written.
  */
module FlatJson {
  import opened Wrappers
  import opened EcmaString

  /** A property value. */
  datatype Value = Str(s: string) | Raw(text: string)

  /** One own property. */
  datatype Property = Property(key: string, value: Value)

  /** A plain object: its own properties, in the order JavaScript enumerates them. */
  type Object = seq<Property>

  /** The caller's object of string-valued properties, as (key, value) pairs in enumeration order. */
  type Fields = seq<(string, string)>

  // ---------------------------------------------------------------------
  // Objects: lookup, assignment, spread
  // ---------------------------------------------------------------------

  /** The position of the property named `key`, if there is one. */
  function KeyIndex(obj: Object, key: string): (r: Option<nat>)
    ensures r.Some? ==> r.value < |obj| && obj[r.value].key == key
    ensures r.Some? ==> forall j :: 0 <= j < r.value ==> obj[j].key != key
    ensures r.None? ==> forall j :: 0 <= j < |obj| ==> obj[j].key != key
  {
    if |obj| == 0 then None
    else if obj[0].key == key then Some(0)
    else
      match KeyIndex(obj[1..], key)
      case None => None
      case Some(j) => Some(j + 1)
  }

  /** `obj[key]`: the value of the property named `key`. */
  function Get(obj: Object, key: string): Option<Value> {
    match KeyIndex(obj, key)
    case None => None
    case Some(i) => Some(obj[i].value)
  }

  /** No two properties share a key, as in every JavaScript object. */
  predicate DistinctKeys(obj: Object) {
    forall i, j :: 0 <= i < j < |obj| ==> obj[i].key != obj[j].key
  }

  /** The set of keys. */
  function Keys(obj: Object): set<string> {
    set i | 0 <= i < |obj| :: obj[i].key
  }

  /**
    * Defining a property in an object literal (or assigning it): an existing
    * property keeps its position and takes the new value; a new one goes last.
    */
  function Assign(obj: Object, key: string, v: Value): (r: Object)
    ensures Keys(r) == Keys(obj) + {key}
    ensures DistinctKeys(obj) ==> DistinctKeys(r)
    ensures Get(r, key) == Some(v)
    ensures forall k :: k != key ==> Get(r, k) == Get(obj, k)
    ensures |obj| <= |r| && forall j :: 0 <= j < |obj| ==> r[j].key == obj[j].key
    ensures forall j :: 0 <= j < |r| ==> r[j] == Property(key, v) || (j < |obj| && r[j] == obj[j])
  {
    match KeyIndex(obj, key)
    case Some(i) =>
      var r := obj[i := Property(key, v)];
      KeyIndexAt(r, i, key);
      assert forall k :: k != key ==> KeyIndex(r, k) == KeyIndex(obj, k) by {
        forall k | k != key ensures KeyIndex(r, k) == KeyIndex(obj, k) {
          KeyIndexIgnoresOtherKey(obj, i, key, v, k);
        }
      }
      assert Keys(r) == Keys(obj) + {key} by {
        assert forall j :: 0 <= j < |obj| ==> r[j].key == obj[j].key;
      }
      r
    case None =>
      var r := obj + [Property(key, v)];
      assert KeyIndex(r, key) == Some(|obj|) by {
        KeyIndexAppend(obj, Property(key, v), key);
      }
      assert forall k :: k != key ==> KeyIndex(r, k) == KeyIndex(obj, k) by {
        forall k | k != key ensures KeyIndex(r, k) == KeyIndex(obj, k) {
          KeyIndexAppend(obj, Property(key, v), k);
        }
      }
      assert Keys(r) == Keys(obj) + {key} by {
        assert r[|obj|].key == key;
        assert forall j :: 0 <= j < |obj| ==> r[j].key == obj[j].key;
      }
      r
  }

  /** The first property named `key` is at `i`. */
  lemma KeyIndexAt(obj: Object, i: nat, key: string)
    requires i < |obj| && obj[i].key == key
    requires forall j :: 0 <= j < i ==> obj[j].key != key
    ensures KeyIndex(obj, key) == Some(i)
  {
    var r := KeyIndex(obj, key);
    assert r.Some?;
    assert !(r.value > i);
  }

  /** Replacing the property at `i` by one with the same key moves no other key. */
  lemma {:induction false} KeyIndexIgnoresOtherKey(obj: Object, i: nat, key: string, v: Value, k: string)
    requires i < |obj| && obj[i].key == key && k != key
    ensures KeyIndex(obj[i := Property(key, v)], k) == KeyIndex(obj, k)
  {
    if i > 0 && obj[0].key != k {
      assert obj[i := Property(key, v)][1..] == obj[1..][i - 1 := Property(key, v)];
      KeyIndexIgnoresOtherKey(obj[1..], i - 1, key, v, k);
    }
  }

  /** Appending a property does not move the keys already there. */
  lemma {:induction false} KeyIndexAppend(obj: Object, p: Property, k: string)
    ensures KeyIndex(obj + [p], k)
         == match KeyIndex(obj, k)
            case Some(i) => Some(i)
            case None => if p.key == k then Some(|obj|) else None
  {
    if |obj| > 0 && obj[0].key != k {
      assert (obj + [p])[1..] == obj[1..] + [p];
      KeyIndexAppend(obj[1..], p, k);
    }
  }

  /** The keys of the caller's fields. */
  function FieldKeys(src: Fields): set<string> {
    if src == [] then {} else {src[0].0} + FieldKeys(src[1..])
  }

  /** `{...target, ...src}`: the source's properties are assigned one by one, in order. */
  function Spread(target: Object, src: Fields): (r: Object)
    ensures Keys(r) == Keys(target) + FieldKeys(src)
    ensures DistinctKeys(target) ==> DistinctKeys(r)
    decreases |src|
  {
    if src == [] then target
    else Spread(Assign(target, src[0].0, Str(src[0].1)), src[1..])
  }

  /** The value the fields give `k`: the last field named `k` wins, as later assignments do. */
  function FieldValue(src: Fields, k: string): Option<string> {
    if src == [] then None
    else
      match FieldValue(src[1..], k)
      case Some(v) => Some(v)
      case None => if src[0].0 == k then Some(src[0].1) else None
  }

  /**
    * After `{...target, ...src}`, a key the fields name has the value the
    * fields give it, and every other key keeps its value in `target`.
    */
  lemma {:induction false} SpreadGet(target: Object, src: Fields, k: string)
    ensures Get(Spread(target, src), k)
         == match FieldValue(src, k)
            case Some(v) => Some(Str(v))
            case None => Get(target, k)
    decreases |src|
  {
    if src != [] {
      var next := Assign(target, src[0].0, Str(src[0].1));
      SpreadGet(next, src[1..], k);
    }
  }

  /** Every property of `obj` satisfies `P`. */
  predicate AllProperties(obj: Object, P: Property -> bool) {
    forall j :: 0 <= j < |obj| ==> P(obj[j])
  }

  /**
    * Spreading fields whose properties all satisfy `P` into an object whose
    * properties do yields an object whose properties all do.
    */
  lemma {:induction false} SpreadKeeps(target: Object, src: Fields, P: Property -> bool)
    requires AllProperties(target, P)
    requires forall j :: 0 <= j < |src| ==> P(Property(src[j].0, Str(src[j].1)))
    ensures AllProperties(Spread(target, src), P)
    decreases |src|
  {
    if src != [] {
      var next := Assign(target, src[0].0, Str(src[0].1));
      assert P(Property(src[0].0, Str(src[0].1)));
      assert AllProperties(next, P);
      SpreadKeeps(next, src[1..], P);
    }
  }

  // ---------------------------------------------------------------------
  // Strings: QuoteJSONString and its inverse
  // ---------------------------------------------------------------------

  /** A lower-case hexadecimal digit. */
  function HexDigit(d: nat): char
    requires d < 16
  {
    if d < 10 then ('0' as int + d) as char else ('a' as int + (d - 10)) as char
  }

  /** The value of a hexadecimal digit of either case. */
  function HexValue(c: char): (r: Option<nat>)
    ensures r.Some? ==> r.value < 16
  {
    if '0' <= c <= '9' then Some(c as int - '0' as int)
    else if 'a' <= c <= 'f' then Some(c as int - 'a' as int + 10)
    else if 'A' <= c <= 'F' then Some(c as int - 'A' as int + 10)
    else None
  }

  /** Characters QuoteJSONString replaces by an escape sequence. */
  predicate NeedsEscape(c: char) {
    c == '"' || c == '\\' || c as int < 0x20
  }

  /** What QuoteJSONString writes for one character. */
  function EscapeChar(c: char): (r: string)
    ensures NeedsEscape(c) ==> |r| >= 2 && r[0] == '\\'
    ensures !NeedsEscape(c) ==> r == [c]
    ensures c != '"' ==> '"' !in r
  {
    var n := c as int;
    if n == 0x08 then "\\b"
    else if n == 0x09 then "\\t"
    else if n == 0x0A then "\\n"
    else if n == 0x0C then "\\f"
    else if n == 0x0D then "\\r"
    else if c == '"' then "\\\""
    else if c == '\\' then "\\\\"
    else if n < 0x20 then "\\u00" + [HexDigit(n / 16), HexDigit(n % 16)]
    else [c]
  }

  /** The characters between the quotes that QuoteJSONString adds. */
  function Escape(s: string): (r: string)
    ensures |r| >= |s|
  {
    if s == [] then [] else EscapeChar(s[0]) + Escape(s[1..])
  }

  /** QuoteJSONString: the JSON string literal for `s`. */
  function Quote(s: string): string {
    "\"" + Escape(s) + "\""
  }

  /** Escaping distributes over concatenation. */
  lemma {:induction false} EscapeAppend(a: string, b: string)
    ensures Escape(a + b) == Escape(a) + Escape(b)
  {
    if a == [] {
      assert a + b == b;
    } else {
      assert (a + b)[0] == a[0] && (a + b)[1..] == a[1..] + b;
      EscapeAppend(a[1..], b);
    }
  }

  /** A string with nothing to escape is written as it is. */
  lemma {:induction false} EscapePlain(s: string)
    requires forall i :: 0 <= i < |s| ==> !NeedsEscape(s[i])
    ensures Escape(s) == s
  {
    if s != [] {
      EscapePlain(s[1..]);
    }
  }

  /** A string with nothing to escape is quoted as it is. */
  lemma QuotePlain(s: string)
    requires forall i :: 0 <= i < |s| ==> !NeedsEscape(s[i])
    ensures Quote(s) == "\"" + s + "\""
  {
    EscapePlain(s);
  }

  /** An escaped string holds a double quote only where the original did. */
  lemma {:induction false} EscapeKeepsOutQuotes(s: string)
    requires '"' !in s
    ensures '"' !in Escape(s)
  {
    if s != [] {
      EscapeKeepsOutQuotes(s[1..]);
    }
  }

  /** An escaped string without a backslash is the original string. */
  lemma {:induction false} EscapeWithoutBackslash(s: string)
    requires '\\' !in Escape(s)
    ensures Escape(s) == s
  {
    if s != [] {
      assert EscapeChar(s[0]) <= Escape(s);
      assert !NeedsEscape(s[0]);
      EscapeWithoutBackslash(s[1..]);
    }
  }

  /** The character an escape `\x` with a one-character name stands for (section 7 of RFC 8259). */
  function ShortEscape(c: char): Option<char> {
    if c == '"' then Some('"')
    else if c == '\\' then Some('\\')
    else if c == '/' then Some('/')
    else if c == 'b' then Some(0x08 as char)
    else if c == 'f' then Some(0x0C as char)
    else if c == 'n' then Some(0x0A as char)
    else if c == 'r' then Some(0x0D as char)
    else if c == 't' then Some(0x09 as char)
    else None
  }

  /** The value of four hexadecimal digits. */
  function HexValue4(h: string): (r: Option<nat>)
    requires |h| == 4
    ensures r.Some? ==> r.value < 0x1_0000
  {
    match (HexValue(h[0]), HexValue(h[1]), HexValue(h[2]), HexValue(h[3]))
    case (Some(a), Some(b), Some(c), Some(d)) => Some(a * 0x1000 + b * 0x100 + c * 0x10 + d)
    case _ => None
  }

  /** `[c] + rest`, when `rest` is present. */
  function Cons(c: char, rest: Option<string>): Option<string> {
    match rest
    case None => None
    case Some(t) => Some([c] + t)
  }

  /**
    * The characters of a JSON string literal's body (section 7 of RFC 8259),
    * or `None` when it holds a bare quote, a bare control character or a
    * malformed escape. Escapes of surrogate halves are not decoded.
    */
  function Unescape(t: string): (r: Option<string>)
    decreases |t|
  {
    if t == [] then Some([])
    else if t[0] == '\\' then
      if |t| < 2 then None
      else if t[1] == 'u' then
        if |t| < 6 then None
        else
          match HexValue4(t[2..6])
          case None => None
          case Some(n) => if 0xD800 <= n < 0xE000 then None else Cons(n as char, Unescape(t[6..]))
      else
        match ShortEscape(t[1])
        case None => None
        case Some(c) => Cons(c, Unescape(t[2..]))
    else if t[0] == '"' || t[0] as int < 0x20 then None
    else Cons(t[0], Unescape(t[1..]))
  }

  /** Decoding one escaped character gives the character back. */
  lemma UnescapeEscapeChar(c: char, rest: string)
    ensures Unescape(EscapeChar(c) + rest) == Cons(c, Unescape(rest))
  {
    var t := EscapeChar(c) + rest;
    var n := c as int;
    if n < 0x20 && n != 0x08 && n != 0x09 && n != 0x0A && n != 0x0C && n != 0x0D {
      assert t[2..6] == "00" + [HexDigit(n / 16), HexDigit(n % 16)];
      assert HexValue(HexDigit(n / 16)) == Some(n / 16);
      assert HexValue(HexDigit(n % 16)) == Some(n % 16);
      assert HexValue4(t[2..6]) == Some(n);
      assert t[6..] == rest;
    } else if NeedsEscape(c) {
      assert t[2..] == rest;
    } else {
      assert t[1..] == rest;
    }
  }

  /** Every string survives escaping and decoding unchanged. */
  lemma {:induction false} UnescapeEscape(s: string)
    ensures Unescape(Escape(s)) == Some(s)
  {
    if s != [] {
      UnescapeEscapeChar(s[0], Escape(s[1..]));
      UnescapeEscape(s[1..]);
      assert [s[0]] + s[1..] == s;
    }
  }

  // ---------------------------------------------------------------------
  // JSON.stringify
  // ---------------------------------------------------------------------

  /** The JSON text of a value. */
  function ValueText(v: Value): string {
    match v
    case Str(s) => Quote(s)
    case Raw(t) => t
  }

  /** `"key":value`. */
  function PropertyText(p: Property): string {
    Quote(p.key) + ":" + ValueText(p.value)
  }

  /** The properties' texts joined by commas. */
  function PropertiesText(props: Object): string {
    if props == [] then "" else PropertyText(props[0]) + Tail(props[1..])
  }

  /** Each property's text preceded by a comma. */
  function Tail(props: Object): string {
    if props == [] then "" else "," + PropertyText(props[0]) + Tail(props[1..])
  }

  /** The comma-prefixed texts of two runs of properties concatenate. */
  lemma {:induction false} TailAppend(a: Object, b: Object)
    ensures Tail(a + b) == Tail(a) + Tail(b)
  {
    if a == [] {
      assert a + b == b;
    } else {
      assert (a + b)[0] == a[0] && (a + b)[1..] == a[1..] + b;
      TailAppend(a[1..], b);
    }
  }

  /** `JSON.stringify(obj)` for an object of string values, without indentation. */
  function Stringify(obj: Object): string {
    "{" + PropertiesText(obj) + "}"
  }

  /** The properties' texts joined by commas, followed by a comma when there are any. */
  function Lead(props: Object): string {
    if props == [] then "" else PropertiesText(props) + ","
  }

  /** The text before the value of property `i`: everything up to and including its `:`. */
  function SlotPrefix(obj: Object, i: nat): string
    requires i < |obj|
  {
    "{" + Lead(obj[..i]) + Quote(obj[i].key) + ":"
  }

  /** The text after the value of property `i`. */
  function SlotSuffix(obj: Object, i: nat): string
    requires i < |obj|
  {
    Tail(obj[i + 1..]) + "}"
  }

  /** A non-empty tail is a comma followed by the joined properties. */
  lemma TailIsCommaJoined(props: Object)
    ensures Tail(props) == if props == [] then "" else "," + PropertiesText(props)
  {
  }

  /** The joined properties split before property `i`. */
  lemma {:induction false} PropertiesTextSplit(props: Object, i: nat)
    requires 0 < i < |props|
    ensures PropertiesText(props) == PropertiesText(props[..i]) + Tail(props[i..])
  {
    var pre := props[..i];
    assert props[1..] == pre[1..] + props[i..];
    TailAppend(pre[1..], props[i..]);
  }

  /** The tail from property `i` on is a comma, property `i`, and the tail after it. */
  lemma TailFrom(props: Object, i: nat)
    requires i < |props|
    ensures Tail(props[i..]) == "," + PropertyText(props[i]) + Tail(props[i + 1..])
  {
    assert props[i..][1..] == props[i + 1..];
  }

  /** Moving the comma from the tail onto the joined text. */
  lemma CommaRegroup(joined: string, here: string, tail: string)
    ensures joined + ("," + here + tail) == (joined + ",") + here + tail
  {
    Assoc(joined, "," + here, tail);
    Assoc(joined, ",", here);
  }

  /** The joined properties split around property `i`, when some come before it. */
  lemma {:induction false} PropertiesTextAroundLater(props: Object, i: nat)
    requires 0 < i < |props|
    ensures PropertiesText(props)
         == (PropertiesText(props[..i]) + ",") + PropertyText(props[i]) + Tail(props[i + 1..])
  {
    PropertiesTextSplit(props, i);
    TailFrom(props, i);
    CommaRegroup(PropertiesText(props[..i]), PropertyText(props[i]), Tail(props[i + 1..]));
  }

  /** The joined properties split around the first property. */
  lemma PropertiesTextAroundFirst(props: Object)
    requires 0 < |props|
    ensures PropertiesText(props) == "" + PropertyText(props[0]) + Tail(props[1..])
  {
  }

  /** The joined properties split around property `i`. */
  lemma {:induction false} PropertiesTextAround(props: Object, i: nat)
    requires i < |props|
    ensures PropertiesText(props) == Lead(props[..i]) + PropertyText(props[i]) + Tail(props[i + 1..])
  {
    var lead := Lead(props[..i]);
    if i == 0 {
      assert props[..i] == [];
      assert lead == "";
      PropertiesTextAroundFirst(props);
    } else {
      assert lead == PropertiesText(props[..i]) + ",";
      PropertiesTextAroundLater(props, i);
    }
  }

  /** Concatenation regrouped. */
  lemma Assoc(a: string, b: string, c: string)
    ensures a + (b + c) == a + b + c
  {
  }

  /**
    * The serialised object is the slot's prefix, the text of property `i`'s
    * value, and the slot's suffix.
    */
  lemma {:induction false} StringifySlot(obj: Object, i: nat)
    requires i < |obj|
    ensures Stringify(obj) == SlotPrefix(obj, i) + ValueText(obj[i].value) + SlotSuffix(obj, i)
  {
    PropertiesTextAround(obj, i);
    var lead, key, value, tail := Lead(obj[..i]), Quote(obj[i].key), ValueText(obj[i].value), Tail(obj[i + 1..]);
    var kc := key + ":";
    assert PropertyText(obj[i]) == kc + value;
    assert PropertiesText(obj) == lead + (kc + value) + tail;
    Assoc(lead, kc, value);
    Assoc("{", lead + kc + value, tail);
    Assoc("{" + (lead + kc + value), tail, "}");
    assert Stringify(obj) == "{" + (lead + kc + value) + (tail + "}");
    Assoc("{", lead + kc, value);
    Assoc("{", lead, kc);
    Assoc("{" + lead, key, ":");
  }

  /** Replacing the value of property `i` leaves the text around that value unchanged. */
  lemma SlotUnchanged(obj: Object, i: nat, v: Value)
    requires i < |obj|
    ensures var obj' := obj[i := Property(obj[i].key, v)];
      SlotPrefix(obj', i) == SlotPrefix(obj, i) && SlotSuffix(obj', i) == SlotSuffix(obj, i)
  {
    var obj' := obj[i := Property(obj[i].key, v)];
    assert obj'[..i] == obj[..i] && obj'[i + 1..] == obj[i + 1..];
  }

  // ---------------------------------------------------------------------
  // Where a quoted word can occur in a serialised object
  // ---------------------------------------------------------------------

  /**
    * A word JSON leaves unescaped and that holds none of the characters
    * `JSON.stringify` writes between strings.
    */
  predicate Inert(w: string) {
    forall i :: 0 <= i < |w| ==> !NeedsEscape(w[i]) && w[i] !in "{}:,"
  }

  /** Appending a character to both sides keeps a quoted ending. */
  lemma SnocEndsWithQuoted(y: string, c: char, v: string)
    requires EndsWithQuoted(y, v)
    ensures EndsWithQuoted(y + [c], v + [c])
  {
    var n := |y| - |v| - 1;
    assert (y + [c])[n..] == y[n..] + [c];
  }

  /** `s` ends with a double quote followed by `w`. */
  predicate EndsWithQuoted(s: string, w: string) {
    |s| > |w| && s[|s| - |w| - 1..] == "\"" + w
  }

  /** A string ending with a double quote and a non-empty `w` ends with the last character of `w`. */
  lemma QuotedEndingLast(s: string, w: string)
    ensures EndsWithQuoted(s, w) && w != [] ==> s[|s| - 1] == w[|w| - 1]
  {
    if EndsWithQuoted(s, w) && w != [] {
      var t := "\"" + w;
      assert s[|s| - 1] == s[|s| - |t|..][|t| - 1] == t[|t| - 1];
    }
  }

  /**
    * A string that is not `w` and does not end with a double quote followed
    * by `w`: for an inert `w`, exactly the strings whose literal does not
    * hold the quoted `w` (`QuotedWordOccurrence`).
    */
  predicate Unlike(s: string, w: string) {
    s != w && !EndsWithQuoted(s, w)
  }

  /** Every double quote in `e` has a backslash just before it. */
  predicate QuotesGuarded(e: string) {
    forall j :: 0 <= j < |e| && e[j] == '"' ==> 0 < j && e[j - 1] == '\\'
  }

  lemma GuardedAppend(a: string, b: string)
    requires QuotesGuarded(a) && QuotesGuarded(b)
    ensures QuotesGuarded(a + b)
  {
    var e := a + b;
    forall j | 0 <= j < |e| && e[j] == '"' ensures 0 < j && e[j - 1] == '\\' {
      if j < |a| {
        assert a[j] == '"';
      } else {
        assert b[j - |a|] == '"';
      }
    }
  }

  /** `JSON.stringify` writes every double quote inside a string as `\"`. */
  lemma {:induction false} EscapeGuarded(s: string)
    ensures QuotesGuarded(Escape(s))
  {
    if s != [] {
      var r := EscapeChar(s[0]);
      assert QuotesGuarded(r) by {
        if s[0] == '"' {
          assert r == "\\\"";
        }
      }
      EscapeGuarded(s[1..]);
      GuardedAppend(r, Escape(s[1..]));
    }
  }

  lemma EscapeSnoc(s: string, c: char)
    ensures Escape(s + [c]) == Escape(s) + EscapeChar(c)
  {
    EscapeAppend(s, [c]);
    assert [c][1..] == [];
  }

  /** The last `|t|` characters of `a + r`, seen from `r` and from `a`. */
  lemma SuffixSplit(s: string, a: string, r: string, t: string)
    requires s == a + r && |t| <= |s| && s[|s| - |t|..] == t
    ensures |r| >= |t| ==> r[|r| - |t|..] == t
    ensures |r| < |t| ==> t[|t| - |r|..] == r && a[|a| - (|t| - |r|)..] == t[..|t| - |r|]
  {
    var n := |s| - |t|;
    if |r| >= |t| {
      assert r[|r| - |t|..] == (a + r)[n..];
    } else {
      assert (a + r)[n..] == a[n..] + r;
      assert t == a[n..] + r;
    }
  }

  /** Only a double quote is escaped into text holding a double quote, and then as `\"`. */
  lemma EscapeCharQuote(c: char)
    requires '"' in EscapeChar(c)
    ensures c == '"' && EscapeChar(c) == "\\\""
  {
  }

  /** An escape that ends with a quote-led text holding no backslash is `\"`, and the text is `"`. */
  lemma EscapeEndingQuoted(c: char, t: string)
    requires |t| > 0 && t[0] == '"' && '\\' !in t
    requires var r := EscapeChar(c); |r| >= |t| && r[|r| - |t|..] == t
    ensures c == '"' && |t| == 1
  {
    var r := EscapeChar(c);
    assert r[|r| - |t|] == t[0];
    EscapeCharQuote(c);
  }

  /** An escape that is a suffix of a text holding no backslash is the character itself. */
  lemma EscapeInsidePlain(c: char, t: string)
    requires '\\' !in t
    requires var r := EscapeChar(c); |r| < |t| && t[|t| - |r|..] == r
    ensures EscapeChar(c) == [c]
  {
    var r := EscapeChar(c);
    assert r[0] == t[|t| - |r|];
  }

  /** Escaped text ending with an escape longer than `w` ends with a quote and `w` only for a quote and an empty `w`. */
  lemma EscapeLastLong(y: string, c: char, w: string)
    requires '\\' !in w && EndsWithQuoted(Escape(y) + EscapeChar(c), w) && |EscapeChar(c)| > |w|
    ensures c == '"' && w == []
  {
    var r, t := EscapeChar(c), "\"" + w;
    SuffixSplit(Escape(y) + r, Escape(y), r, t);
    EscapeEndingQuoted(c, t);
  }

  /** Text ending in `c` ends with a quote and a non-empty `w` when `c` ends `w` and the rest ends with a quote and the rest of `w`. */
  lemma PlainLastPiece(a: string, c: char, w: string)
    requires w != [] && EndsWithQuoted(a + [c], w)
    ensures c == w[|w| - 1] && EndsWithQuoted(a, w[..|w| - 1])
  {
    var n, t := |a| - |w|, "\"" + w;
    assert t == (a + [c])[n..] == a[n..] + [c];
    assert a[n..] == t[..|t| - 1] == "\"" + w[..|w| - 1];
    assert c == t[|t| - 1];
  }

  /** Escaped text ending with a quote and `w`, whose last escape is no longer than `w`, ends with `c` kept as is. */
  lemma EscapeLastShort(y: string, c: char, w: string)
    requires '\\' !in w && EndsWithQuoted(Escape(y) + EscapeChar(c), w) && |EscapeChar(c)| <= |w|
    ensures w != [] && c == w[|w| - 1] && EndsWithQuoted(Escape(y), w[..|w| - 1])
  {
    var r, t := EscapeChar(c), "\"" + w;
    SuffixSplit(Escape(y) + r, Escape(y), r, t);
    EscapeInsidePlain(c, t);
    PlainLastPiece(Escape(y), c, w);
  }

  /** Peeling the last character off a string whose escaped text ends with a quote and `w`. */
  lemma EscapeLast(y: string, c: char, w: string)
    requires '\\' !in w && EndsWithQuoted(Escape(y + [c]), w)
    ensures w == [] ==> c == '"'
    ensures w != [] ==> c == w[|w| - 1] && EndsWithQuoted(Escape(y), w[..|w| - 1])
  {
    EscapeSnoc(y, c);
    if |EscapeChar(c)| > |w| {
      EscapeLastLong(y, c, w);
    } else {
      EscapeLastShort(y, c, w);
    }
  }

  /** Only the empty string escapes to the empty text. */
  lemma EscapeOfEmpty(x: string)
    ensures x != [] <==> Escape(x) != []
  {
    if x != [] {
      assert EscapeChar(x[0]) <= Escape(x);
    }
  }

  /** A prefix of a text without backslashes has none. */
  lemma NoBackslashInPrefix(w: string, n: nat)
    requires n <= |w| && '\\' !in w
    ensures '\\' !in w[..n]
  {
    assert forall i :: 0 <= i < n ==> w[..n][i] == w[i];
  }

  /** For an empty word: the last character of `x` is the double quote. */
  lemma PeelQuote(x: string)
    requires EndsWithQuoted(Escape(x), [])
    ensures EndsWithQuoted(x, [])
  {
    EscapeOfEmpty(x);
    var y, c := x[..|x| - 1], x[|x| - 1];
    assert x == y + [c];
    EscapeLast(y, c, []);
    assert x[|x| - 1..] == [c];
  }

  /**
    * One step of `EscapedEndsWithQuoted` for a non-empty word: split off the
    * last character of `x`. The rest escapes to text ending with a quote
    * and the rest of `w`, and it is enough that the rest itself ends that
    * way.
    */
  lemma PeelLast(x: string, w: string) returns (y: string)
    requires '\\' !in w && w != [] && EndsWithQuoted(Escape(x), w)
    ensures |y| < |x| && EndsWithQuoted(Escape(y), w[..|w| - 1])
    ensures EndsWithQuoted(y, w[..|w| - 1]) ==> EndsWithQuoted(x, w)
  {
    EscapeOfEmpty(x);
    var c;
    y, c := x[..|x| - 1], x[|x| - 1];
    assert x == y + [c];
    EscapeLast(y, c, w);
    var v := w[..|w| - 1];
    assert w == v + [c];
    if EndsWithQuoted(y, v) {
      SnocEndsWithQuoted(y, c, v);
    }
  }

  /**
    * When the escaped text of `x` ends with a double quote followed by a
    * word `w` without backslashes, so does `x`: the quote cannot come from
    * an escape.
    */
  lemma {:induction false} EscapedEndsWithQuoted(x: string, w: string)
    requires '\\' !in w && EndsWithQuoted(Escape(x), w)
    ensures EndsWithQuoted(x, w)
    decreases |x|
  {
    if w == [] {
      PeelQuote(x);
    } else {
      var y := PeelLast(x, w);
      NoBackslashInPrefix(w, |w| - 1);
      EscapedEndsWithQuoted(y, w[..|w| - 1]);
    }
  }


  /** Inside the quotes of `"e"`, every quote of a guarded `e` has a backslash before it. */
  lemma QuotedGuarded(e: string)
    requires QuotesGuarded(e)
    ensures var q := "\"" + e + "\"";
      forall j :: 1 <= j <= |e| && q[j] == '"' ==> 2 <= j && q[j - 1] == '\\'
  {
    var q := "\"" + e + "\"";
    forall j | 1 <= j <= |e| && q[j] == '"' ensures 2 <= j && q[j - 1] == '\\' {
      assert q[j] == e[j - 1];
      assert q[j - 1] == e[j - 2];
    }
  }

  /**
    * In `"e"`, where every quote of `e` is guarded, `"w"` for a word without
    * a backslash can only occur ending at the closing quote.
    */
  lemma QuotedOccursAtEnd(e: string, w: string, k: nat)
    requires QuotesGuarded(e) && '\\' !in w
    requires OccursAt("\"" + e + "\"", "\"" + w + "\"", k)
    ensures k + |w| == |e|
  {
    var q, p := "\"" + e + "\"", "\"" + w + "\"";
    var m := k + |w| + 1;
    QuotedGuarded(e);
    assert q[m] == p[|w| + 1] == '"';
    assert q[m - 1] == p[|w|];
    assert p[|w|] != '\\' by {
      if |w| > 0 {
        assert p[|w|] == w[|w| - 1];
      }
    }
  }

  /** Where `"w"` ends at the closing quote of `"e"`: `e` is `w` or ends with a quote and `w`. */
  lemma QuotedTail(e: string, w: string, k: nat)
    requires OccursAt("\"" + e + "\"", "\"" + w + "\"", k) && k + |w| == |e|
    ensures k == 0 ==> e == w
    ensures k > 0 ==> EndsWithQuoted(e, w)
  {
    var q, p := "\"" + e + "\"", "\"" + w + "\"";
    assert q[k..k + |p|] == p;
    if k == 0 {
      assert e == q[1..|w| + 1] == p[1..|w| + 1] == w;
    } else {
      assert e[k - 1..] == q[k..|q| - 1] == p[..|p| - 1] == "\"" + w;
    }
  }

  /** A double quote followed by an inert word is escaped as `\"` followed by the word. */
  lemma EscapeQuoteThenInert(w: string)
    requires Inert(w)
    ensures Escape("\"" + w) == "\\\"" + w
  {
    EscapeAppend("\"", w);
    EscapePlain(w);
    assert Escape("\"") == "\\\"";
  }

  /** `"e\"w"` holds `"w"` right after the backslash. */
  lemma QuoteAfterBackslash(e: string, w: string)
    ensures OccursAt("\"" + (e + ("\\\"" + w)) + "\"", "\"" + w + "\"", |e| + 2)
  {
    var q, p := "\"" + (e + ("\\\"" + w)) + "\"", "\"" + w + "\"";
    assert q == ("\"" + e + "\\") + p;
  }

  /** A string ending with a double quote and the inert word `w` holds the quoted `w` in its literal. */
  lemma QuotedWordAtEnd(x: string, w: string)
    requires Inert(w) && EndsWithQuoted(x, w)
    ensures Occurs(Quote(x), Quote(w))
  {
    var y := x[..|x| - |w| - 1];
    assert x == y + ("\"" + w);
    EscapeAppend(y, "\"" + w);
    EscapeQuoteThenInert(w);
    QuotePlain(w);
    QuoteAfterBackslash(Escape(y), w);
  }

  /**
    * The literal of `x` holds the quoted inert word `w` exactly when `x` is
    * `w` or ends with a double quote followed by `w`.
    */
  lemma QuotedWordOccurrence(x: string, w: string)
    requires Inert(w)
    ensures Occurs(Quote(x), Quote(w)) <==> x == w || EndsWithQuoted(x, w)
  {
    EscapePlain(w);
    if Occurs(Quote(x), Quote(w)) {
      EscapeGuarded(x);
      var e := Escape(x);
      var k: nat :| k <= |Quote(x)| && OccursAt(Quote(x), Quote(w), k);
      QuotedOccursAtEnd(e, w, k);
      QuotedTail(e, w, k);
      if k == 0 {
        EscapeWithoutBackslash(x);
      } else {
        EscapedEndsWithQuoted(x, w);
      }
    }
    if EndsWithQuoted(x, w) {
      QuotedWordAtEnd(x, w);
    } else if x == w {
      assert OccursAt(Quote(x), Quote(w), 0);
    }
  }

  /** A property of string key and value, both unlike `w`. */
  predicate UnlikeProperty(p: Property, w: string) {
    p.value.Str? && Unlike(p.key, w) && Unlike(p.value.s, w)
  }

  /** The quoted word does not occur in the joined text of properties unlike it. */
  lemma {:induction false} NoQuotedWordInProperties(props: Object, w: string)
    requires Inert(w) && |props| > 0
    requires forall j :: 0 <= j < |props| ==> UnlikeProperty(props[j], w)
    ensures !Occurs(PropertiesText(props), Quote(w))
  {
    var p := Quote(w);
    EscapePlain(w);
    assert ':' !in p && ',' !in p;
    var first := props[0];
    if Occurs(Quote(first.key), p) { QuotedWordOccurrence(first.key, w); }
    if Occurs(Quote(first.value.s), p) { QuotedWordOccurrence(first.value.s, w); }
    NoOccurrenceAcross(Quote(first.key), ':', Quote(first.value.s), p);
    assert PropertyText(first) == Quote(first.key) + [':'] + Quote(first.value.s);
    if |props| == 1 {
      assert PropertiesText(props) == PropertyText(first);
    }
    if |props| > 1 {
      NoQuotedWordInProperties(props[1..], w);
      NoOccurrenceAcross(PropertyText(first), ',', PropertiesText(props[1..]), p);
      TailIsCommaJoined(props[1..]);
      Assoc(PropertyText(first), [','], PropertiesText(props[1..]));
    }
  }

  /** A quoted inert word holds none of the characters written between strings. */
  lemma QuotedInert(w: string)
    requires Inert(w)
    ensures var p := Quote(w); |p| > 0 && '{' !in p && '}' !in p && ':' !in p && ',' !in p
  {
    QuotePlain(w);
  }

  /** Text `{key` holds no occurrence of a pattern absent from `key` and without `{`. */
  lemma HeadWithoutLead(key: string, p: string)
    requires |p| > 0 && '{' !in p && !Occurs(key, p)
    ensures !Occurs("{" + "" + key, p)
  {
    assert !Occurs("", p);
    NoOccurrenceAcross("", '{', key, p);
    assert "{" + "" + key == "" + ['{'] + key;
  }

  /** Text `{joined,key` holds no occurrence of a pattern absent from both parts and without `{` or `,`. */
  lemma HeadWithLead(joined: string, key: string, p: string)
    requires |p| > 0 && '{' !in p && ',' !in p && !Occurs(joined, p) && !Occurs(key, p)
    ensures !Occurs("{" + (joined + ",") + key, p)
  {
    assert !Occurs("", p);
    NoOccurrenceAcross(joined, ',', key, p);
    NoOccurrenceAcross("", '{', joined + [','] + key, p);
    Assoc("{", joined + [','], key);
    assert "{" + (joined + ",") + key == "" + ['{'] + (joined + [','] + key);
  }

  /**
    * The quoted inert word `w` does not occur in the text of an object up to
    * and including the key of property `i`, when the properties before `i`
    * and that key are unlike `w`.
    */
  lemma NoQuotedWordInHead(obj: Object, i: nat, w: string)
    requires Inert(w) && i < |obj|
    requires forall j :: 0 <= j < i ==> UnlikeProperty(obj[j], w)
    requires Unlike(obj[i].key, w)
    ensures !Occurs("{" + Lead(obj[..i]) + Quote(obj[i].key), Quote(w))
  {
    var p, key := Quote(w), Quote(obj[i].key);
    QuotedInert(w);
    if Occurs(key, p) { QuotedWordOccurrence(obj[i].key, w); }
    if i == 0 {
      assert obj[..i] == [];
      HeadWithoutLead(key, p);
    } else {
      NoQuotedWordInProperties(obj[..i], w);
      HeadWithLead(PropertiesText(obj[..i]), key, p);
    }
  }

  /**
    * When every property before `i` and the key of property `i` are unlike
    * the inert word `w`, the first occurrence of `"w"` in the text of an
    * object whose property `i` holds `w` is that property's value.
    */
  lemma {:induction false} FirstQuotedWordAtSlot(obj: Object, i: nat, w: string)
    requires Inert(w) && i < |obj| && obj[i].value == Str(w)
    requires forall j :: 0 <= j < i ==> UnlikeProperty(obj[j], w)
    requires Unlike(obj[i].key, w)
    ensures IndexOf(Stringify(obj), Quote(w)) == Some(|SlotPrefix(obj, i)|)
  {
    var p := Quote(w);
    QuotedInert(w);
    var head := "{" + Lead(obj[..i]) + Quote(obj[i].key);
    NoQuotedWordInHead(obj, i, w);
    assert !Occurs("", p);
    NoOccurrenceAcross(head, ':', "", p);
    var prefix := SlotPrefix(obj, i);
    assert prefix == head + [':'] + "";
    StringifySlot(obj, i);
    FirstOccurrenceAfter(prefix, p, SlotSuffix(obj, i));
  }
}
