/** The span exporter's JSON string escaping, over 16-bit characters. */
module JsonEscape {
  import opened Prelude

  type Unit = u: int | 0 <= u < 0x1_0000

  type Text = seq<Unit>

  const QUOTE: Unit := 34
  const SLASH: Unit := 92      // backslash
  const COMMA: Unit := 44
  const COLON: Unit := 58

  /** Lower-case hex digit, as `%04x` prints it. */
  function HexDigit(d: int): Unit
    requires 0 <= d < 16
  {
    if d < 10 then 48 + d else 87 + d
  }

  function Hex4(c: Unit): Text {
    [HexDigit(c / 4096), HexDigit(c / 256 % 16), HexDigit(c / 16 % 16), HexDigit(c % 16)]
  }

  /** The replacement of one character, or None when it stands for itself. */
  function Replacement(c: Unit): Option<Text> {
    if c == SLASH then Some([SLASH, SLASH])
    else if c == QUOTE then Some([SLASH, QUOTE])
    else if c == 10 then Some([SLASH, 110])
    else if c == 13 then Some([SLASH, 114])
    else if c == 9 then Some([SLASH, 116])
    else if c < 0x20 then Some([SLASH, 117] + Hex4(c))
    else None
  }

  function EscapeChar(c: Unit): Text {
    if Replacement(c).Some? then Replacement(c).value else [c]
  }

  /** Character by character. */
  function Escaped(s: Text): Text {
    if s == [] then [] else EscapeChar(s[0]) + Escaped(s[1..])
  }

  lemma {:induction false} EscapedConcat(a: Text, b: Text)
    ensures Escaped(a + b) == Escaped(a) + Escaped(b)
  {
    if a == [] {
      assert a + b == b;
    } else {
      assert (a + b)[1..] == a[1..] + b;
      EscapedConcat(a[1..], b);
    }
  }

  class StringBuilder {
    var text: Text

    constructor (initial: Text)
      ensures text == initial
    {
      text := initial;
    }

    method Append(more: Text)
      modifies this
      ensures text == old(text) + more
    {
      text := text + more;
    }
  }

  /** The lazily allocating loop: no builder until the first character that needs replacing, and the
    * string itself when there is none. `None` is Java's null. */
  method Escape(s: Option<Text>) returns (r: Text)
    ensures s.None? ==> r == []
    ensures s.Some? ==> r == Escaped(s.value)
  {
    if s.None? {
      return [];
    }
    var text := s.value;
    var out: StringBuilder? := null;
    for i := 0 to |text|
      invariant out != null ==> fresh(out)
      invariant (if out == null then text[..i] else out.text) == Escaped(text[..i])
    {
      var c := text[i];
      EscapedConcat(text[..i], [c]);
      assert text[..i + 1] == text[..i] + [c];
      assert Escaped([c]) == EscapeChar(c);
      var repl := Replacement(c);
      if repl.Some? {
        if out == null {
          out := new StringBuilder(text[..i]);
        }
        out.Append(repl.value);
      } else if out != null {
        out.Append([c]);
      }
    }
    assert text[..|text|] == text;
    return if out == null then text else out.text;
  }

  // ---------------------------------------------------------------- reading it back

  function HexValue(u: Unit): Option<int> {
    if 48 <= u <= 57 then Some(u - 48)
    else if 97 <= u <= 102 then Some(u - 87)
    else if 65 <= u <= 70 then Some(u - 55)
    else None
  }

  /** One character of a JSON string body (section 7 of RFC 8259): its value and how many units it takes.
    * A raw quote or control character is not one. */
  function ReadChar(s: Text): Option<(Unit, nat)>
    requires s != []
  {
    if s[0] == QUOTE || s[0] < 0x20 then None
    else if s[0] != SLASH then Some((s[0], 1))
    else if |s| < 2 then None
    else
      var e := s[1];
      if e == QUOTE || e == SLASH || e == 47 then Some((e, 2))
      else if e == 98 then Some((8, 2))
      else if e == 102 then Some((12, 2))
      else if e == 110 then Some((10, 2))
      else if e == 114 then Some((13, 2))
      else if e == 116 then Some((9, 2))
      else if e == 117 && |s| >= 6 then
        var a, b, c, d := HexValue(s[2]), HexValue(s[3]), HexValue(s[4]), HexValue(s[5]);
        if a.Some? && b.Some? && c.Some? && d.Some?
        then Some((((a.value * 16 + b.value) * 16 + c.value) * 16 + d.value, 6))
        else None
      else None
  }

  /** A string body up to its closing quote: the value, and what follows the quote. */
  function ReadBody(s: Text): Option<(Text, Text)>
    decreases |s|
  {
    if s == [] then None
    else if s[0] == QUOTE then Some(([], s[1..]))
    else
      var c := ReadChar(s);
      if c.None? || c.value.1 > |s| then None
      else
        var rest := ReadBody(s[c.value.1..]);
        if rest.None? then None else Some(([c.value.0] + rest.value.0, rest.value.1))
  }

  lemma HexDigitReadsBack(d: int)
    requires 0 <= d < 16
    ensures HexValue(HexDigit(d)) == Some(d) && HexDigit(d) >= 0x20
  {
  }

  /** The escapes of the other control characters. */
  lemma HexEscapeReadsBack(c: Unit, rest: Text)
    requires c < 0x20
    ensures ReadChar([SLASH, 117] + Hex4(c) + rest) == Some((c, 6))
    ensures forall k :: 0 <= k < 4 ==> Hex4(c)[k] >= 0x20
  {
    hide HexDigit, HexValue;
    HexDigitReadsBack(0);
    HexDigitReadsBack(c / 16);
    HexDigitReadsBack(c % 16);
    var s := [SLASH, 117] + Hex4(c) + rest;
    assert s[0] == SLASH && s[1] == 117;
    assert s[2] == HexDigit(0) && s[3] == HexDigit(0) && s[4] == HexDigit(c / 16) && s[5] == HexDigit(c % 16);
  }

  lemma EscapedCharReadsBack(c: Unit, rest: Text)
    ensures var e := EscapeChar(c);
            && e != [] && e[0] != QUOTE
            && ReadChar(e + rest) == Some((c, |e|))
            && (forall k :: 0 <= k < |e| ==> e[k] >= 0x20)
  {
    if c < 0x20 && c != 10 && c != 13 && c != 9 {
      HexEscapeReadsBack(c, rest);
    } else {
      var e := EscapeChar(c);
      assert (e + rest)[..|e|] == e;
    }
  }

  /** The escaped string, closed by a quote and followed by anything, reads back as the original string
    * and stops at that quote. So an exported value can neither end its string early nor swallow what
    * follows it, and escaping is injective. */
  lemma {:induction false} EscapedReadsBack(s: Text, rest: Text)
    ensures ReadBody(Escaped(s) + [QUOTE] + rest) == Some((s, rest))
  {
    if s == [] {
      assert Escaped(s) + [QUOTE] + rest == [QUOTE] + rest;
      assert ([QUOTE] + rest)[1..] == rest;
    } else {
      var e, tail := EscapeChar(s[0]), Escaped(s[1..]) + [QUOTE] + rest;
      assert Escaped(s) + [QUOTE] + rest == e + tail;
      EscapedCharReadsBack(s[0], tail);
      assert (e + tail)[|e|..] == tail;
      EscapedReadsBack(s[1..], rest);
      assert s == [s[0]] + s[1..];
    }
  }

  /** No raw control character is left. */
  lemma {:induction false} NoRawControls(s: Text)
    ensures forall k :: 0 <= k < |Escaped(s)| ==> Escaped(s)[k] >= 0x20
  {
    if s != [] {
      EscapedCharReadsBack(s[0], []);
      NoRawControls(s[1..]);
    }
  }

  /** Nothing is escaped that could stand for itself. */
  lemma {:induction false} OnlySpecialsAreEscaped(s: Text)
    ensures |s| <= |Escaped(s)|
    ensures Escaped(s) == s <==> forall c <- s :: c >= 0x20 && c != QUOTE && c != SLASH
  {
    if s != [] {
      OnlySpecialsAreEscaped(s[1..]);
      assert s == [s[0]] + s[1..];
      var plain := s[0] >= 0x20 && s[0] != QUOTE && s[0] != SLASH;
      assert forall c :: c in s <==> c == s[0] || c in s[1..];
      if plain {
        assert Escaped(s)[1..] == Escaped(s[1..]);
      } else {
        assert |EscapeChar(s[0])| >= 2 && s[0] in s;
      }
    }
  }

  /** Line breaks and tabs have the short escapes. */
  lemma ShortEscapes()
    ensures Escaped([10]) == [SLASH, 'n' as int] && Escaped([13]) == [SLASH, 'r' as int]
    ensures Escaped([9]) == [SLASH, 't' as int]
  {
  }

  // ---------------------------------------------------------------- the attributes of a span

  datatype Attr = Attr(key: Text, value: Text)

  function Quoted(s: Text): Text {
    [QUOTE] + Escaped(s) + [QUOTE]
  }

  function PrintedAttr(a: Attr): Text {
    Quoted(a.key) + [COLON] + Quoted(a.value)
  }

  /** "key":"value" pairs separated by commas, as the exporter prints them. */
  function Printed(attrs: seq<Attr>): Text {
    if attrs == [] then []
    else if |attrs| == 1 then PrintedAttr(attrs[0])
    else PrintedAttr(attrs[0]) + [COMMA] + Printed(attrs[1..])
  }

  lemma {:induction false} PrintedSnoc(attrs: seq<Attr>, a: Attr)
    ensures Printed(attrs + [a]) == Printed(attrs) + (if attrs == [] then [] else [COMMA]) + PrintedAttr(a)
    decreases |attrs|
  {
    hide PrintedAttr;
    if attrs == [] {
      assert attrs + [a] == [a];
    } else {
      assert (attrs + [a])[1..] == attrs[1..] + [a];
      PrintedSnoc(attrs[1..], a);
      assert Printed(attrs + [a]) == PrintedAttr(attrs[0]) + [COMMA] + Printed(attrs[1..] + [a]);
      if |attrs| > 1 {
        assert Printed(attrs) == PrintedAttr(attrs[0]) + [COMMA] + Printed(attrs[1..]);
      }
    }
  }

  method AppendAttr(sb: StringBuilder, a: Attr)
    modifies sb
    ensures sb.text == old(sb.text) + PrintedAttr(a)
  {
    hide Escaped;
    ghost var before := sb.text;
    var key := Escape(Some(a.key));
    var value := Escape(Some(a.value));
    sb.Append([QUOTE]);
    sb.Append(key);
    sb.Append([QUOTE, COLON, QUOTE]);
    assert sb.text == before + (Quoted(a.key) + [COLON] + [QUOTE]);
    sb.Append(value);
    sb.Append([QUOTE]);
    assert sb.text == before + (Quoted(a.key) + [COLON] + Quoted(a.value));
  }

  /** The exporter's loop over the attributes, with its `first` flag. */
  method PrintAttrs(attrs: seq<Attr>) returns (r: Text)
    ensures r == Printed(attrs)
  {
    hide PrintedAttr;
    var sb := new StringBuilder([]);
    var first := true;
    for i := 0 to |attrs|
      invariant first <==> i == 0
      invariant sb.text == Printed(attrs[..i])
    {
      PrintedSnoc(attrs[..i], attrs[i]);
      assert attrs[..i + 1] == attrs[..i] + [attrs[i]];
      if !first {
        sb.Append([COMMA]);
      }
      first := false;
      AppendAttr(sb, attrs[i]);
    }
    assert attrs[..|attrs|] == attrs;
    r := sb.text;
  }

  function ReadQuoted(s: Text): Option<(Text, Text)> {
    if s == [] || s[0] != QUOTE then None else ReadBody(s[1..])
  }

  lemma ReadBodyShrinks(s: Text)
    ensures ReadBody(s).Some? ==> |ReadBody(s).value.1| < |s|
    decreases |s|
  {
    if s != [] && s[0] != QUOTE && ReadChar(s).Some? && ReadChar(s).value.1 <= |s| {
      ReadBodyShrinks(s[ReadChar(s).value.1..]);
    }
  }

  function ReadAttr(s: Text): (r: Option<(Attr, Text)>)
    ensures r.Some? ==> |r.value.1| < |s|
  {
    var k := ReadQuoted(s);
    if k.None? || k.value.1 == [] || k.value.1[0] != COLON then None
    else
      var v := ReadQuoted(k.value.1[1..]);
      if v.None? then None
      else
        ReadBodyShrinks(s[1..]);
        ReadBodyShrinks(k.value.1[1..][1..]);
        Some((Attr(k.value.0, v.value.0), v.value.1))
  }

  /** Reads pairs as long as commas follow; gives the pairs and what is left. */
  function ReadAttrs(s: Text): Option<(seq<Attr>, Text)>
    decreases |s|
  {
    var a := ReadAttr(s);
    if a.None? then None
    else if a.value.1 == [] || a.value.1[0] != COMMA then Some(([a.value.0], a.value.1))
    else
      var rest := ReadAttrs(a.value.1[1..]);
      if rest.None? then None else Some(([a.value.0] + rest.value.0, rest.value.1))
  }

  lemma QuotedReadsBack(s: Text, rest: Text)
    ensures ReadQuoted(Quoted(s) + rest) == Some((s, rest))
  {
    hide Escaped, ReadBody;
    assert (Quoted(s) + rest)[1..] == Escaped(s) + [QUOTE] + rest;
    EscapedReadsBack(s, rest);
  }

  lemma AttrReadsBack(a: Attr, rest: Text)
    ensures ReadAttr(PrintedAttr(a) + rest) == Some((a, rest))
  {
    hide Quoted, ReadQuoted;
    var afterKey := [COLON] + (Quoted(a.value) + rest);
    assert PrintedAttr(a) + rest == Quoted(a.key) + afterKey;
    QuotedReadsBack(a.key, afterKey);
    assert afterKey[1..] == Quoted(a.value) + rest;
    QuotedReadsBack(a.value, rest);
  }

  lemma ReadFirst(a: Attr, tail: Text, more: seq<Attr>, rest: Text)
    requires ReadAttrs(tail) == Some((more, rest))
    ensures ReadAttrs(PrintedAttr(a) + [COMMA] + tail) == Some(([a] + more, rest))
  {
    hide PrintedAttr, ReadAttr;
    AttrReadsBack(a, [COMMA] + tail);
    assert PrintedAttr(a) + [COMMA] + tail == PrintedAttr(a) + ([COMMA] + tail);
    assert ([COMMA] + tail)[1..] == tail;
  }

  lemma ReadLast(a: Attr, rest: Text)
    requires rest == [] || rest[0] != COMMA
    ensures ReadAttrs(PrintedAttr(a) + rest) == Some(([a], rest))
  {
    hide PrintedAttr, ReadAttr;
    AttrReadsBack(a, rest);
  }

  /** The printed attributes of any span, up to the closing brace, read back as the same pairs in the same
    * order, whatever is in the keys and values. */
  lemma {:induction false} AttrsReadBack(attrs: seq<Attr>, rest: Text)
    requires attrs != [] && (rest == [] || rest[0] != COMMA)
    ensures ReadAttrs(Printed(attrs) + rest) == Some((attrs, rest))
    decreases |attrs|
  {
    hide PrintedAttr, ReadAttrs;
    if |attrs| == 1 {
      ReadLast(attrs[0], rest);
      assert attrs == [attrs[0]];
    } else {
      var tail := Printed(attrs[1..]) + rest;
      assert Printed(attrs) + rest == PrintedAttr(attrs[0]) + [COMMA] + tail;
      AttrsReadBack(attrs[1..], rest);
      ReadFirst(attrs[0], tail, attrs[1..], rest);
      assert attrs == [attrs[0]] + attrs[1..];
    }
  }
}
