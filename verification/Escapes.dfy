/** The JSON and XML escapes of xtask/src/main.rs:1169-1219, against decoders written from section 7 of
    RFC 8259 and section 4.6 of XML 1.0. */
module Escapes {
  import opened Wrappers
  import opened Text

  // -- JSON: the writer -----------------------------------------------

  /** Rust's `char::is_control`: the code points U+0000-U+001F and U+007F-U+009F. */
  predicate IsControl(c: char) { (c as int) < 0x20 || 0x7F <= c as int < 0xA0 }

  function HexDigit(n: nat): char
    requires n < 16
  {
    if n < 10 then '0' + n as char else 'a' + (n - 10) as char
  }

  function EscapeChar(c: char): string {
    match c
    case '"' => ['\\', '"']
    case '\\' => ['\\', '\\']
    case '\n' => ['\\', 'n']
    case '\r' => ['\\', 'r']
    case '\t' => ['\\', 't']
    case _ =>
      if IsControl(c) then ['\\', 'u', '0', '0', HexDigit(c as int / 16), HexDigit(c as int % 16)] else [c]
  }

  /** Two characters for the five that have a short escape, six for the other control characters, with small hex
      digits, and every other character as it is. */
  lemma EscapeIsShortest(c: char)
    ensures
      var e, n := EscapeChar(c), c as int;
      if c == '"' || c == '\\' || n == 0x0A || n == 0x0D || n == 0x09 then |e| == 2
      else if n < 0x20 || 0x7F <= n <= 0x9F then |e| == 6 && forall k :: 0 <= k < 6 ==> !('A' <= e[k] <= 'Z')
      else e == [c]
  {
  }

  function Escaped(value: string): string {
    if value == [] then [] else EscapeChar(value[0]) + Escaped(value[1..])
  }

  lemma {:induction false} EscapedSnoc(value: string, c: char)
    ensures Escaped(value + [c]) == Escaped(value) + EscapeChar(c)
  {
    hide EscapeChar;
    if value == [] {
      assert value + [c] == [c] && [c][1..] == [];
    } else {
      assert (value + [c])[1..] == value[1..] + [c];
      EscapedSnoc(value[1..], c);
    }
  }

  method JsonEscape(value: string) returns (escaped: string)
    ensures escaped == Escaped(value)
  {
    hide Escaped;
    hide EscapeChar;
    escaped := "";
    EmptyEscapes();
    for i := 0 to |value|
      invariant escaped == Escaped(value[..i])
    {
      EscapedSnoc(value[..i], value[i]);
      assert value[..i + 1] == value[..i] + [value[i]];
      escaped := escaped + EscapeChar(value[i]);
    }
    assert value[..|value|] == value;
  }

  lemma EmptyEscapes()
    ensures Escaped("") == ""
  {
  }

  /** The elements of an array after the first, each with its separator. */
  function Tail(values: seq<string>): string {
    if values == [] then "" else [',', ' ', '"'] + Escaped(values[0]) + ['"'] + Tail(values[1..])
  }

  function ArrayText(values: seq<string>): string {
    if values == [] then ['[', ']'] else ['[', '"'] + Escaped(values[0]) + ['"'] + Tail(values[1..]) + [']']
  }

  /** What is written before the element of number `i`. */
  function Before(values: seq<string>, i: nat): string
    requires i <= |values|
  {
    if i == 0 then ['['] else ['[', '"'] + Escaped(values[0]) + ['"'] + Tail(values[1..i])
  }

  lemma BeforeSecond(values: seq<string>)
    requires values != []
    ensures Before(values, 1) == (['['] + ['"']) + Escaped(values[0]) + ['"']
  {
    hide Escaped;
    assert values[1..1] == [];
  }

  lemma Regroup(a: string, b: string, c: string, d: string, e: string)
    ensures a + (((b + c) + d) + e) == (a + b) + ((c + d) + e)
  {
    ConcatAssoc(b + c, d, e);
    ConcatAssoc(b, c, d + e);
    ConcatAssoc(c, d, e);
    ConcatAssoc(a, b, (c + d) + e);
  }

  lemma BeforeLater(values: seq<string>, i: nat)
    requires 0 < i < |values|
    ensures Before(values, i + 1) == Before(values, i) + ([',', ' ', '"'] + Escaped(values[i]) + ['"'])
  {
    TailSnoc(values[1..i], values[i]);
    hide Escaped; hide Tail;
    assert values[1..i + 1] == values[1..i] + [values[i]];
    var head := ['[', '"'] + Escaped(values[0]) + ['"'];
    Regroup(head, Tail(values[1..i]), [',', ' ', '"'], Escaped(values[i]), ['"']);
  }

  lemma WriteOne(out: string, escaped: string)
    ensures (((out + [',', ' ']) + ['"']) + escaped) + ['"'] == out + ([',', ' ', '"'] + escaped + ['"'])
  {
    ConcatAssoc(out, [',', ' '], ['"']);
    assert [',', ' '] + ['"'] == [',', ' ', '"'];
    ConcatAssoc(out, [',', ' ', '"'], escaped);
    ConcatAssoc(out, [',', ' ', '"'] + escaped, ['"']);
  }

  lemma BeforeNext(values: seq<string>, i: nat)
    requires i < |values|
    ensures
      Before(values, i + 1)
      == (((if i > 0 then Before(values, i) + [',', ' '] else Before(values, i)) + ['"']) + Escaped(values[i])) + ['"']
  {
    hide *;
    if i > 0 {
      BeforeLater(values, i);
      WriteOne(Before(values, i), Escaped(values[i]));
    } else {
      BeforeFirst(values);
      BeforeSecond(values);
    }
  }

  lemma BeforeEnd(values: seq<string>)
    ensures Before(values, |values|) + [']'] == ArrayText(values)
  {
    hide Escaped; hide Tail;
    if values != [] { assert values[1..|values|] == values[1..]; }
  }

  method JsonStringArray(values: seq<string>) returns (out: string)
    ensures out == ArrayText(values)
  {
    hide *;
    out := ['['];
    BeforeFirst(values);
    for i := 0 to |values|
      invariant out == Before(values, i)
    {
      BeforeNext(values, i);
      if i > 0 { out := out + [',', ' ']; }
      out := out + ['"'];
      var escaped := JsonEscape(values[i]);
      out := out + escaped;
      out := out + ['"'];
    }
    BeforeEnd(values);
    out := out + [']'];
  }

  lemma BeforeFirst(values: seq<string>)
    ensures Before(values, 0) == ['[']
  {
  }

  lemma {:induction false} TailSnoc(values: seq<string>, v: string)
    ensures Tail(values + [v]) == Tail(values) + [',', ' ', '"'] + Escaped(v) + ['"']
  {
    hide Escaped;
    if values == [] {
      assert values + [v] == [v] && [v][1..] == [];
    } else {
      assert (values + [v])[1..] == values[1..] + [v];
      TailSnoc(values[1..], v);
    }
  }

  // -- JSON: the reader -----------------------------------------------

  function HexValue(c: char): Option<nat> {
    if '0' <= c <= '9' then Some(c as int - '0' as int)
    else if 'a' <= c <= 'f' then Some(c as int - 'a' as int + 10)
    else if 'A' <= c <= 'F' then Some(c as int - 'A' as int + 10)
    else None
  }

  /** The character after a reverse solidus. */
  function SimpleEscape(c: char): Option<char> {
    match c
    case '"' => Some('"')
    case '\\' => Some('\\')
    case '/' => Some('/')
    case 'b' => Some(8 as char)
    case 'f' => Some(12 as char)
    case 'n' => Some(10 as char)
    case 'r' => Some(13 as char)
    case 't' => Some(9 as char)
    case _ => None
  }

  /** The first character of the contents of a JSON string, and how long its writing is. Four hex digits
      name a character of the basic plane; surrogate halves name none. */
  function ReadChar(s: string): Option<(char, nat)> {
    if s == [] || s[0] == '"' || (s[0] as int) < 0x20 then None
    else if s[0] != '\\' then Some((s[0], 1))
    else if |s| < 2 then None
    else if s[1] == 'u' then
      if |s| < 6 then None
      else
        var a, b, c, d := HexValue(s[2]), HexValue(s[3]), HexValue(s[4]), HexValue(s[5]);
        if a.None? || b.None? || c.None? || d.None? then None
        else
          var n := ((a.value * 16 + b.value) * 16 + c.value) * 16 + d.value;
          if n < 0xD800 || 0xE000 <= n < 0x10000 then Some((n as char, 6)) else None
    else
      var c := SimpleEscape(s[1]);
      if c.None? then None else Some((c.value, 2))
  }

  lemma ReadCharLength(s: string)
    ensures ReadChar(s).Some? ==> 0 < ReadChar(s).value.1 <= |s|
  {
    hide HexValue;
    hide SimpleEscape;
  }

  /** The contents of a string up to its closing quote, and what follows. */
  function ReadString(s: string): Option<(string, string)>
    decreases |s|
  {
    if s != [] && s[0] == '"' then Some(([], s[1..]))
    else
      var first := ReadChar(s);
      if first.None? then None
      else
        ReadCharLength(s);
        var rest := ReadString(s[first.value.1..]);
        if rest.None? then None else Some(([first.value.0] + rest.value.0, rest.value.1))
  }

  predicate IsJsonSpace(c: char) { c == ' ' || c == '\t' || c == '\n' || c == '\r' }

  function SkipSpace(s: string): (t: string)
    ensures |t| <= |s|
  {
    if s != [] && IsJsonSpace(s[0]) then SkipSpace(s[1..]) else s
  }

  lemma {:induction false} ReadStringShrinks(s: string)
    ensures ReadString(s).Some? ==> |ReadString(s).value.1| < |s|
    decreases |s|
  {
    hide ReadChar;
    if !(s != [] && s[0] == '"') && ReadChar(s).Some? {
      ReadCharLength(s);
      ReadStringShrinks(s[ReadChar(s).value.1..]);
    }
  }

  /** One string and the elements after it, up to the closing bracket. */
  function ReadElements(s: string): Option<(seq<string>, string)>
    decreases |s|
  {
    var t := SkipSpace(s);
    if t == [] || t[0] != '"' then None
    else
      var first := ReadString(t[1..]);
      if first.None? then None
      else
        ReadStringShrinks(t[1..]);
        var u := SkipSpace(first.value.1);
        if u == [] then None
        else if u[0] == ']' then Some(([first.value.0], u[1..]))
        else if u[0] != ',' then None
        else
          var rest := ReadElements(u[1..]);
          if rest.None? then None else Some(([first.value.0] + rest.value.0, rest.value.1))
  }

  /** The list of strings that a JSON text denotes, if it denotes one. */
  function ReadArray(s: string): Option<seq<string>> {
    var t := SkipSpace(s);
    if t == [] || t[0] != '[' then None
    else
      var u := SkipSpace(t[1..]);
      var read := if u != [] && u[0] == ']' then Some(([], u[1..])) else ReadElements(t[1..]);
      if read.Some? && SkipSpace(read.value.1) == [] then Some(read.value.0) else None
  }

  // -- JSON: reading what was written ---------------------------------

  lemma HexReads(n: nat)
    requires n < 16
    ensures HexValue(HexDigit(n)) == Some(n)
  {
  }

  lemma ReadsEscape(c: char, rest: string)
    ensures |EscapeChar(c)| > 0 && EscapeChar(c)[0] != '"'
    ensures ReadChar(EscapeChar(c) + rest) == Some((c, |EscapeChar(c)|))
  {
    var s := EscapeChar(c) + rest;
    if |EscapeChar(c)| == 6 {
      var n := c as int;
      HexReads(n / 16);
      HexReads(n % 16);
      assert s[2] == '0' && s[3] == '0' && s[4] == HexDigit(n / 16) && s[5] == HexDigit(n % 16);
      assert HexValue('0') == Some(0);
      hide HexValue; hide HexDigit;
      assert n as char == c;
    }
  }

  lemma ReadStringStep(first: string, c: char, others: string)
    requires first != [] && first[0] != '"' && ReadChar(first + others) == Some((c, |first|))
    ensures
      ReadString(first + others)
      == var rest := ReadString(others); if rest.None? then None else Some(([c] + rest.value.0, rest.value.1))
  {
    hide ReadChar;
    assert (first + others)[|first|..] == others;
  }

  lemma EscapedThen(value: string, after: string)
    requires value != []
    ensures Escaped(value) + after == EscapeChar(value[0]) + (Escaped(value[1..]) + after)
  {
    hide EscapeChar;
  }

  /** Reading stops at the first quote that the writer put there. */
  lemma {:induction false} ReadsEscaped(value: string, after: string)
    requires after != [] && after[0] == '"'
    ensures ReadString(Escaped(value) + after) == Some((value, after[1..]))
  {
    if value == [] {
      assert Escaped(value) + after == after;
    } else {
      hide *;
      var others := Escaped(value[1..]) + after;
      ReadsEscaped(value[1..], after);
      ReadsEscape(value[0], others);
      ReadStringStep(EscapeChar(value[0]), value[0], others);
      EscapedThen(value, after);
      assert value == [value[0]] + value[1..];
    }
  }

  /** The text of an element and the one after it. */
  function Elements(first: string, values: seq<string>): string {
    ['"'] + Escaped(first) + ['"'] + Tail(values) + [']']
  }

  lemma ReadsFirst(first: string, values: seq<string>)
    ensures
      var s := Elements(first, values);
      s != [] && s[0] == '"' && ReadString(s[1..]) == Some((first, Tail(values) + [']']))
  {
    hide Escaped; hide ReadString; hide Tail;
    var after := Tail(values) + [']'];
    assert Elements(first, values)[1..] == Escaped(first) + (['"'] + after);
    ReadsEscaped(first, ['"'] + after);
    assert (['"'] + after)[1..] == after;
  }

  lemma Peel(a: string, b: string, c: string, d: string, e: string, f: string)
    ensures ((((a + b) + c) + d) + e) + f == a + ((((b + c) + d) + e) + f)
  {
    ConcatAssoc(a, b, c);
    ConcatAssoc(a, b + c, d);
    ConcatAssoc(a, (b + c) + d, e);
    ConcatAssoc(a, ((b + c) + d) + e, f);
  }

  lemma TailCons(values: seq<string>)
    requires values != []
    ensures Tail(values) == [',', ' ', '"'] + Escaped(values[0]) + ['"'] + Tail(values[1..])
  {
    hide Escaped;
  }

  lemma TailIs(values: seq<string>)
    requires values != []
    ensures Tail(values) + [']'] == [','] + ([' '] + Elements(values[0], values[1..]))
  {
    TailCons(values);
    var e, t := Escaped(values[0]), Tail(values[1..]);
    hide Escaped; hide Tail;
    assert [',', ' ', '"'] == [','] + ([' '] + ['"']);
    Peel([','], [' '] + ['"'], e, ['"'], t, [']']);
    Peel([' '], ['"'], e, ['"'], t, [']']);
  }

  lemma {:induction false} ReadsElements(first: string, values: seq<string>)
    ensures ReadElements(Elements(first, values)) == Some(([first] + values, []))
    decreases |values|
  {
    ReadsFirst(first, values);
    var after := Tail(values) + [']'];
    hide ReadString; hide Escaped; hide Elements;
    if values == [] {
      assert after == [']'] && after[1..] == [];
      assert [first] + values == [first];
    } else {
      hide Tail;
      var next := Elements(values[0], values[1..]);
      TailIs(values);
      ReadsFirst(values[0], values[1..]);
      ReadsElements(values[0], values[1..]);
      SkippedSpace(next);
      assert after[1..] == [' '] + next;
      assert [values[0]] + values[1..] == values;
    }
  }

  lemma SkippedSpace(next: string)
    requires next != [] && next[0] == '"'
    ensures ReadElements([' '] + next) == ReadElements(next)
  {
    assert ([' '] + next)[1..] == next;
    assert SkipSpace([' '] + next) == SkipSpace(next) == next;
  }

  /** Every list of strings is read back from its JSON array. */
  lemma JsonArrayRoundTrip(values: seq<string>)
    ensures ReadArray(ArrayText(values)) == Some(values)
  {
    hide Escaped; hide ReadElements;
    var s := ArrayText(values);
    assert SkipSpace(s) == s;
    if values == [] {
      assert s[1..] == [']'] && [']'][1..] == [];
    } else {
      ReadsElements(values[0], values[1..]);
      assert s[1..] == Elements(values[0], values[1..]);
      assert [values[0]] + values[1..] == values;
    }
  }

  // -- XML: the writer ------------------------------------------------

  /** `str::replace` of one character. */
  function Replace(s: string, c: char, text: string): string {
    if s == [] then [] else (if s[0] == c then text else [s[0]]) + Replace(s[1..], c, text)
  }

  function XmlEscape(value: string): string {
    Replace(Replace(Replace(Replace(Replace(value,
      '&', Amp()), '<', Lt()), '>', Gt()), '"', Quot()), '\'', Apos())
  }

  function Amp(): string { "&amp;" }
  function Lt(): string { "&lt;" }
  function Gt(): string { "&gt;" }
  function Quot(): string { "&quot;" }
  function Apos(): string { "&apos;" }

  /** What one character is written as. */
  function XmlChar(c: char): string {
    match c
    case '&' => Amp()
    case '<' => Lt()
    case '>' => Gt()
    case '"' => Quot()
    case '\'' => Apos()
    case _ => [c]
  }

  function XmlMapped(value: string): string {
    if value == [] then [] else XmlChar(value[0]) + XmlMapped(value[1..])
  }

  lemma {:induction false} ReplaceConcat(a: string, b: string, c: char, text: string)
    ensures Replace(a + b, c, text) == Replace(a, c, text) + Replace(b, c, text)
  {
    if a == [] {
      assert a + b == b;
    } else {
      assert (a + b)[1..] == a[1..] + b;
      ReplaceConcat(a[1..], b, c, text);
    }
  }

  lemma {:induction false} ReplaceAbsent(s: string, c: char, text: string)
    requires c !in s
    ensures Replace(s, c, text) == s
  {
    if s != [] { ReplaceAbsent(s[1..], c, text); }
  }

  lemma ReplaceOne(x: char, c: char, text: string)
    ensures Replace([x], c, text) == if x == c then text else [x]
  {
    assert [x][1..] == [];
  }

  /** The chain distributes over concatenation. */
  lemma EscapeConcat(a: string, b: string)
    ensures XmlEscape(a + b) == XmlEscape(a) + XmlEscape(b)
  {
    hide Replace; hide Amp; hide Lt; hide Gt; hide Quot; hide Apos;
    var a1, b1 := Replace(a, '&', Amp()), Replace(b, '&', Amp());
    var a2, b2 := Replace(a1, '<', Lt()), Replace(b1, '<', Lt());
    var a3, b3 := Replace(a2, '>', Gt()), Replace(b2, '>', Gt());
    var a4, b4 := Replace(a3, '"', Quot()), Replace(b3, '"', Quot());
    ReplaceConcat(a, b, '&', Amp());
    ReplaceConcat(a1, b1, '<', Lt());
    ReplaceConcat(a2, b2, '>', Gt());
    ReplaceConcat(a3, b3, '"', Quot());
    ReplaceConcat(a4, b4, '\'', Apos());
  }

  /** Later replacements leave the text put in by earlier ones alone. */
  lemma EntitiesStay(e: string)
    requires e == Amp() || e == Lt() || e == Gt() || e == Quot() || e == Apos()
    ensures '<' !in e && '>' !in e && '"' !in e && '\'' !in e
  {
  }

  lemma EscapeOne(c: char)
    ensures XmlEscape([c]) == XmlChar(c)
  {
    hide Replace;
    hide Amp; hide Lt; hide Gt; hide Quot; hide Apos;
    var s1 := if c == '&' then Amp() else [c];
    var s2 := if c == '<' then Lt() else s1;
    var s3 := if c == '>' then Gt() else s2;
    var s4 := if c == '"' then Quot() else s3;
    EntitiesStay(Amp());
    EntitiesStay(Lt());
    EntitiesStay(Gt());
    EntitiesStay(Quot());
    ReplaceOne(c, '&', Amp());
    ReplaceOnly(s1, c, '<', Lt());
    ReplaceOnly(s2, c, '>', Gt());
    ReplaceOnly(s3, c, '"', Quot());
    ReplaceOnly(s4, c, '\'', Apos());
  }

  lemma ReplaceOnly(s: string, x: char, c: char, text: string)
    requires s == [x] || c !in s
    ensures Replace(s, c, text) == if s == [x] && x == c then text else s
  {
    if c !in s { ReplaceAbsent(s, c, text); } else { ReplaceOne(x, c, text); }
  }

  /** The five replacements one after the other are one simultaneous map of characters. */
  lemma {:induction false} ChainIsOneMap(value: string)
    ensures XmlEscape(value) == XmlMapped(value)
  {
    hide XmlEscape; hide XmlChar;
    if value == [] {
      EscapeNothing();
    } else {
      assert value == [value[0]] + value[1..];
      EscapeConcat([value[0]], value[1..]);
      EscapeOne(value[0]);
      ChainIsOneMap(value[1..]);
    }
  }

  lemma EscapeNothing()
    ensures XmlEscape("") == ""
  {
  }

  // -- XML: the reader ------------------------------------------------

  /** The first character of character data or of an attribute value in either quotes: one of the five
      predefined entities, or a character that is no markup. */
  function ReadXml(s: string): Option<(char, nat)> {
    if s == [] || s[0] in ['<', '>', '"', '\''] then None
    else if s[0] != '&' then Some((s[0], 1))
    else if Amp() <= s then Some(('&', |Amp()|))
    else if Lt() <= s then Some(('<', |Lt()|))
    else if Gt() <= s then Some(('>', |Gt()|))
    else if Quot() <= s then Some(('"', |Quot()|))
    else if Apos() <= s then Some(('\'', |Apos()|))
    else None
  }

  function XmlUnescape(s: string): Option<string>
    decreases |s|
  {
    if s == [] then Some([])
    else
      var first := ReadXml(s);
      if first.None? then None
      else
        var rest := XmlUnescape(s[first.value.1..]);
        if rest.None? then None else Some([first.value.0] + rest.value)
  }

  lemma ReadsXmlChar(c: char, rest: string)
    ensures XmlChar(c) != [] && ReadXml(XmlChar(c) + rest) == Some((c, |XmlChar(c)|))
  {
    var s := XmlChar(c) + rest;
    if |XmlChar(c)| > 1 {
      assert s[1] == XmlChar(c)[1] && s[2] == XmlChar(c)[2];
      assert s[..|XmlChar(c)|] == XmlChar(c);
    }
  }

  /** Every text is read back from its escape: what is written holds no markup, and each of its
      ampersands begins a predefined entity. */
  lemma {:induction false} XmlRoundTrip(value: string)
    ensures XmlUnescape(XmlEscape(value)) == Some(value)
  {
    hide XmlEscape; hide ReadXml; hide XmlChar;
    ChainIsOneMap(value);
    if value != [] {
      var first, others := XmlChar(value[0]), XmlMapped(value[1..]);
      ChainIsOneMap(value[1..]);
      XmlRoundTrip(value[1..]);
      ReadsXmlChar(value[0], others);
      assert (first + others)[|first|..] == others;
      assert value == [value[0]] + value[1..];
    }
  }

  /** The characters an XML 1.0 document may contain (section 2.2 of XML 1.0). */
  predicate IsXmlChar(c: char) {
    var n := c as int;
    n == 9 || n == 10 || n == 13 || 0x20 <= n <= 0xD7FF || 0xE000 <= n <= 0xFFFD || n >= 0x10000
  }

  predicate AllXmlChars(s: string) { forall i :: 0 <= i < |s| ==> IsXmlChar(s[i]) }

  lemma AllXmlCharsConcat(a: string, b: string)
    ensures AllXmlChars(a + b) <==> AllXmlChars(a) && AllXmlChars(b)
  {
    if AllXmlChars(a + b) {
      assert forall i :: 0 <= i < |a| ==> (a + b)[i] == a[i];
      assert forall i :: 0 <= i < |b| ==> (a + b)[|a| + i] == b[i];
    }
  }

  lemma XmlCharIsLegalIff(c: char)
    ensures AllXmlChars(XmlChar(c)) <==> IsXmlChar(c)
  {
    assert [c][0] == c;
  }

  /** Characters that no XML document may contain are passed through: what is written is legal exactly
      when the text was. */
  lemma {:induction false} XmlIsLegalIff(value: string)
    ensures AllXmlChars(XmlEscape(value)) <==> AllXmlChars(value)
  {
    hide XmlEscape; hide XmlChar; hide IsXmlChar;
    ChainIsOneMap(value);
    if value != [] {
      ChainIsOneMap(value[1..]);
      XmlIsLegalIff(value[1..]);
      XmlCharIsLegalIff(value[0]);
      AllXmlCharsConcat(XmlChar(value[0]), XmlMapped(value[1..]));
      AllXmlCharsConcat([value[0]], value[1..]);
      assert value == [value[0]] + value[1..] && [value[0]][0] == value[0];
    }
  }
}
