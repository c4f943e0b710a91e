/**
 The JSON grammar, in which the scan's two assumptions about a decoder and a
 printer hold: whatever the layout and the escapes, what is printed is read back.
 */
module Grammar {
  import opened Basics
  import opened Extraction
  import opened JsonValues

  /** Where a layout may put blanks. */
  datatype Spot = Opening | BeforeColon | AfterColon | BeforeComma | AfterComma | Closing

  /** The blanks at each spot of each nesting depth, and the characters that are escaped although they need not be. */
  datatype Style = Style(gap: (Spot, nat) -> string, escaped: char -> bool)

  predicate Blank(c: char) {
    c == ' ' || c == '\t' || c == '\n' || c == '\r'
  }

  predicate Blanks(s: string) {
    forall i | 0 <= i < |s| :: Blank(s[i])
  }

  ghost predicate Neat(style: Style) {
    forall spot, depth :: Blanks(style.gap(spot, depth))
  }

  // -------------------------------------------------------------- escapes

  const HEX_DIGITS := "0123456789abcdef"

  function HexDigit(n: nat): char
    requires n < 16
  {
    HEX_DIGITS[n]
  }

  function HexValue(c: char): Option<nat> {
    if '0' <= c <= '9' then Some((c - '0') as nat)
    else if 'a' <= c <= 'f' then Some((c - 'a') as nat + 10)
    else if 'A' <= c <= 'F' then Some((c - 'A') as nat + 10)
    else None
  }

  function Hex4(n: nat): (s: string)
    requires n < 0x10000
    ensures |s| == 4
  {
    [HexDigit(n / 4096), HexDigit(n / 256 % 16), HexDigit(n / 16 % 16), HexDigit(n % 16)]
  }

  /** The letter that stands for a control character after a backslash. */
  function ShortEscape(c: char): Option<char> {
    if c == '\U{8}' then Some('b')
    else if c == '\U{c}' then Some('f')
    else if c == '\n' then Some('n')
    else if c == '\r' then Some('r')
    else if c == '\t' then Some('t')
    else None
  }

  function Meaning(letter: char): Option<char> {
    if letter == 'b' then Some('\U{8}')
    else if letter == 'f' then Some('\U{c}')
    else if letter == 'n' then Some('\n')
    else if letter == 'r' then Some('\r')
    else if letter == 't' then Some('\t')
    else if letter == '"' || letter == '\\' || letter == '/' then Some(letter)
    else None
  }

  /** Quotes and backslashes are escaped, control characters too, others as the style has it. */
  function CharText(style: Style, c: char): (s: string)
    ensures s != ""
  {
    if c == '"' || c == '\\' then ['\\', c]
    else if ShortEscape(c).Some? then ['\\', ShortEscape(c).value]
    else if c < ' ' || (style.escaped(c) && c as int < 0x10000) then "\\u" + Hex4(c as int)
    else [c]
  }

  /** What each escape in a string literal is read as; every other letter after a backslash is refused. */
  lemma EscapesAreRead(letter: char, rest: string)
    requires letter != 'u'
    ensures ReadChar(['\\', letter] + rest, 0)
            == match letter
               case 'b' => Some(('\U{8}', 2))
               case 'f' => Some(('\U{c}', 2))
               case 'n' => Some(('\n', 2))
               case 'r' => Some(('\r', 2))
               case 't' => Some(('\t', 2))
               case _ => if letter in "\"\\/" then Some((letter, 2)) else None
  {
  }

  /** Hexadecimal digits count in either case. */
  lemma HexadecimalIsRead(n: nat, c: char)
    requires n < 16
    ensures HexValue(c) == Some(n) <==> c == "0123456789abcdef"[n] || c == "0123456789ABCDEF"[n]
  {
  }

  function Escaped(style: Style, s: string): string {
    if s == "" then "" else CharText(style, s[0]) + Escaped(style, s[1..])
  }

  /** The rest of a string literal, after its opening quote. */
  function Literal(style: Style, s: string): string {
    Escaped(style, s) + "\""
  }

  /** Four hexadecimal digits, unless they denote half a surrogate pair. */
  function ReadHex(text: string, i: nat): Option<char>
    requires i + 4 <= |text|
  {
    var a, b := HexValue(text[i]), HexValue(text[i + 1]);
    var c, d := HexValue(text[i + 2]), HexValue(text[i + 3]);
    if a == None || b == None || c == None || d == None then None
    else
      var n := 4096 * a.value + 256 * b.value + 16 * c.value + d.value;
      if 0xD800 <= n < 0xE000 || n >= 0x10000 then None else Some(n as char)
  }

  /** One character of a string literal, and where the next one starts. */
  function ReadChar(text: string, i: nat): (r: Option<(char, nat)>)
    requires i < |text|
    ensures r.Some? ==> i < r.value.1 <= |text|
  {
    if text[i] < ' ' then None
    else if text[i] != '\\' then Some((text[i], i + 1))
    else if i + 1 >= |text| then None
    else if text[i + 1] != 'u' then
      var c := Meaning(text[i + 1]);
      if c == None then None else Some((c.value, i + 2))
    else if i + 6 > |text| then None
    else
      var c := ReadHex(text, i + 2);
      if c == None then None else Some((c.value, i + 6))
  }

  /** The string literal whose opening quote stands before i, and where it ends. */
  function ReadLiteral(text: string, i: nat): (r: Option<(string, nat)>)
    ensures r.Some? ==> i < r.value.1 <= |text|
    decreases |text| - i
  {
    if i >= |text| then None
    else if text[i] == '"' then Some(("", i + 1))
    else
      var c := ReadChar(text, i);
      if c == None then None
      else
        var rest := ReadLiteral(text, c.value.1);
        if rest == None then None else Some(([c.value.0] + rest.value.0, rest.value.1))
  }

  // ------------------------------------------------------------------ printing

  /** The elements of a set, in some order. */
  ghost function Listing(keys: set<string>): (ks: seq<string>)
    ensures forall k :: k in ks <==> k in keys
    ensures forall i, j | 0 <= i < j < |ks| :: ks[i] != ks[j]
  {
    if keys == {} then []
    else
      var k :| k in keys;
      [k] + Listing(keys - {k})
  }

  function Quoted(style: Style, s: string): string {
    "\"" + Literal(style, s)
  }

  /** A key in quotes, a colon and a value. */
  function Member(style: Style, depth: nat, k: string, value: string): string {
    Quoted(style, k) + (style.gap(BeforeColon, depth) + (":" + (style.gap(AfterColon, depth) + value)))
  }

  /** Parts with a separator between them, and what closes them. */
  function Listed(sep: string, tail: string, parts: seq<string>): string {
    if parts == [] then tail
    else parts[0] + if |parts| == 1 then tail else sep + Listed(sep, tail, parts[1..])
  }

  function Open(keyed: bool): char {
    if keyed then '{' else '['
  }

  function Close(keyed: bool): char {
    if keyed then '}' else ']'
  }

  /** How entries are set apart and closed: blanks around a comma, and before the bracket. */
  datatype Layout = Layout(before: string, after: string, last: string, close: char)
  {
    function Sep(): string {
      before + ("," + after)
    }

    function Tail(): string {
      last + [close]
    }

    predicate Valid() {
      Delimits(before, ',') && Blanks(after) && Delimits(last, close) && close != ','
    }
  }

  /** Blanks before a character that is neither blank nor bare. */
  predicate Delimits(blanks: string, c: char) {
    Blanks(blanks) && !Blank(c) && !BareChar(c)
  }

  function LayoutAt(style: Style, depth: nat, keyed: bool): Layout {
    Layout(style.gap(BeforeComma, depth), style.gap(AfterComma, depth), style.gap(Closing, depth), Close(keyed))
  }

  /** Without parts, nothing but blanks stands between the brackets. */
  function Bracketed(style: Style, depth: nat, keyed: bool, parts: seq<string>): string {
    var l := LayoutAt(style, depth, keyed);
    [Open(keyed)] + (style.gap(Opening, depth) + if parts == [] then [l.close] else Listed(l.Sep(), l.Tail(), parts))
  }

  /** Objects stand in braces and arrays in brackets. */
  lemma BracketsAre(style: Style, depth: nat, keyed: bool, parts: seq<string>)
    ensures var s := Bracketed(style, depth, keyed, parts);
            |s| >= 2 && s[0] == (if keyed then '{' else '[') && s[|s| - 1] == if keyed then '}' else ']'
  {
    var l := LayoutAt(style, depth, keyed);
    if parts != [] {
      ListedIsClosed(l.Sep(), l.last, l.close, parts);
    }
  }

  lemma {:induction false} ListedIsClosed(sep: string, last: string, close: char, parts: seq<string>)
    ensures var s := Listed(sep, last + [close], parts);
            s != [] && s[|s| - 1] == close
  {
    if |parts| > 1 {
      ListedIsClosed(sep, last, close, parts[1..]);
    }
  }

  /** A value in a style, with the members of an object in some order. */
  ghost function Print(style: Style, v: Json, depth: nat): string
    decreases v, 1
  {
    match v
    case Atom(word) => word
    case Str(text) => Quoted(style, text)
    case Arr(items) => Bracketed(style, depth, false, Items(style, v, depth))
    case Obj(members) => Bracketed(style, depth, true, Members(style, v, depth, Listing(members.Keys)))
  }

  ghost function Items(style: Style, v: Json, depth: nat): (parts: seq<string>)
    requires v.Arr?
    ensures |parts| == |v.items|
    decreases v, 0
  {
    seq(|v.items|, i requires 0 <= i < |v.items| => Print(style, v.items[i], depth + 1))
  }

  ghost function Members(style: Style, v: Json, depth: nat, ks: seq<string>): (parts: seq<string>)
    requires v.Obj? && forall k | k in ks :: k in v.members
    ensures |parts| == |ks|
    decreases v, 0
  {
    seq(|ks|, i requires 0 <= i < |ks| =>
      assert ks[i] in ks;
      Member(style, depth, ks[i], Print(style, v.members[ks[i]], depth + 1)))
  }

  // ------------------------------------------------------------------ decoding

  function Skip(text: string, i: nat): (j: nat)
    requires i <= |text|
    ensures i <= j <= |text| && (j < |text| ==> !Blank(text[j])) && forall k | i <= k < j :: Blank(text[k])
    decreases |text| - i
  {
    if i < |text| && Blank(text[i]) then Skip(text, i + 1) else i
  }

  function BareEnd(text: string, i: nat): (j: nat)
    requires i <= |text|
    ensures i <= j <= |text| && (j < |text| ==> !BareChar(text[j])) && forall k | i <= k < j :: BareChar(text[k])
    decreases |text| - i
  {
    if i < |text| && BareChar(text[i]) then BareEnd(text, i + 1) else i
  }

  /** An element of an array, or a member of an object. */
  datatype Entry = Entry(key: string, value: Json)

  function Built(entries: seq<Entry>): map<string, Json> {
    if entries == [] then map[] else map[entries[0].key := entries[0].value] + Built(entries[1..])
  }

  function ValuesOf(entries: seq<Entry>): (vs: seq<Json>)
    ensures |vs| == |entries| && forall i | 0 <= i < |vs| :: vs[i] == entries[i].value
  {
    seq(|entries|, i requires 0 <= i < |entries| => entries[i].value)
  }

  function Composed(keyed: bool, entries: seq<Entry>): Json {
    if keyed then Obj(Built(entries)) else Arr(ValuesOf(entries))
  }

  /** A key in quotes and a colon, and where the value starts. */
  function ReadKey(text: string, i: nat): (r: Option<(string, nat)>)
    ensures r.Some? ==> i < r.value.1 <= |text| && text[i] == '"'
  {
    if i >= |text| || text[i] != '"' then None
    else
      var k := ReadLiteral(text, i + 1);
      if k == None then None
      else
        var colon := Skip(text, k.value.1);
        if colon < |text| && text[colon] == ':' then Some((k.value.0, Skip(text, colon + 1))) else None
  }

  /** What follows an entry: the closing bracket, or a comma and another entry. */
  datatype Next = Done(end: nat) | More(at: nat) | Neither

  function Following(text: string, i: nat, close: char): (next: Next)
    requires i <= |text|
    ensures next.Done? ==> i < next.end <= |text|
    ensures next.More? ==> i < next.at <= |text|
  {
    var j := Skip(text, i);
    if j < |text| && text[j] == close then Done(j + 1)
    else if j < |text| && text[j] == ',' then More(Skip(text, j + 1))
    else Neither
  }

  function Read(text: string, i: nat): (r: Option<Parse>)
    ensures r.Some? ==> i < r.value.end <= |text|
    ensures r.Some? && text[i] == '{' ==> r.value.value.Obj?
    decreases |text| - i, 0
  {
    if i >= |text| then None
    else if text[i] == '"' then
      var s := ReadLiteral(text, i + 1);
      if s == None then None else Some(Parse(Str(s.value.0), s.value.1))
    else if text[i] == '{' || text[i] == '[' then
      var keyed := text[i] == '{';
      var j := Skip(text, i + 1);
      if j < |text| && text[j] == Close(keyed) then Some(Parse(Composed(keyed, []), j + 1))
      else
        var entries := ReadEntries(text, j, keyed);
        if entries == None then None else Some(Parse(Composed(keyed, entries.value.0), entries.value.1))
    else
      var end := BareEnd(text, i);
      if IsAtom(text[i..end]) then Some(Parse(Atom(text[i..end]), end)) else None
  }

  /** An element, or a key and its value. */
  function ReadEntry(text: string, i: nat, keyed: bool): (r: Option<(Entry, nat)>)
    ensures r.Some? ==> i < r.value.1 <= |text|
    decreases |text| - i, 1
  {
    var k := if keyed then ReadKey(text, i) else Some(("", i));
    if k == None then None
    else
      var v := Read(text, k.value.1);
      if v == None then None else Some((Entry(k.value.0, v.value.value), v.value.end))
  }

  /** The entries up to the closing bracket. */
  function ReadEntries(text: string, i: nat, keyed: bool): (r: Option<(seq<Entry>, nat)>)
    ensures r.Some? ==> i < r.value.1 <= |text|
    decreases |text| - i, 2
  {
    var one := ReadEntry(text, i, keyed);
    if one == None then None
    else
      match Following(text, one.value.1, Close(keyed))
      case Done(end) => Some(([one.value.0], end))
      case More(at) =>
        var rest := ReadEntries(text, at, keyed);
        if rest == None then None else Some(([one.value.0] + rest.value.0, rest.value.1))
      case Neither => None
  }

  // ---------------------------------------------------------------- round trip

  /** A string stands in a text at a position. */
  predicate At(text: string, i: nat, s: string) {
    i + |s| <= |text| && text[i..i + |s|] == s
  }

  /** No number or word goes on at this position. */
  predicate Ends(text: string, p: nat) {
    p < |text| && !BareChar(text[p])
  }

  lemma AtSplit(text: string, i: nat, a: string, b: string)
    requires At(text, i, a + b)
    ensures At(text, i, a) && At(text, i + |a|, b)
  {
    assert text[i..i + |a + b|][..|a|] == text[i..i + |a|];
    assert text[i..i + |a + b|][|a|..] == text[i + |a|..i + |a| + |b|];
  }

  lemma AtChar(text: string, i: nat, s: string)
    requires At(text, i, s) && s != ""
    ensures i < |text| && text[i] == s[0]
  {
    assert text[i..i + |s|][0] == text[i];
  }

  lemma AtIndex(text: string, i: nat, s: string, k: nat)
    requires At(text, i, s) && k < |s|
    ensures text[i + k] == s[k]
  {
    assert text[i..i + |s|][k] == text[i + k];
  }

  lemma HexDigitReads(n: nat)
    requires n < 16
    ensures HexValue(HexDigit(n)) == Some(n)
  {
  }

  lemma HexDigitsAddUp(n: nat)
    requires n < 0x10000
    ensures 4096 * (n / 4096) + 256 * (n / 256 % 16) + 16 * (n / 16 % 16) + n % 16 == n
    ensures n / 4096 < 16
  {
    assert n / 256 == n / 16 / 16 && n / 4096 == n / 256 / 16;
  }

  lemma Hex4Reads(text: string, i: nat, c: char)
    requires c as int < 0x10000 && At(text, i, Hex4(c as int))
    ensures ReadHex(text, i) == Some(c)
  {
    hide HexValue, HexDigit, At;
    var n := c as int;
    var s := Hex4(n);
    HexDigitsAddUp(n);
    HexDigitReads(n / 4096);
    HexDigitReads(n / 256 % 16);
    HexDigitReads(n / 16 % 16);
    HexDigitReads(n % 16);
    AtIndex(text, i, s, 0);
    AtIndex(text, i, s, 1);
    AtIndex(text, i, s, 2);
    AtIndex(text, i, s, 3);
  }

  lemma CharReadsBack(style: Style, text: string, i: nat, c: char)
    requires At(text, i, CharText(style, c))
    ensures i < |text| && text[i] != '"' && ReadChar(text, i) == Some((c, i + |CharText(style, c)|))
  {
    var s := CharText(style, c);
    AtChar(text, i, s);
    if |s| > 1 {
      AtIndex(text, i, s, 1);
      if |s| == 6 {
        assert s == "\\u" + Hex4(c as int);
        AtSplit(text, i, "\\u", Hex4(c as int));
        Hex4Reads(text, i + 2, c);
      }
    }
  }

  lemma FirstCharStands(style: Style, text: string, i: nat, s: string, literal: string)
    returns (next: nat, rest: string)
    requires s != "" && literal == Literal(style, s) && At(text, i, literal)
    ensures rest == Literal(style, s[1..]) && At(text, next, rest) && next + |rest| == i + |literal|
    ensures i < |text| && text[i] != '"' && ReadChar(text, i) == Some((s[0], next))
  {
    hide At, ReadChar, CharText;
    var c := CharText(style, s[0]);
    next, rest := i + |c|, Literal(style, s[1..]);
    assert literal == c + rest;
    AtSplit(text, i, c, rest);
    CharReadsBack(style, text, i, s[0]);
  }

  lemma LiteralStep(text: string, i: nat, s: string, next: nat, end: nat)
    requires s != "" && i < |text| && text[i] != '"' && ReadChar(text, i) == Some((s[0], next))
    requires ReadLiteral(text, next) == Some((s[1..], end))
    ensures ReadLiteral(text, i) == Some((s, end))
  {
    assert s == [s[0]] + s[1..];
  }

  lemma EmptyLiteral(style: Style, text: string, i: nat, literal: string)
    requires literal == Literal(style, "") && At(text, i, literal)
    ensures ReadLiteral(text, i) == Some(("", i + |literal|))
  {
    AtChar(text, i, "\"");
  }

  lemma {:induction false} LiteralReadsBack(style: Style, text: string, i: nat, s: string, literal: string)
    requires literal == Literal(style, s) && At(text, i, literal)
    ensures ReadLiteral(text, i) == Some((s, i + |literal|))
    decreases |s|
  {
    hide *;
    if s == "" {
      EmptyLiteral(style, text, i, literal);
    } else {
      var next, rest := FirstCharStands(style, text, i, s, literal);
      LiteralReadsBack(style, text, next, s[1..], rest);
      LiteralStep(text, i, s, next, i + |literal|);
    }
  }

  lemma StringReadsBack(style: Style, text: string, i: nat, s: string)
    requires At(text, i, Quoted(style, s))
    ensures i < |text| && text[i] == '"'
    ensures ReadLiteral(text, i + 1) == Some((s, i + |Quoted(style, s)|))
  {
    hide ReadLiteral, Literal, At;
    AtSplit(text, i, "\"", Literal(style, s));
    AtChar(text, i, "\"");
    LiteralReadsBack(style, text, i + 1, s, Literal(style, s));
  }

  lemma {:induction false} SkipsTo(text: string, i: nat, j: nat)
    requires i <= j < |text| && !Blank(text[j]) && forall k | i <= k < j :: Blank(text[k])
    ensures Skip(text, i) == j
    decreases j - i
  {
    if i < j {
      SkipsTo(text, i + 1, j);
    }
  }

  /** Blanks are skipped up to what follows them. */
  lemma SkipsBlanks(text: string, i: nat, blanks: string, after: string)
    requires Blanks(blanks) && after != "" && !Blank(after[0]) && At(text, i, blanks + after)
    ensures Skip(text, i) == i + |blanks| && At(text, i + |blanks|, after)
    ensures i + |blanks| < |text| && text[i + |blanks|] == after[0]
  {
    AtSplit(text, i, blanks, after);
    AtChar(text, i + |blanks|, after);
    forall k | i <= k < i + |blanks| ensures Blank(text[k]) {
      AtIndex(text, i, blanks, k - i);
    }
    SkipsTo(text, i, i + |blanks|);
  }

  lemma {:induction false} BareEndsAt(text: string, i: nat, j: nat)
    requires i <= j && Ends(text, j) && forall k | i <= k < j :: BareChar(text[k])
    ensures BareEnd(text, i) == j
    decreases j - i
  {
    if i < j {
      BareEndsAt(text, i + 1, j);
    }
  }

  lemma AtomIsBare(word: Bare)
    ensures word != "" && AllBare(word)
  {
  }

  lemma AtomStands(text: string, i: nat, word: Bare)
    requires At(text, i, word) && Ends(text, i + |word|)
    ensures i < |text| && BareChar(text[i]) && BareEnd(text, i) == i + |word| && text[i..i + |word|] == word
  {
    hide BareEnd, BareChar, IsAtom, Ends;
    AtomIsBare(word);
    forall k | i <= k < i + |word| ensures BareChar(text[k]) {
      AtIndex(text, i, word, k - i);
    }
    BareEndsAt(text, i, i + |word|);
  }

  lemma AtomReadsBack(text: string, i: nat, word: Bare)
    requires At(text, i, word) && Ends(text, i + |word|)
    ensures Read(text, i) == Some(Parse(Atom(word), i + |word|))
  {
    hide *;
    AtomStands(text, i, word);
    AtomStep(text, i, word, i + |word|);
  }

  lemma AtomStep(text: string, i: nat, word: Bare, end: nat)
    requires i < |text| && BareChar(text[i]) && BareEnd(text, i) == end && text[i..end] == word
    ensures Read(text, i) == Some(Parse(Atom(word), end))
  {
  }

  /** Starts with neither a blank nor a closing bracket: what is printed for a value or a member does. */
  predicate Solid(s: string) {
    s != "" && !Blank(s[0]) && s[0] != ']' && s[0] != '}'
  }

  lemma ColonStands(text: string, end: nat, before: string, after: string, value: string)
    requires Blanks(before) && Blanks(after) && Solid(value)
    requires At(text, end, before + (":" + (after + value)))
    ensures var colon := end + |before|;
            && Skip(text, end) == colon < |text| && text[colon] == ':'
            && Skip(text, colon + 1) == colon + 1 + |after| && At(text, colon + 1 + |after|, value)
  {
    hide Skip, At;
    SkipsBlanks(text, end, before, ":" + (after + value));
    AtSplit(text, end + |before|, ":", after + value);
    SkipsBlanks(text, end + |before| + 1, after, value);
  }

  lemma KeyStands(text: string, i: nat, style: Style, k: string, quoted: string, before: string, after: string,
                  value: string)
    requires Blanks(before) && Blanks(after) && Solid(value) && quoted == Quoted(style, k)
    requires At(text, i, quoted + (before + (":" + (after + value))))
    ensures var at := i + |quoted| + |before| + 1 + |after|;
            At(text, at, value) && ReadKey(text, i) == Some((k, at))
  {
    hide *;
    AtSplit(text, i, quoted, before + (":" + (after + value)));
    StringReadsBack(style, text, i, k);
    ColonStands(text, i + |quoted|, before, after, value);
    KeyStep(text, i, k, i + |quoted|, i + |quoted| + |before|);
  }

  lemma MemberStands(style: Style, depth: nat, text: string, i: nat, k: string, value: string, part: string)
    returns (at: nat)
    requires Neat(style) && Solid(value) && part == Member(style, depth, k, value) && At(text, i, part)
    ensures at + |value| == i + |part| && At(text, at, value) && ReadKey(text, i) == Some((k, at))
  {
    var before, after := style.gap(BeforeColon, depth), style.gap(AfterColon, depth);
    KeyStands(text, i, style, k, Quoted(style, k), before, after, value);
    at := i + |part| - |value|;
  }

  lemma KeyStep(text: string, i: nat, k: string, end: nat, colon: nat)
    requires i < |text| && text[i] == '"' && ReadLiteral(text, i + 1) == Some((k, end))
    requires end <= |text| && Skip(text, end) == colon < |text| && text[colon] == ':'
    ensures ReadKey(text, i) == Some((k, Skip(text, colon + 1)))
  {
  }

  /** A member is read if its value is. */
  lemma MemberIsRead(text: string, i: nat, k: string, at: nat, v: Json, end: nat)
    requires ReadKey(text, i) == Some((k, at)) && Read(text, at) == Some(Parse(v, end))
    ensures ReadEntry(text, i, true) == Some((Entry(k, v), end))
  {
  }

  /** Reading one entry at a position, or all up to the closing bracket. */
  type EntryReader = nat -> Option<(Entry, nat)>

  type EntriesReader = nat -> Option<(seq<Entry>, nat)>

  /** How all entries are read, given how one is. */
  ghost predicate ReadsInTurn(text: string, close: char, one: EntryReader, all: EntriesReader) {
    forall i: nat :: ReadsOn(text, close, one, all, i)
  }

  /** After an entry comes the end, or a comma and the other entries. */
  ghost predicate ReadsOn(text: string, close: char, one: EntryReader, all: EntriesReader, i: nat) {
    one(i).Some? && one(i).value.1 <= |text| ==>
      match Following(text, one(i).value.1, close)
      case Done(end) => all(i) == Some(([one(i).value.0], end))
      case More(at) => all(at).Some? ==> all(i) == Some(([one(i).value.0] + all(at).value.0, all(at).value.1))
      case Neither => true
  }

  function OneOf(text: string, keyed: bool): EntryReader {
    (i: nat) => ReadEntry(text, i, keyed)
  }

  function AllOf(text: string, keyed: bool): EntriesReader {
    (i: nat) => ReadEntries(text, i, keyed)
  }

  lemma EntriesInTurn(text: string, keyed: bool)
    ensures ReadsInTurn(text, Close(keyed), OneOf(text, keyed), AllOf(text, keyed))
  {
    forall i: nat ensures ReadsOn(text, Close(keyed), OneOf(text, keyed), AllOf(text, keyed), i) {
      EntryThenRest(text, keyed, i);
    }
  }

  lemma EntryThenRest(text: string, keyed: bool, i: nat)
    ensures ReadsOn(text, Close(keyed), OneOf(text, keyed), AllOf(text, keyed), i)
  {
  }

  /** Wherever a part stands in the text, it is read as its entry. */
  ghost predicate PartIsRead(text: string, one: EntryReader, part: string, entry: Entry) {
    Solid(part) && forall j: nat | At(text, j, part) && Ends(text, j + |part|) :: one(j) == Some((entry, j + |part|))
  }

  ghost predicate PartsAreRead(text: string, one: EntryReader, parts: seq<string>, entries: seq<Entry>) {
    |parts| == |entries| && forall n | 0 <= n < |parts| :: PartIsRead(text, one, parts[n], entries[n])
  }

  /** What stands after such blanks is found, and no number or word reaches into it. */
  lemma DelimiterIsFound(text: string, i: nat, blanks: string, c: char, after: string)
    requires Delimits(blanks, c) && At(text, i, blanks + ([c] + after))
    ensures Ends(text, i) && Skip(text, i) == i + |blanks|
    ensures i + |blanks| < |text| && text[i + |blanks|] == c && At(text, i + |blanks| + 1, after)
  {
    SkipsBlanks(text, i, blanks, [c] + after);
    AtSplit(text, i + |blanks|, [c], after);
    AtChar(text, i, blanks + ([c] + after));
  }

  lemma {:induction false} EntriesReadBack(text: string, one: EntryReader, all: EntriesReader,
                                           i: nat, l: Layout, parts: seq<string>, listed: string, entries: seq<Entry>)
    requires ReadsInTurn(text, l.close, one, all) && PartsAreRead(text, one, parts, entries)
    requires l.Valid() && parts != [] && listed == Listed(l.Sep(), l.Tail(), parts) && At(text, i, listed)
    ensures all(i) == Some((entries, i + |listed|))
    decreases |parts|
  {
    hide *;
    if |parts| == 1 {
      OnlyEntry(text, one, all, i, l, parts, listed, entries);
    } else {
      var at, rest := FirstOfSeveral(text, i, l, parts, listed, one, entries);
      EntriesReadBack(text, one, all, at, l, parts[1..], rest, entries[1..]);
      NextEntry(text, one, all, i, l, parts, entries, at, i + |listed|);
    }
  }

  lemma OnlyEntry(text: string, one: EntryReader, all: EntriesReader, i: nat,
                  l: Layout, parts: seq<string>, listed: string, entries: seq<Entry>)
    requires ReadsInTurn(text, l.close, one, all) && PartsAreRead(text, one, parts, entries) && l.Valid()
    requires |parts| == 1 && listed == Listed(l.Sep(), l.Tail(), parts) && At(text, i, listed)
    ensures all(i) == Some((entries, i + |listed|))
  {
    assert PartIsRead(text, one, parts[0], entries[0]) && ReadsOn(text, l.close, one, all, i);
    EntryIsLast(text, l.close, one, all, i, parts[0], entries, l.last);
  }

  lemma NextEntry(text: string, one: EntryReader, all: EntriesReader, i: nat,
                  l: Layout, parts: seq<string>, entries: seq<Entry>, at: nat, end: nat)
    requires ReadsInTurn(text, l.close, one, all) && PartsAreRead(text, one, parts, entries) && parts != []
    requires At(text, i, parts[0]) && Ends(text, i + |parts[0]|)
    requires Following(text, i + |parts[0]|, l.close) == More(at) && all(at) == Some((entries[1..], end))
    ensures all(i) == Some((entries, end))
  {
    assert PartIsRead(text, one, parts[0], entries[0]) && ReadsOn(text, l.close, one, all, i);
    EntryIsNext(text, l.close, one, all, i, parts[0], at, entries, end);
  }

  lemma FirstOfSeveral(text: string, i: nat, l: Layout, parts: seq<string>, listed: string,
                       one: EntryReader, entries: seq<Entry>) returns (at: nat, rest: string)
    requires l.Valid() && |parts| > 1 && listed == Listed(l.Sep(), l.Tail(), parts) && At(text, i, listed)
    requires PartsAreRead(text, one, parts, entries)
    ensures |entries| == |parts| && rest == Listed(l.Sep(), l.Tail(), parts[1..]) && at + |rest| == i + |listed|
    ensures At(text, i, parts[0]) && Ends(text, i + |parts[0]|) && At(text, at, rest)
    ensures Following(text, i + |parts[0]|, l.close) == More(at)
    ensures PartsAreRead(text, one, parts[1..], entries[1..])
  {
    hide Following, At, Ends;
    rest, at := Listed(l.Sep(), l.Tail(), parts[1..]), i + |parts[0]| + |l.Sep()|;
    assert PartIsRead(text, one, parts[1], entries[1]);
    assert listed == parts[0] + (l.Sep() + rest);
    ListedStarts(l.Sep(), l.Tail(), parts[1..]);
    NextStands(text, i, parts[0], l.before, l.after, Listed(l.Sep(), l.Tail(), parts[1..]), l.close);
  }

  lemma EntryIsLast(text: string, close: char, one: EntryReader, all: EntriesReader,
                    i: nat, part: string, entries: seq<Entry>, last: string)
    requires |entries| == 1 && ReadsOn(text, close, one, all, i) && PartIsRead(text, one, part, entries[0])
    requires Delimits(last, close) && At(text, i, part + (last + [close]))
    ensures all(i) == Some((entries, i + |part + (last + [close])|))
  {
    LastStands(text, i, part, last, close);
    assert entries == [entries[0]];
  }

  lemma EntryIsNext(text: string, close: char, one: EntryReader, all: EntriesReader,
                    i: nat, part: string, at: nat, entries: seq<Entry>, end: nat)
    requires entries != [] && ReadsOn(text, close, one, all, i) && PartIsRead(text, one, part, entries[0])
    requires At(text, i, part) && Ends(text, i + |part|) && Following(text, i + |part|, close) == More(at)
    requires all(at) == Some((entries[1..], end))
    ensures all(i) == Some((entries, end))
  {
    assert entries == [entries[0]] + entries[1..];
  }

  lemma LastStands(text: string, i: nat, part: string, last: string, close: char)
    requires Delimits(last, close) && At(text, i, part + (last + [close]))
    ensures var end := i + |part|;
            && At(text, i, part) && Ends(text, end) && Following(text, end, close) == Done(end + |last + [close]|)
  {
    AtSplit(text, i, part, last + [close]);
    assert last + [close] == last + ([close] + "");
    DelimiterIsFound(text, i + |part|, last, close, "");
  }

  lemma CommaFirst(before: string, after: string, rest: string)
    ensures before + ("," + after) + rest == before + ([','] + (after + rest))
  {
  }

  lemma CommaFollows(text: string, end: nat, comma: nat, close: char)
    requires end <= |text| && Skip(text, end) == comma < |text| && text[comma] == ',' && close != ','
    ensures Following(text, end, close) == More(Skip(text, comma + 1))
  {
  }

  lemma NextStands(text: string, i: nat, part: string, before: string, after: string, rest: string, close: char)
    requires Delimits(before, ',') && Blanks(after) && Solid(rest) && close != ','
    requires At(text, i, part + (before + ("," + after) + rest))
    ensures var end := i + |part|;
            var at := end + |before + ("," + after)|;
            && At(text, i, part) && Ends(text, end) && Following(text, end, close) == More(at) && At(text, at, rest)
  {
    hide Following, Skip, At, Ends;
    CommaFirst(before, after, rest);
    AtSplit(text, i, part, before + ([','] + (after + rest)));
    DelimiterIsFound(text, i + |part|, before, ',', after + rest);
    SkipsBlanks(text, i + |part| + |before| + 1, after, rest);
    CommaFollows(text, i + |part|, i + |part| + |before|, close);
  }

  lemma ListedStarts(sep: string, tail: string, parts: seq<string>)
    requires parts != [] && Solid(parts[0])
    ensures Solid(Listed(sep, tail, parts)) && Listed(sep, tail, parts)[0] == parts[0][0]
  {
  }

  // -------------------------------------------------------------- whole values

  lemma BracketOpens(style: Style, depth: nat, keyed: bool, text: string, i: nat, inner: string)
    requires Neat(style) && inner != "" && !Blank(inner[0])
    requires At(text, i, [Open(keyed)] + (style.gap(Opening, depth) + inner))
    ensures var at := i + 1 + |style.gap(Opening, depth)|;
            && i < |text| && text[i] == Open(keyed)
            && Skip(text, i + 1) == at < |text| && text[at] == inner[0] && At(text, at, inner)
  {
    AtSplit(text, i, [Open(keyed)], style.gap(Opening, depth) + inner);
    AtChar(text, i, [Open(keyed)]);
    SkipsBlanks(text, i + 1, style.gap(Opening, depth), inner);
  }

  lemma ReadsEmpty(text: string, i: nat, keyed: bool, at: nat)
    requires i < |text| && text[i] == Open(keyed) && Skip(text, i + 1) == at < |text| && text[at] == Close(keyed)
    ensures Read(text, i) == Some(Parse(Composed(keyed, []), at + 1))
  {
  }

  lemma ReadsEntries(text: string, i: nat, keyed: bool, at: nat, entries: seq<Entry>, end: nat)
    requires i < |text| && text[i] == Open(keyed) && Skip(text, i + 1) == at < |text| && text[at] != Close(keyed)
    requires ReadEntries(text, at, keyed) == Some((entries, end))
    ensures Read(text, i) == Some(Parse(Composed(keyed, entries), end))
  {
  }

  lemma EmptyReadsBack(style: Style, depth: nat, keyed: bool, text: string, i: nat)
    requires Neat(style) && At(text, i, [Open(keyed)] + (style.gap(Opening, depth) + [Close(keyed)]))
    ensures Read(text, i) == Some(Parse(Composed(keyed, []), i + 1 + |style.gap(Opening, depth)| + 1))
  {
    BracketOpens(style, depth, keyed, text, i, [Close(keyed)]);
    ReadsEmpty(text, i, keyed, i + 1 + |style.gap(Opening, depth)|);
  }

  lemma FullReadsBack(style: Style, depth: nat, keyed: bool, text: string, i: nat, parts: seq<string>,
                      listed: string, entries: seq<Entry>)
    requires var l := LayoutAt(style, depth, keyed); listed == Listed(l.Sep(), l.Tail(), parts)
    requires Neat(style) && parts != [] && At(text, i, [Open(keyed)] + (style.gap(Opening, depth) + listed))
    requires PartsAreRead(text, OneOf(text, keyed), parts, entries)
    ensures Read(text, i) == Some(Parse(Composed(keyed, entries), i + 1 + |style.gap(Opening, depth)| + |listed|))
  {
    hide Read, ReadEntries, ReadEntry, At;
    var l, at := LayoutAt(style, depth, keyed), i + 1 + |style.gap(Opening, depth)|;
    assert PartIsRead(text, OneOf(text, keyed), parts[0], entries[0]);
    ListedStarts(l.Sep(), l.Tail(), parts);
    BracketOpens(style, depth, keyed, text, i, listed);
    EntriesInTurn(text, keyed);
    EntriesReadBack(text, OneOf(text, keyed), AllOf(text, keyed), at, l, parts, listed, entries);
    ReadsEntries(text, i, keyed, at, entries, at + |listed|);
  }

  /** An array or an object reads back if its parts do. */
  lemma BracketedReadsBack(style: Style, depth: nat, keyed: bool, text: string, i: nat, parts: seq<string>,
                           printed: string, entries: seq<Entry>)
    requires Neat(style) && printed == Bracketed(style, depth, keyed, parts) && At(text, i, printed)
    requires PartsAreRead(text, OneOf(text, keyed), parts, entries)
    ensures Read(text, i) == Some(Parse(Composed(keyed, entries), i + |printed|))
  {
    hide Read, At;
    if parts == [] {
      EmptyReadsBack(style, depth, keyed, text, i);
    } else {
      var l := LayoutAt(style, depth, keyed);
      FullReadsBack(style, depth, keyed, text, i, parts, Listed(l.Sep(), l.Tail(), parts), entries);
    }
  }

  lemma PrintIsSolid(style: Style, v: Json, depth: nat)
    ensures Solid(Print(style, v, depth))
    ensures v.Obj? ==> Print(style, v, depth)[0] == '{'
  {
  }

  ghost function ItemEntries(v: Json): (entries: seq<Entry>)
    requires v.Arr?
    ensures |entries| == |v.items| && forall n | 0 <= n < |entries| :: entries[n] == Entry("", v.items[n])
  {
    seq(|v.items|, n requires 0 <= n < |v.items| => Entry("", v.items[n]))
  }

  ghost function MemberEntries(v: Json, ks: seq<string>): (entries: seq<Entry>)
    requires v.Obj? && forall k | k in ks :: k in v.members
    ensures |entries| == |ks| && forall n | 0 <= n < |ks| :: entries[n] == Entry(ks[n], v.members[ks[n]])
  {
    seq(|ks|, n requires 0 <= n < |ks| =>
      assert ks[n] in ks;
      Entry(ks[n], v.members[ks[n]]))
  }

  lemma ItemsCompose(v: Json)
    requires v.Arr?
    ensures Composed(false, ItemEntries(v)) == v
  {
    assert ValuesOf(ItemEntries(v)) == v.items;
  }

  lemma {:induction false} BuiltAgrees(entries: seq<Entry>, members: map<string, Json>)
    requires forall e | e in entries :: e.key in members && e.value == members[e.key]
    ensures forall k | k in Built(entries) :: k in members && Built(entries)[k] == members[k]
    ensures forall e | e in entries :: e.key in Built(entries)
  {
    if entries != [] {
      assert entries[0] in entries;
      BuiltAgrees(entries[1..], members);
    }
  }

  lemma SameMap(a: map<string, Json>, b: map<string, Json>)
    requires forall k | k in a :: k in b && a[k] == b[k]
    requires forall k | k in b :: k in a
    ensures a == b
  {
  }

  lemma MembersCompose(v: Json)
    requires v.Obj?
    ensures Composed(true, MemberEntries(v, Listing(v.members.Keys))) == v
  {
    var ks := Listing(v.members.Keys);
    var entries := MemberEntries(v, ks);
    BuiltAgrees(entries, v.members);
    forall k | k in v.members ensures k in Built(entries) {
      var n :| 0 <= n < |ks| && ks[n] == k;
      assert entries[n] in entries;
    }
    SameMap(Built(entries), v.members);
  }

  lemma ArrayReadsBack(style: Style, text: string, i: nat, v: Json, depth: nat, printed: string)
    requires Neat(style) && v.Arr? && printed == Print(style, v, depth) && At(text, i, printed)
    requires PartsAreRead(text, OneOf(text, false), Items(style, v, depth), ItemEntries(v))
    ensures Read(text, i) == Some(Parse(v, i + |printed|))
  {
    BracketedReadsBack(style, depth, false, text, i, Items(style, v, depth), printed, ItemEntries(v));
    ItemsCompose(v);
  }

  lemma ObjectReadsBack(style: Style, text: string, i: nat, v: Json, depth: nat, printed: string, ks: seq<string>)
    requires Neat(style) && v.Obj? && printed == Print(style, v, depth) && At(text, i, printed)
    requires ks == Listing(v.members.Keys)
    requires PartsAreRead(text, OneOf(text, true), Members(style, v, depth, ks), MemberEntries(v, ks))
    ensures Read(text, i) == Some(Parse(v, i + |printed|))
  {
    BracketedReadsBack(style, depth, true, text, i, Members(style, v, depth, ks), printed, MemberEntries(v, ks));
    MembersCompose(v);
  }

  lemma StrReadsBack(style: Style, text: string, i: nat, s: string)
    requires At(text, i, Quoted(style, s))
    ensures Read(text, i) == Some(Parse(Str(s), i + |Quoted(style, s)|))
  {
    StringReadsBack(style, text, i, s);
  }

  /** Whatever stands around it, a printed value is read back; a number or word must not go on behind it. */
  lemma {:induction false} ValueReadsBack(style: Style, text: string, i: nat, v: Json, depth: nat, printed: string)
    requires Neat(style) && printed == Print(style, v, depth) && At(text, i, printed)
    requires v.Atom? ==> Ends(text, i + |printed|)
    ensures Read(text, i) == Some(Parse(v, i + |printed|))
    decreases v, 1
  {
    hide *;
    if v.Atom? || v.Str? {
      SimpleReadsBack(style, text, i, v, depth, printed);
    } else if v.Arr? {
      ItemsReadBack(style, text, v, depth);
      ArrayReadsBack(style, text, i, v, depth, printed);
    } else {
      MembersReadBack(style, text, v, depth, Listing(v.members.Keys));
      ObjectReadsBack(style, text, i, v, depth, printed, Listing(v.members.Keys));
    }
  }

  lemma SimpleReadsBack(style: Style, text: string, i: nat, v: Json, depth: nat, printed: string)
    requires (v.Atom? || v.Str?) && printed == Print(style, v, depth) && At(text, i, printed)
    requires v.Atom? ==> Ends(text, i + |printed|)
    ensures Read(text, i) == Some(Parse(v, i + |printed|))
  {
    hide Read, At, Ends, Quoted;
    if v.Atom? {
      AtomReadsBack(text, i, v.word);
    } else {
      StrReadsBack(style, text, i, v.text);
    }
  }

  lemma {:induction false} ItemsReadBack(style: Style, text: string, v: Json, depth: nat)
    requires Neat(style) && v.Arr?
    ensures PartsAreRead(text, OneOf(text, false), Items(style, v, depth), ItemEntries(v))
    decreases v, 0
  {
    hide Read, ReadEntry, At, Ends, Print;
    var parts, entries := Items(style, v, depth), ItemEntries(v);
    forall n | 0 <= n < |parts| ensures PartIsRead(text, OneOf(text, false), parts[n], entries[n]) {
      PrintIsSolid(style, v.items[n], depth + 1);
      forall j: nat | At(text, j, parts[n]) && Ends(text, j + |parts[n]|)
        ensures ReadEntry(text, j, false) == Some((entries[n], j + |parts[n]|))
      {
        ItemReadsBack(style, text, j, v.items[n], depth, parts[n]);
      }
    }
  }

  lemma {:induction false} ItemReadsBack(style: Style, text: string, j: nat, v: Json, depth: nat, part: string)
    requires Neat(style) && part == Print(style, v, depth + 1) && At(text, j, part) && Ends(text, j + |part|)
    ensures ReadEntry(text, j, false) == Some((Entry("", v), j + |part|))
    decreases v, 2
  {
    hide *;
    ValueReadsBack(style, text, j, v, depth + 1, part);
    ItemIsRead(text, j, v, j + |part|);
  }

  lemma ItemIsRead(text: string, i: nat, v: Json, end: nat)
    requires Read(text, i) == Some(Parse(v, end))
    ensures ReadEntry(text, i, false) == Some((Entry("", v), end))
  {
  }

  lemma {:induction false} MembersReadBack(style: Style, text: string, v: Json, depth: nat, ks: seq<string>)
    requires Neat(style) && v.Obj? && forall k | k in ks :: k in v.members
    ensures PartsAreRead(text, OneOf(text, true), Members(style, v, depth, ks), MemberEntries(v, ks))
    decreases v, 0
  {
    hide Read, ReadEntry, At, Ends, Print, Escaped;
    var parts, entries := Members(style, v, depth, ks), MemberEntries(v, ks);
    forall n | 0 <= n < |parts| ensures PartIsRead(text, OneOf(text, true), parts[n], entries[n]) {
      assert ks[n] in ks;
      var value := Print(style, v.members[ks[n]], depth + 1);
      PrintIsSolid(style, v.members[ks[n]], depth + 1);
      forall j: nat | At(text, j, parts[n]) && Ends(text, j + |parts[n]|)
        ensures ReadEntry(text, j, true) == Some((entries[n], j + |parts[n]|))
      {
        MemberReadsBack(style, text, j, ks[n], v.members[ks[n]], depth, value, parts[n]);
      }
    }
  }

  lemma {:induction false} MemberReadsBack(style: Style, text: string, j: nat, k: string, v: Json, depth: nat,
                                           value: string, part: string)
    requires Neat(style) && value == Print(style, v, depth + 1) && Solid(value)
    requires part == Member(style, depth, k, value) && At(text, j, part) && Ends(text, j + |part|)
    ensures ReadEntry(text, j, true) == Some((Entry(k, v), j + |part|))
    decreases v, 2
  {
    hide *;
    var at := MemberStands(style, depth, text, j, k, value, part);
    ValueReadsBack(style, text, at, v, depth + 1, value);
    MemberIsRead(text, j, k, at, v, j + |part|);
  }

  lemma Surrounded(before: string, s: string, after: string)
    ensures At(before + s + after, |before|, s)
  {
  }

  lemma ReadIsSound()
    ensures Sound(Read)
  {
  }

  /** In every style, the grammar meets what the scan asks of a decoder and a printer. */
  lemma GrammarFits(style: Style, render: Printer)
    requires Neat(style) && forall v :: render(v) == Print(style, v, 0)
    ensures Sound(Read) && ReadsBack(Read, render)
  {
    ReadIsSound();
    forall before: string, v: Json, after: string | v.Obj? ensures ReadsBackIn(Read, render, before, v, after) {
      FitsIn(style, render, before, v, after);
    }
  }

  lemma FitsIn(style: Style, render: Printer, before: string, v: Json, after: string)
    requires Neat(style) && v.Obj? && render(v) == Print(style, v, 0)
    ensures ReadsBackIn(Read, render, before, v, after)
  {
    hide Read, Print, At;
    PrintIsSolid(style, v, 0);
    Surrounded(before, render(v), after);
    ValueReadsBack(style, before + render(v) + after, |before|, v, 0, render(v));
  }

  /** So texts of printed objects are read back, in every style and with nothing assumed. */
  lemma TextsReadBack(style: Style, gaps: seq<string>, objects: seq<Json>, last: string)
    requires Neat(style)
    requires |gaps| == |objects| && BraceFree(last) && forall g | g in gaps :: BraceFree(g)
    requires forall v | v in objects :: v.Obj?
    ensures Sound(Read)
    ensures Values(Scan(Read, Printed((v: Json) => Print(style, v, 0), gaps, objects) + last, 0)) == objects
  {
    GrammarFits(style, (v: Json) => Print(style, v, 0));
    PrintedObjectsReadBack(Read, (v: Json) => Print(style, v, 0), gaps, objects, last);
  }
}
