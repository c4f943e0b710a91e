/**
 Contract extraction: JSON objects are scanned out of an agent's answer, and the
 last one that validates, bare or inside single-key wrappers, is the contract.
 The library's decoder and the contract's validation are parameters.
 */
module Extraction {
  import opened Basics
  import opened JsonValues
  import opened Text

  datatype Parse = Parse(value: Json, end: nat)

  /** Decoding the value that starts at a position, and where it ends. */
  type Decoder = (string, nat) -> Option<Parse>

  /** At an opening brace a decoder yields an object, and consumes at least the brace. */
  ghost predicate Sound(decode: Decoder) {
    forall text: string, i: nat | i < |text| && text[i] == '{' && decode(text, i).Some? ::
      decode(text, i).value.value.Obj? && i < decode(text, i).value.end <= |text|
  }

  /** The first opening brace from a position on, or the end of the text. */
  function FindBrace(text: string, from: nat): (p: nat)
    requires from <= |text|
    ensures from <= p <= |text|
    ensures p < |text| ==> text[p] == '{'
    ensures forall i | from <= i < p :: text[i] != '{'
    decreases |text| - from
  {
    if from == |text| || text[from] == '{' then from else FindBrace(text, from + 1)
  }

  /** An accepted object and the stretch of text it was decoded from. */
  datatype Span = Span(start: nat, end: nat, value: Json)

  function Scan(decode: Decoder, text: string, index: nat): seq<Span>
    requires Sound(decode) && index <= |text|
    decreases |text| - index
  {
    var start := FindBrace(text, index);
    if start == |text| then []
    else
      match decode(text, start)
      case None => Scan(decode, text, start + 1)
      case Some(p) => [Span(start, p.end, p.value)] + Scan(decode, text, p.end)
  }

  function Values(spans: seq<Span>): (vs: seq<Json>)
    ensures |vs| == |spans|
    ensures forall i | 0 <= i < |spans| :: vs[i] == spans[i].value
  {
    seq(|spans|, i requires 0 <= i < |spans| => spans[i].value)
  }

  lemma ScanStep(decode: Decoder, text: string, index: nat)
    requires Sound(decode) && index <= |text|
    ensures var start := FindBrace(text, index);
            Scan(decode, text, index)
            == if start == |text| then []
               else
                 match decode(text, start)
                 case None => Scan(decode, text, start + 1)
                 case Some(p) => [Span(start, p.end, p.value)] + Scan(decode, text, p.end)
  {
  }

  lemma ValuesAppend(spans: seq<Span>, span: Span, rest: seq<Span>)
    ensures Values(spans + [span]) == Values(spans) + [span.value]
    ensures spans + [span] + rest == spans + ([span] + rest)
  {
  }

  method JsonObjects(decode: Decoder, text: string) returns (objects: seq<Json>)
    requires Sound(decode)
    ensures objects == Values(Scan(decode, text, 0))
  {
    objects := [];
    var index := 0;
    ghost var spans: seq<Span> := [];
    while true
      invariant index <= |text|
      invariant Scan(decode, text, 0) == spans + Scan(decode, text, index)
      invariant objects == Values(spans)
      decreases |text| - index
    {
      hide Scan, Values;
      ScanStep(decode, text, index);
      var start := FindBrace(text, index);
      if start == |text| {
        return;
      }
      var parsed := decode(text, start);
      if parsed == None {
        index := start + 1;
        continue;
      }
      if parsed.value.value.Obj? {
        objects := objects + [parsed.value.value];
      }
      ValuesAppend(spans, Span(start, parsed.value.end, parsed.value.value), Scan(decode, text, parsed.value.end));
      spans := spans + [Span(start, parsed.value.end, parsed.value.value)];
      index := parsed.value.end;
    }
  }

  // ------------------------------------------------ what the scanner accepts

  predicate Decodable(decode: Decoder, text: string, p: nat) {
    p < |text| && text[p] == '{' && decode(text, p).Some?
  }

  /** A span of text from which the decoder yields the span's object. */
  predicate Genuine(decode: Decoder, text: string, span: Span) {
    && span.start < span.end && Decodable(decode, text, span.start)
    && decode(text, span.start) == Some(Parse(span.value, span.end))
  }

  predicate Within(p: nat, span: Span) {
    span.start <= p < span.end
  }

  ghost predicate Covered(spans: seq<Span>, p: nat) {
    exists i :: 0 <= i < |spans| && Within(p, spans[i])
  }

  ghost predicate AllGenuine(decode: Decoder, text: string, spans: seq<Span>) {
    forall i | 0 <= i < |spans| :: Genuine(decode, text, spans[i])
  }

  ghost predicate Ordered(from: nat, spans: seq<Span>) {
    && (forall i | 0 <= i < |spans| :: from <= spans[i].start)
    && (forall i, j | 0 <= i < j < |spans| :: spans[i].end <= spans[j].start)
  }

  ghost predicate CoversAll(decode: Decoder, text: string, from: nat, spans: seq<Span>) {
    forall p: nat | from <= p && Decodable(decode, text, p) :: Covered(spans, p)
  }

  /** Spans of decodable objects, in order, disjoint, and leaving none uncovered. */
  ghost predicate Accepts(decode: Decoder, text: string, from: nat, spans: seq<Span>) {
    AllGenuine(decode, text, spans) && Ordered(from, spans) && CoversAll(decode, text, from, spans)
  }

  lemma CoveredByTail(span: Span, rest: seq<Span>, p: nat)
    ensures Covered([span] + rest, p) <==> Within(p, span) || Covered(rest, p)
  {
    var spans := [span] + rest;
    if Within(p, span) {
      assert Within(p, spans[0]);
    }
    if Covered(rest, p) {
      var i :| 0 <= i < |rest| && Within(p, rest[i]);
      assert Within(p, spans[i + 1]);
    }
    if Covered(spans, p) && !Within(p, span) {
      var i :| 0 <= i < |spans| && Within(p, spans[i]);
      assert Within(p, rest[i - 1]);
    }
  }

  /** A genuine first span in front of what the rest of the text accepts. */
  lemma AcceptsCons(decode: Decoder, text: string, from: nat, span: Span, rest: seq<Span>)
    requires Genuine(decode, text, span) && from <= span.start && Accepts(decode, text, span.end, rest)
    requires forall p: nat | from <= p < span.start :: !Decodable(decode, text, p)
    ensures Accepts(decode, text, from, [span] + rest)
  {
    ConsIsGenuine(decode, text, span, rest);
    ConsIsOrdered(from, span, rest);
    ConsCovers(decode, text, from, span, rest);
  }

  lemma ConsIsGenuine(decode: Decoder, text: string, span: Span, rest: seq<Span>)
    requires Genuine(decode, text, span) && AllGenuine(decode, text, rest)
    ensures AllGenuine(decode, text, [span] + rest)
  {
  }

  lemma ConsIsOrdered(from: nat, span: Span, rest: seq<Span>)
    requires from <= span.start < span.end && Ordered(span.end, rest)
    ensures Ordered(from, [span] + rest)
  {
  }

  lemma ConsCovers(decode: Decoder, text: string, from: nat, span: Span, rest: seq<Span>)
    requires from <= span.start < span.end && CoversAll(decode, text, span.end, rest)
    requires forall p: nat | from <= p < span.start :: !Decodable(decode, text, p)
    ensures CoversAll(decode, text, from, [span] + rest)
  {
    forall p: nat | from <= p && Decodable(decode, text, p) ensures Covered([span] + rest, p) {
      CoveredByTail(span, rest, p);
    }
  }

  /** What is accepted from a place on is accepted from before it, if nothing in between decodes. */
  lemma AcceptedFromEarlier(decode: Decoder, text: string, from: nat, later: nat, spans: seq<Span>)
    requires from <= later && Accepts(decode, text, later, spans)
    requires forall p: nat | from <= p < later :: !Decodable(decode, text, p)
    ensures Accepts(decode, text, from, spans)
  {
  }

  lemma NoneAccepted(decode: Decoder, text: string, from: nat)
    requires from <= |text| && FindBrace(text, from) == |text|
    ensures Accepts(decode, text, from, [])
  {
  }

  lemma {:induction false} ScanAccepts(decode: Decoder, text: string, index: nat)
    requires Sound(decode) && index <= |text|
    ensures Accepts(decode, text, index, Scan(decode, text, index))
    decreases |text| - index
  {
    hide Scan, Accepts;
    ScanStep(decode, text, index);
    var start := FindBrace(text, index);
    if start == |text| {
      NoneAccepted(decode, text, index);
    } else {
      if decode(text, start) == None {
        ScanAccepts(decode, text, start + 1);
        AcceptedFromEarlier(decode, text, index, start + 1, Scan(decode, text, start + 1));
      } else {
        var p := decode(text, start).value;
        ScanAccepts(decode, text, p.end);
        AcceptsCons(decode, text, index, Span(start, p.end, p.value), Scan(decode, text, p.end));
      }
    }
  }

  lemma AcceptsTail(decode: Decoder, text: string, from: nat, span: Span, rest: seq<Span>)
    requires Accepts(decode, text, from, [span] + rest)
    ensures Accepts(decode, text, span.end, rest)
  {
    var spans := [span] + rest;
    forall i | 0 <= i < |rest| ensures rest[i] == spans[i + 1] { }
    forall i | 0 <= i < |rest| ensures span.end <= rest[i].start {
      assert spans[0].end <= spans[i + 1].start;
    }
    assert spans[0] == span;
    forall p: nat | span.end <= p && Decodable(decode, text, p) ensures Covered(rest, p) {
      CoveredByTail(span, rest, p);
    }
  }

  /** The first accepted span starts at the leftmost decodable brace. */
  lemma FirstIsLeftmost(decode: Decoder, text: string, from: nat, spans: seq<Span>, p: nat)
    requires Accepts(decode, text, from, spans) && from <= p && Decodable(decode, text, p)
    ensures spans != [] && spans[0].start <= p
  {
    var i :| 0 <= i < |spans| && Within(p, spans[i]);
    if i > 0 {
      assert spans[0].end <= spans[i].start && Genuine(decode, text, spans[0]);
    }
  }

  lemma SplitFirst<T>(xs: seq<T>)
    requires xs != []
    ensures xs == [xs[0]] + xs[1..]
  {
  }

  lemma SameFirst(decode: Decoder, text: string, from: nat, a: seq<Span>, b: seq<Span>)
    requires Accepts(decode, text, from, a) && Accepts(decode, text, from, b) && a != []
    ensures b != [] && a[0] == b[0]
  {
    assert Genuine(decode, text, a[0]);
    FirstIsLeftmost(decode, text, from, b, a[0].start);
    assert Genuine(decode, text, b[0]);
    FirstIsLeftmost(decode, text, from, a, b[0].start);
  }

  lemma TailOf(decode: Decoder, text: string, from: nat, spans: seq<Span>)
    requires spans != [] && Accepts(decode, text, from, spans)
    ensures Accepts(decode, text, spans[0].end, spans[1..])
  {
    SplitFirst(spans);
    AcceptsTail(decode, text, from, spans[0], spans[1..]);
  }

  lemma {:induction false} AcceptsUnique(decode: Decoder, text: string, from: nat, a: seq<Span>, b: seq<Span>)
    requires Accepts(decode, text, from, a) && Accepts(decode, text, from, b)
    ensures a == b
    decreases |a|
  {
    if a != [] {
      SameFirst(decode, text, from, a, b);
      TailOf(decode, text, from, a);
      TailOf(decode, text, from, b);
      AcceptsUnique(decode, text, a[0].end, a[1..], b[1..]);
      SplitFirst(a);
      SplitFirst(b);
    } else if b != [] {
      SameFirst(decode, text, from, b, a);
    }
  }

  /**
   The scan is the one and only sequence of ordered, disjoint decodable objects
   in which every decodable brace of the text is covered.
   */
  lemma ScanIsGreedy(decode: Decoder, text: string, spans: seq<Span>)
    requires Sound(decode)
    ensures Accepts(decode, text, 0, spans) <==> spans == Scan(decode, text, 0)
  {
    ScanAccepts(decode, text, 0);
    if Accepts(decode, text, 0, spans) {
      AcceptsUnique(decode, text, 0, spans, Scan(decode, text, 0));
    }
  }

  // --------------------------------------------------------------- round trip

  type Printer = Json -> string

  /** What a printer writes for an object, the decoder reads back in any context. */
  ghost predicate ReadsBack(decode: Decoder, render: Printer) {
    forall before: string, v: Json, after: string | v.Obj? :: ReadsBackIn(decode, render, before, v, after)
  }

  ghost predicate ReadsBackIn(decode: Decoder, render: Printer, before: string, v: Json, after: string) {
    && render(v) != "" && render(v)[0] == '{'
    && decode(before + render(v) + after, |before|) == Some(Parse(v, |before| + |render(v)|))
  }

  predicate BraceFree(gap: string) {
    forall i | 0 <= i < |gap| :: gap[i] != '{'
  }

  /** Objects printed one after the other, each with a gap before it. */
  function Printed(render: Printer, gaps: seq<string>, objects: seq<Json>): string
    requires |gaps| == |objects|
  {
    if objects == [] then "" else gaps[0] + render(objects[0]) + Printed(render, gaps[1..], objects[1..])
  }

  lemma Regrouped(a: string, b: string, c: string, d: string, e: string)
    ensures a + ((b + c + d) + e) == ((a + b) + c) + (d + e)
  {
  }

  lemma {:induction false} ScanReadsPrinted(decode: Decoder, render: Printer, before: string,
                                            gaps: seq<string>, objects: seq<Json>, last: string)
    requires Sound(decode) && ReadsBack(decode, render) && |gaps| == |objects|
    requires BraceFree(last) && forall g | g in gaps :: BraceFree(g)
    requires forall v | v in objects :: v.Obj?
    ensures Values(Scan(decode, before + (Printed(render, gaps, objects) + last), |before|)) == objects
    decreases |objects|
  {
    if objects == [] {
      NoBraceNoSpan(decode, before, Printed(render, gaps, objects) + last);
    } else {
      var here := before + gaps[0];
      var rest := Printed(render, gaps[1..], objects[1..]) + last;
      Regrouped(before, gaps[0], render(objects[0]), Printed(render, gaps[1..], objects[1..]), last);
      ScanReadsPrinted(decode, render, here + render(objects[0]), gaps[1..], objects[1..], last);
      ScanReadsOne(decode, render, before, gaps[0], objects[0], rest);
    }
  }

  lemma NoBraceNoSpan(decode: Decoder, before: string, after: string)
    requires Sound(decode) && BraceFree(after)
    ensures Scan(decode, before + after, |before|) == []
  {
    var text := before + after;
    assert forall i | |before| <= i < |text| :: text[i] == after[i - |before|];
  }

  lemma ScanReadsOne(decode: Decoder, render: Printer, before: string, gap: string, v: Json, rest: string)
    requires Sound(decode) && ReadsBack(decode, render) && BraceFree(gap) && v.Obj?
    ensures var text := before + gap + render(v) + rest;
            var end := |before + gap + render(v)|;
            Values(Scan(decode, text, |before|)) == [v] + Values(Scan(decode, text, end))
  {
    var here := before + gap;
    var text := here + render(v) + rest;
    assert ReadsBackIn(decode, render, here, v, rest);
    assert decode(text, |here|) == Some(Parse(v, |here| + |render(v)|));
    assert render(v) != "" && render(v)[0] == '{';
    BraceAfterGap(before, gap, render(v), rest, text);
    ScanTakes(decode, text, |before|, |here|, Parse(v, |here + render(v)|));
  }

  lemma ScanTakes(decode: Decoder, text: string, from: nat, brace: nat, p: Parse)
    requires Sound(decode) && from <= brace < |text|
    requires FindBrace(text, from) == brace && decode(text, brace) == Some(p)
    ensures p.end <= |text|
    ensures Values(Scan(decode, text, from)) == [p.value] + Values(Scan(decode, text, p.end))
  {
    hide Values;
    assert Scan(decode, text, from) == [Span(brace, p.end, p.value)] + Scan(decode, text, p.end);
    ValuesCons(Span(brace, p.end, p.value), Scan(decode, text, p.end));
  }

  lemma ValuesCons(span: Span, spans: seq<Span>)
    ensures Values([span] + spans) == [span.value] + Values(spans)
  {
  }

  lemma BraceAfterGap(before: string, gap: string, body: string, rest: string, text: string)
    requires BraceFree(gap) && body != "" && body[0] == '{' && text == before + gap + body + rest
    ensures |before + gap| < |text| && FindBrace(text, |before|) == |before + gap|
  {
    assert text[|before + gap|] == '{';
    assert forall i | |before| <= i < |before + gap| :: text[i] == gap[i - |before|];
  }

  /** Printed objects between brace-free gaps are read back, all and in order. */
  lemma PrintedObjectsReadBack(decode: Decoder, render: Printer, gaps: seq<string>, objects: seq<Json>, last: string)
    requires Sound(decode) && ReadsBack(decode, render) && |gaps| == |objects|
    requires BraceFree(last) && forall g | g in gaps :: BraceFree(g)
    requires forall v | v in objects :: v.Obj?
    ensures Values(Scan(decode, Printed(render, gaps, objects) + last, 0)) == objects
  {
    ScanReadsPrinted(decode, render, "", gaps, objects, last);
    assert "" + (Printed(render, gaps, objects) + last) == Printed(render, gaps, objects) + last;
  }

  // ------------------------------------------------------------ text clean-up

  predicate TagChar(c: char) {
    'a' <= c <= 'z' || 'A' <= c <= 'Z' || '0' <= c <= '9' || c == '_' || c == '-'
  }

  predicate Fence(s: string) {
    |s| >= 3 && s[0] == '`' && s[1] == '`' && s[2] == '`'
  }

  function AfterTag(s: string): (rest: string)
    ensures |rest| <= |s|
  {
    if s != "" && TagChar(s[0]) then AfterTag(s[1..]) else s
  }

  /** Remove every code fence together with its language tag. */
  function WithoutFences(s: string): string
    decreases |s|
  {
    if s == "" then ""
    else if Fence(s) then WithoutFences(AfterTag(s[3..]))
    else [s[0]] + WithoutFences(s[1..])
  }

  function AfterSpace(s: string): (rest: string)
    ensures |rest| <= |s|
  {
    if s != "" && Space(s[0]) then AfterSpace(s[1..]) else s
  }

  /** Remove every comma that only whitespace separates from a closing bracket. */
  function WithoutTrailingCommas(s: string): string
    decreases |s|
  {
    if s == "" then ""
    else
      var rest := AfterSpace(s[1..]);
      if s[0] == ',' && rest != "" && (rest[0] == '}' || rest[0] == ']')
      then [rest[0]] + WithoutTrailingCommas(rest[1..])
      else [s[0]] + WithoutTrailingCommas(s[1..])
  }

  /** Removing fences leaves none, and joins no three marks into a new one. */
  lemma {:induction false} NoFenceLeft(s: string, i: nat)
    requires i <= |WithoutFences(s)|
    ensures !Fence(WithoutFences(s)[i..])
    decreases |s|
  {
    if s != "" && Fence(s) {
      NoFenceLeft(AfterTag(s[3..]), i);
    } else if s != "" && i > 0 {
      NoFenceLeft(s[1..], i - 1);
      assert WithoutFences(s)[i..] == WithoutFences(s[1..])[i - 1..];
    } else if s != "" {
      NoFenceAtStart(s);
      assert WithoutFences(s)[0..] == WithoutFences(s);
    }
  }

  lemma NoFenceAtStart(s: string)
    requires s != "" && !Fence(s)
    ensures !Fence(WithoutFences(s))
  {
    var one := s[1..];
    if s[0] == '`' && one != "" && one[0] == '`' {
      var two := one[1..];
      assert WithoutFences(s) == ['`'] + WithoutFences(one);
      if !Fence(one) && two != "" {
        assert WithoutFences(one) == ['`'] + WithoutFences(two);
        assert two[0] != '`';
        assert WithoutFences(two)[0] == two[0];
      }
    } else if one != "" && !Fence(one) {
      assert WithoutFences(one)[0] == one[0];
    }
  }

  // ---------------------------------------------------------------- selection

  /** The value of an object with exactly one key. */
  ghost function OnlyValue(members: map<string, Json>): Json
    requires |members| == 1
  {
    var k :| k in members.Keys;
    members[k]
  }

  lemma OnlyKey(members: map<string, Json>, k: string)
    requires |members| == 1 && k in members
    ensures OnlyValue(members) == members[k]
  {
    assert |members.Keys| == |members|;
    forall j | j in members.Keys ensures j == k {
      assert |members.Keys - {k}| == 0;
      assert j in {k} + (members.Keys - {k});
    }
  }

  const MAX_UNWRAP_DEPTH := 2

  /** A candidate, then what single-key wrappers hold, up to a number of levels. */
  ghost function Variants(candidate: Json, depth: nat): seq<Json> {
    if depth == 0 || !candidate.Obj? || |candidate.members| != 1 || !OnlyValue(candidate.members).Obj?
    then [candidate]
    else [candidate] + Variants(OnlyValue(candidate.members), depth - 1)
  }

  method PayloadVariants(candidate: Json) returns (variants: seq<Json>)
    requires candidate.Obj?
    ensures variants == Variants(candidate, MAX_UNWRAP_DEPTH)
  {
    var current := candidate;
    var outer: seq<Json> := [];
    for level := 0 to MAX_UNWRAP_DEPTH
      invariant current.Obj?
      invariant Variants(candidate, MAX_UNWRAP_DEPTH) == outer + Variants(current, MAX_UNWRAP_DEPTH - level)
    {
      if |current.members| != 1 {
        return outer + [current];
      }
      var k :| k in current.members.Keys;
      OnlyKey(current.members, k);
      var inner := current.members[k];
      if !inner.Obj? {
        return outer + [current];
      }
      UnwrapOnce(current, MAX_UNWRAP_DEPTH - level);
      Regroup(outer, [current], Variants(inner, MAX_UNWRAP_DEPTH - level - 1));
      outer := outer + [current];
      current := inner;
    }
    variants := outer + [current];
  }

  lemma UnwrapOnce(wrapper: Json, depth: nat)
    requires depth > 0 && wrapper.Obj? && |wrapper.members| == 1 && OnlyValue(wrapper.members).Obj?
    ensures Variants(wrapper, depth) == [wrapper] + Variants(OnlyValue(wrapper.members), depth - 1)
  {
  }

  predicate AnyValid(valid: Json -> bool, variants: seq<Json>) {
    exists i :: 0 <= i < |variants| && valid(variants[i])
  }

  /** p is the shallowest valid variant of the latest candidate that has one. */
  ghost predicate IsChosen(valid: Json -> bool, candidates: seq<Json>, p: Json) {
    exists c, d :: Chooses(valid, candidates, c, d, p)
  }

  ghost predicate Chooses(valid: Json -> bool, candidates: seq<Json>, c: nat, d: nat, p: Json) {
    && c < |candidates| && d < |Variants(candidates[c], MAX_UNWRAP_DEPTH)|
    && p == Variants(candidates[c], MAX_UNWRAP_DEPTH)[d] && valid(p)
    && (forall i | 0 <= i < d :: !valid(Variants(candidates[c], MAX_UNWRAP_DEPTH)[i]))
    && (forall i | c < i < |candidates| :: !AnyValid(valid, Variants(candidates[i], MAX_UNWRAP_DEPTH)))
  }

  /** There is at most one such payload. */
  lemma ChosenUnique(valid: Json -> bool, candidates: seq<Json>, p: Json, q: Json)
    requires IsChosen(valid, candidates, p) && IsChosen(valid, candidates, q)
    ensures p == q
  {
    var c: nat, d: nat :| Chooses(valid, candidates, c, d, p);
    var c': nat, d': nat :| Chooses(valid, candidates, c', d', q);
    assert c == c' && d == d';
  }

  datatype ContractError = EmptyAnswer | NoneMatched(candidates: nat)

  /** The objects tried: the strict pass, or the repaired text if it found none. */
  ghost function Candidates(decode: Decoder, raw: string): seq<Json>
    requires Sound(decode)
  {
    var text := WithoutFences(raw);
    var strict := Values(Scan(decode, text, 0));
    if strict != [] then strict else Values(Scan(decode, WithoutTrailingCommas(text), 0))
  }

  method ExtractContract(decode: Decoder, valid: Json -> bool, raw: string)
    returns (result: Result<Json, ContractError>)
    requires Sound(decode)
    ensures Strip(raw) == "" ==> result == Err(EmptyAnswer)
    ensures Strip(raw) != "" ==>
              var candidates := Candidates(decode, raw);
              match result
              case Ok(p) => IsChosen(valid, candidates, p)
              case Err(e) =>
                && e == NoneMatched(|candidates|)
                && forall i | 0 <= i < |candidates| :: !AnyValid(valid, Variants(candidates[i], MAX_UNWRAP_DEPTH))
  {
    if Strip(raw) == "" {
      return Err(EmptyAnswer);
    }
    var text := WithoutFences(raw);
    ScanYieldsObjects(decode, text);
    ScanYieldsObjects(decode, WithoutTrailingCommas(text));
    var candidates := JsonObjects(decode, text);
    if candidates == [] {
      candidates := JsonObjects(decode, WithoutTrailingCommas(text));
    }
    var chosen := LastValid(candidates, valid);
    result := if chosen.Some? then Ok(chosen.value) else Err(NoneMatched(|candidates|));
  }

  /** Candidates are tried last to first, each with its variants outside in. */
  method LastValid(candidates: seq<Json>, valid: Json -> bool) returns (chosen: Option<Json>)
    requires forall v | v in candidates :: v.Obj?
    ensures chosen.Some? ==> IsChosen(valid, candidates, chosen.value)
    ensures chosen == None ==>
              forall i | 0 <= i < |candidates| :: !AnyValid(valid, Variants(candidates[i], MAX_UNWRAP_DEPTH))
  {
    var c := |candidates|;
    while c > 0
      invariant 0 <= c <= |candidates|
      invariant forall i | c <= i < |candidates| :: !AnyValid(valid, Variants(candidates[i], MAX_UNWRAP_DEPTH))
    {
      c := c - 1;
      var variants := PayloadVariants(candidates[c]);
      for d := 0 to |variants|
        invariant forall i | 0 <= i < d :: !valid(variants[i])
      {
        if valid(variants[d]) {
          assert Chooses(valid, candidates, c, d, variants[d]);
          return Some(variants[d]);
        }
      }
    }
    return None;
  }

  lemma ScanYieldsObjects(decode: Decoder, text: string)
    requires Sound(decode)
    ensures forall v | v in Values(Scan(decode, text, 0)) :: v.Obj?
  {
    ScanAccepts(decode, text, 0);
    var spans := Scan(decode, text, 0);
    forall v | v in Values(spans) ensures v.Obj? {
      var i :| 0 <= i < |spans| && spans[i].value == v;
      assert Genuine(decode, text, spans[i]);
    }
  }

  // ----------------------------------------------------------- from answer to contract

  predicate Plain(s: string) {
    forall i | 0 <= i < |s| :: s[i] != '`'
  }

  lemma {:induction false} PlainStays(a: string, b: string)
    requires Plain(a)
    ensures WithoutFences(a + b) == a + WithoutFences(b)
  {
    if a == "" {
      assert a + b == b;
    } else {
      assert (a + b)[1..] == a[1..] + b;
      PlainStays(a[1..], b);
    }
  }

  lemma {:induction false} TagIsSkipped(tag: string, rest: string)
    requires (forall i | 0 <= i < |tag| :: TagChar(tag[i])) && (rest == "" || !TagChar(rest[0]))
    ensures AfterTag(tag + rest) == rest
  {
    if tag == "" {
      assert tag + rest == rest;
    } else {
      assert (tag + rest)[1..] == tag[1..] + rest;
      TagIsSkipped(tag[1..], rest);
    }
  }

  /** A fence and its language tag are removed, and nothing around them. */
  lemma FenceIsRemoved(before: string, tag: string, after: string)
    requires Plain(before) && forall i | 0 <= i < |tag| :: TagChar(tag[i])
    requires after == "" || !TagChar(after[0])
    ensures WithoutFences(before + ("```" + tag + after)) == before + WithoutFences(after)
  {
    hide WithoutFences;
    PlainStays(before, "```" + tag + after);
    FenceAtStart(tag, after);
  }

  lemma FenceAtStart(tag: string, after: string)
    requires (forall i | 0 <= i < |tag| :: TagChar(tag[i])) && (after == "" || !TagChar(after[0]))
    ensures WithoutFences("```" + tag + after) == WithoutFences(after)
  {
    hide AfterTag, WithoutFences;
    var s := "```" + tag + after;
    assert s[3..] == tag + after && Fence(s);
    FenceGoes(s);
    TagIsSkipped(tag, after);
  }

  lemma FenceGoes(s: string)
    requires Fence(s)
    ensures WithoutFences(s) == WithoutFences(AfterTag(s[3..]))
  {
  }

  lemma {:induction false} SpaceIsSkipped(space: string, rest: string)
    requires (forall i | 0 <= i < |space| :: Space(space[i])) && (rest == "" || !Space(rest[0]))
    ensures AfterSpace(space + rest) == rest
  {
    if space == "" {
      assert space + rest == rest;
    } else {
      assert (space + rest)[1..] == space[1..] + rest;
      SpaceIsSkipped(space[1..], rest);
    }
  }

  predicate CommaFree(s: string) {
    forall i | 0 <= i < |s| :: s[i] != ','
  }

  lemma {:induction false} CommaFreeStays(a: string, b: string)
    requires CommaFree(a)
    ensures WithoutTrailingCommas(a + b) == a + WithoutTrailingCommas(b)
  {
    if a == "" {
      assert a + b == b;
    } else {
      assert (a + b)[1..] == a[1..] + b;
      CommaFreeStays(a[1..], b);
    }
  }

  /** A comma goes, with the whitespace after it, exactly if a closing bracket follows. */
  lemma CommaIsRemovedIff(before: string, space: string, c: char, after: string)
    requires CommaFree(before) && (forall i | 0 <= i < |space| :: Space(space[i])) && !Space(c)
    ensures WithoutTrailingCommas(before + ("," + space + [c] + after))
            == if c == '}' || c == ']' then before + [c] + WithoutTrailingCommas(after)
               else before + "," + WithoutTrailingCommas(space + [c] + after)
  {
    hide WithoutTrailingCommas;
    CommaFreeStays(before, "," + space + [c] + after);
    CommaAtStart(space, c, after);
    if c == '}' || c == ']' {
      Regroup(before, [c], WithoutTrailingCommas(after));
    } else {
      Regroup(before, ",", WithoutTrailingCommas(space + [c] + after));
    }
  }

  lemma CommaAtStart(space: string, c: char, after: string)
    requires (forall i | 0 <= i < |space| :: Space(space[i])) && !Space(c)
    ensures WithoutTrailingCommas("," + space + [c] + after)
            == if c == '}' || c == ']' then [c] + WithoutTrailingCommas(after)
               else "," + WithoutTrailingCommas(space + [c] + after)
  {
    hide AfterSpace, Space;
    var s := "," + space + [c] + after;
    assert s[1..] == space + ([c] + after) == space + [c] + after;
    SpaceIsSkipped(space, [c] + after);
    assert ([c] + after)[1..] == after;
  }

  /** Once the fences are gone, objects in writing are exactly what is tried. */
  lemma CandidatesAreRead(decode: Decoder, render: Printer, raw: string, gaps: seq<string>, objects: seq<Json>,
                          last: string)
    requires Sound(decode) && ReadsBack(decode, render) && |gaps| == |objects| > 0
    requires BraceFree(last) && (forall g | g in gaps :: BraceFree(g)) && forall v | v in objects :: v.Obj?
    requires WithoutFences(raw) == Printed(render, gaps, objects) + last
    ensures Candidates(decode, raw) == objects
  {
    PrintedObjectsReadBack(decode, render, gaps, objects, last);
  }

  /** If nothing decodes, the objects in writing once trailing commas are gone are what is tried. */
  lemma RepairedAreRead(decode: Decoder, render: Printer, raw: string, gaps: seq<string>, objects: seq<Json>,
                        last: string)
    requires Sound(decode) && ReadsBack(decode, render) && |gaps| == |objects|
    requires BraceFree(last) && (forall g | g in gaps :: BraceFree(g)) && forall v | v in objects :: v.Obj?
    requires forall p: nat :: !Decodable(decode, WithoutFences(raw), p)
    requires WithoutTrailingCommas(WithoutFences(raw)) == Printed(render, gaps, objects) + last
    ensures Candidates(decode, raw) == objects
  {
    PrintedObjectsReadBack(decode, render, gaps, objects, last);
    ScanAccepts(decode, WithoutFences(raw), 0);
    var spans := Scan(decode, WithoutFences(raw), 0);
    assert |spans| > 0 ==> !Genuine(decode, WithoutFences(raw), spans[0]);
  }

  lemma PlainIsKept(s: string)
    requires Plain(s)
    ensures WithoutFences(s) == s
  {
    PlainStays(s, "");
    assert s + "" == s;
  }

  lemma PlainInLines(s: string)
    requires Plain(s)
    ensures Plain("\n" + s + "\n")
  {
  }

  /** A fenced object between prose is the one candidate. */
  lemma FencedObjectIsRead(decode: Decoder, render: Printer, before: string, tag: string, v: Json, after: string)
    requires Sound(decode) && ReadsBack(decode, render) && v.Obj?
    requires BraceFree(before) && Plain(before) && BraceFree(after) && Plain(after) && Plain(render(v))
    requires (forall i | 0 <= i < |tag| :: TagChar(tag[i])) && (after == "" || !TagChar(after[0]))
    ensures Candidates(decode, before + ("```" + tag + ("\n" + render(v) + "\n" + ("```" + after)))) == [v]
  {
    hide WithoutFences, Candidates, Plain, BraceFree, ReadsBack;
    var inner := "\n" + render(v) + "\n";
    assert "\n" + render(v) + "\n" + ("```" + after) == inner + ("```" + "" + after);
    FenceIsRemoved(before, tag, inner + ("```" + after));
    assert !TagChar('\n') && inner[0] == '\n';
    PlainInLines(render(v));
    FenceIsRemoved(inner, "", after);
    assert "```" + "" + after == "```" + after;
    PlainIsKept(after);
    OneFenced(decode, render, before, v, after, before + ("```" + tag + (inner + ("```" + after))));
  }

  lemma OneFenced(decode: Decoder, render: Printer, before: string, v: Json, after: string, raw: string)
    requires Sound(decode) && ReadsBack(decode, render) && v.Obj? && BraceFree(before) && BraceFree(after)
    requires WithoutFences(raw) == before + ("\n" + render(v) + "\n" + after)
    ensures Candidates(decode, raw) == [v]
  {
    hide WithoutFences, Candidates, Scan;
    var gap, last := before + "\n", "\n" + after;
    assert [gap][1..] == [] && [v][1..] == [];
    assert Printed(render, [gap], [v]) == gap + render(v) + Printed(render, [], []);
    assert Printed(render, [gap], [v]) + last == before + ("\n" + render(v) + "\n" + after);
    CandidatesAreRead(decode, render, raw, [gap], [v], last);
  }
}
