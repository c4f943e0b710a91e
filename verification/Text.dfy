/**
 Strings as the platform handles them: whitespace, trimming, words and joining.
 A "word" is a maximal run of characters that are not whitespace, which is what
 both the pattern `\S+` and an argument-less `split()` produce.
 */
module Text {

  /** The characters that `str.isspace`, `strip` and `\s` agree on. */
  predicate Space(c: char) {
    var n := c as int;
    || 9 <= n <= 13 || 28 <= n <= 32 || n == 0x85 || n == 0xA0 || n == 0x1680
    || 0x2000 <= n <= 0x200A || n == 0x2028 || n == 0x2029 || n == 0x202F
    || n == 0x205F || n == 0x3000
  }

  lemma SpacesAre(c: char)
    ensures Space(c)
            <==> || c in "\t\n\U{b}\U{c}\r\U{1c}\U{1d}\U{1e}\U{1f} \U{85}\U{a0}\U{1680}"
                 || c in "\U{2000}\U{2001}\U{2002}\U{2003}\U{2004}\U{2005}\U{2006}\U{2007}\U{2008}\U{2009}\U{200a}"
                 || c in "\U{2028}\U{2029}\U{202f}\U{205f}\U{3000}"
  {
  }

  predicate Trimmed(s: string) {
    s != "" && !Space(s[0]) && !Space(s[|s| - 1])
  }

  predicate IsWord(s: string) {
    s != "" && forall i | 0 <= i < |s| :: !Space(s[i])
  }

  function StripLeft(s: string): string {
    if s != "" && Space(s[0]) then StripLeft(s[1..]) else s
  }

  function StripRight(s: string): string {
    if s != "" && Space(s[|s| - 1]) then StripRight(s[..|s| - 1]) else s
  }

  function Strip(s: string): string {
    StripRight(StripLeft(s))
  }

  /** Length of the leading run of non-whitespace characters. */
  function WordEnd(s: string): (n: nat)
    ensures n <= |s|
    ensures forall i | 0 <= i < n :: !Space(s[i])
    ensures n == |s| || Space(s[n])
  {
    if s == "" || Space(s[0]) then 0 else 1 + WordEnd(s[1..])
  }

  function Words(s: string): seq<string>
    decreases |s|
  {
    if s == "" then []
    else if Space(s[0]) then Words(s[1..])
    else [s[..WordEnd(s)]] + Words(s[WordEnd(s)..])
  }

  function Join(parts: seq<string>, sep: string): string {
    if parts == [] then ""
    else if |parts| == 1 then parts[0]
    else parts[0] + sep + Join(parts[1..], sep)
  }

  function Concat(parts: seq<string>): string {
    if parts == [] then "" else parts[0] + Concat(parts[1..])
  }

  /** Every word followed by one blank: how synthesis annotates its frames. */
  function Spoken(words: seq<string>): string {
    if words == [] then "" else words[0] + " " + Spoken(words[1..])
  }

  /** The words of several texts, one text after the other. */
  function WordsOfAll(parts: seq<string>): seq<string> {
    if parts == [] then [] else Words(parts[0]) + WordsOfAll(parts[1..])
  }

  // ASCII letters only
  function LowerChar(c: char): char {
    if 'A' <= c <= 'Z' then c - 'A' + 'a' else c
  }

  function UpperChar(c: char): char {
    if 'a' <= c <= 'z' then c - 'a' + 'A' else c
  }

  function Lower(s: string): string {
    seq(|s|, i requires 0 <= i < |s| => LowerChar(s[i]))
  }

  function Upper(s: string): string {
    seq(|s|, i requires 0 <= i < |s| => UpperChar(s[i]))
  }

  /** Case is all that these change, and all of it. */
  lemma CaseIsIgnored(s: string)
    ensures Lower(Upper(s)) == Lower(s) && Upper(Lower(s)) == Upper(s)
    ensures Lower("ABCDEFGHIJKLMNOPQRSTUVWXYZ") == "abcdefghijklmnopqrstuvwxyz"
    ensures (forall i | 0 <= i < |s| :: !('A' <= s[i] <= 'Z')) ==> Lower(s) == s
    ensures (forall i | 0 <= i < |s| :: !('a' <= s[i] <= 'z')) ==> Upper(s) == s
  {
  }

  /** What a function gives for each of several things, one after the other. */
  function Flat<S, T>(f: S -> seq<T>, xs: seq<S>): seq<T> {
    if xs == [] then [] else f(xs[0]) + Flat(f, xs[1..])
  }

  lemma {:induction false} FlatBack<S, T>(f: S -> seq<T>, xs: seq<S>)
    requires xs != []
    ensures Flat(f, xs) == Flat(f, xs[..|xs| - 1]) + f(xs[|xs| - 1])
  {
    var n := |xs| - 1;
    if n > 0 {
      FlatBack(f, xs[1..]);
      assert xs[..n][1..] == xs[1..][..n - 1];
      Regroup(f(xs[0]), Flat(f, xs[1..][..n - 1]), f(xs[n]));
    } else {
      assert xs[1..] == [] && xs[..0] == [];
    }
  }

  // ----------------------------------------------------------------- trimming

  lemma StripTrimmed(s: string)
    requires Trimmed(s)
    ensures Strip(s) == s
  {
  }

  lemma {:induction false} StripShape(s: string)
    ensures Strip(s) == "" || Trimmed(Strip(s))
    ensures |Strip(s)| <= |s|
  {
    StripLeftShape(s);
    StripRightShape(StripLeft(s));
  }

  lemma {:induction false} StripLeftShape(s: string)
    ensures StripLeft(s) == "" || !Space(StripLeft(s)[0])
    ensures |StripLeft(s)| <= |s| && StripLeft(s) == s[|s| - |StripLeft(s)|..]
  {
    if s != "" && Space(s[0]) {
      StripLeftShape(s[1..]);
    }
  }

  lemma {:induction false} StripRightShape(s: string)
    ensures StripRight(s) <= s
    ensures StripRight(s) == "" || !Space(StripRight(s)[|StripRight(s)| - 1])
  {
    if s != "" && Space(s[|s| - 1]) {
      StripRightShape(s[..|s| - 1]);
    }
  }

  // -------------------------------------------------------------------- words

  lemma {:induction false} WordsAreWords(s: string)
    ensures forall w | w in Words(s) :: IsWord(w)
    decreases |s|
  {
    if s == "" {
    } else if Space(s[0]) {
      WordsAreWords(s[1..]);
    } else {
      WordsAreWords(s[WordEnd(s)..]);
    }
  }

  /** Cutting a text next to whitespace cuts its word list at the same place. */
  lemma {:induction false} WordsSplit(a: string, b: string)
    requires a == "" || b == "" || Space(a[|a| - 1]) || Space(b[0])
    ensures Words(a + b) == Words(a) + Words(b)
    decreases |a|
  {
    if a == "" {
      assert a + b == b;
    } else if Space(a[0]) {
      assert (a + b)[1..] == a[1..] + b;
      WordsSplit(a[1..], b);
    } else {
      var n := WordEnd(a);
      WordsStepOver(a, b);
      WordsSplit(a[n..], b);
      Regroup([a[..n]], Words(a[n..]), Words(b));
    }
  }

  lemma Regroup<T>(a: seq<T>, b: seq<T>, c: seq<T>)
    ensures a + (b + c) == a + b + c
  {
  }

  lemma WordsStepOver(a: string, b: string)
    requires a != "" && !Space(a[0])
    requires b == "" || Space(a[|a| - 1]) || Space(b[0])
    ensures var n := WordEnd(a);
            n > 0 && Words(a + b) == [a[..n]] + Words(a[n..] + b)
  {
    var n := WordEnd(a);
    WordEndUnique(a + b, n);
    CutAppended(a, b, n);
  }

  lemma CutAppended<T>(a: seq<T>, b: seq<T>, n: nat)
    requires n <= |a|
    ensures (a + b)[..n] == a[..n] && (a + b)[n..] == a[n..] + b
  {
  }

  lemma {:induction false} WordEndUnique(s: string, n: nat)
    requires n <= |s|
    requires forall i | 0 <= i < n :: !Space(s[i])
    requires n == |s| || Space(s[n])
    ensures WordEnd(s) == n
  {
    if n != 0 {
      WordEndUnique(s[1..], n - 1);
    }
  }

  lemma WordsOfWord(w: string)
    requires IsWord(w)
    ensures Words(w) == [w]
  {
    WordEndUnique(w, |w|);
    assert w[..|w|] == w && w[|w|..] == "";
  }

  lemma WordsOfSpace(s: string)
    requires forall i | 0 <= i < |s| :: Space(s[i])
    ensures Words(s) == []
    decreases |s|
  {
    if s != "" {
      WordsOfSpace(s[1..]);
    }
  }

  lemma WordsAfterSpace(space: string, b: string)
    requires forall i | 0 <= i < |space| :: Space(space[i])
    ensures Words(space + b) == Words(b)
  {
    if space == "" {
      assert space + b == b;
    } else {
      assert (space + b)[1..] == space[1..] + b;
      WordsAfterSpace(space[1..], b);
    }
  }

  lemma WordsAround(a: string, space: string, b: string)
    requires space != "" && forall i | 0 <= i < |space| :: Space(space[i])
    ensures Words(a + (space + b)) == Words(a) + Words(b)
  {
    WordsAfterSpace(space, b);
    WordsSplit(a, space + b);
  }

  lemma {:induction false} WordsStrip(s: string)
    ensures Words(Strip(s)) == Words(s)
  {
    WordsStripLeft(s);
    WordsStripRight(StripLeft(s));
  }

  lemma {:induction false} WordsStripLeft(s: string)
    ensures Words(StripLeft(s)) == Words(s)
  {
    if s != "" && Space(s[0]) {
      WordsStripLeft(s[1..]);
    }
  }

  lemma {:induction false} WordsStripRight(s: string)
    ensures Words(StripRight(s)) == Words(s)
  {
    if s != "" && Space(s[|s| - 1]) {
      var a, b := s[..|s| - 1], s[|s| - 1..];
      assert a + b == s;
      WordsStripRight(a);
      WordsSplit(a, b);
      WordsOfSpace(b);
    }
  }

  // ------------------------------------------------------------ spoken, joined

  lemma {:induction false} SpokenAppend(a: seq<string>, b: seq<string>)
    ensures Spoken(a + b) == Spoken(a) + Spoken(b)
  {
    if a == [] {
      assert a + b == b;
    } else {
      assert (a + b)[1..] == a[1..] + b;
      SpokenAppend(a[1..], b);
      assert Spoken(a + b) == a[0] + " " + (Spoken(a[1..]) + Spoken(b));
    }
  }

  lemma {:induction false} SpokenIsJoined(words: seq<string>)
    requires words != []
    ensures Spoken(words) == Join(words, " ") + " "
  {
    if |words| > 1 {
      SpokenIsJoined(words[1..]);
    }
  }

  lemma {:induction false} JoinTrimmed(parts: seq<string>, sep: string)
    requires parts != []
    requires forall p | p in parts :: Trimmed(p)
    ensures Trimmed(Join(parts, sep))
  {
    assert Trimmed(parts[0]);
    if |parts| > 1 {
      JoinTrimmed(parts[1..], sep);
      var rest := Join(parts[1..], sep);
      var all := parts[0] + sep + rest;
      assert all[0] == parts[0][0] && all[|all| - 1] == rest[|rest| - 1];
    }
  }

  lemma {:induction false} JoinAppend(parts: seq<string>, p: string, sep: string)
    requires parts != []
    ensures Join(parts + [p], sep) == Join(parts, sep) + sep + p
  {
    if |parts| == 1 {
      assert (parts + [p])[1..] == [p];
    } else {
      JoinAppend(parts[1..], p, sep);
      assert (parts + [p])[1..] == parts[1..] + [p];
      assert parts[0] + sep + (Join(parts[1..], sep) + sep + p) == parts[0] + sep + Join(parts[1..], sep) + sep + p;
    }
  }

  lemma {:induction false} ConcatAppend(parts: seq<string>, p: string)
    ensures Concat(parts + [p]) == Concat(parts) + p
  {
    if parts == [] {
      assert [p][1..] == [];
    } else {
      assert (parts + [p])[1..] == parts[1..] + [p];
      ConcatAppend(parts[1..], p);
    }
  }

  /** Trimming what was spoken leaves the words joined by single blanks. */
  lemma {:induction false} StripSpoken(words: seq<string>)
    requires forall w | w in words :: IsWord(w)
    ensures Strip(Spoken(words)) == Join(words, " ")
  {
    if words != [] {
      SpokenIsJoined(words);
      var joined := Join(words, " ");
      forall w | w in words ensures Trimmed(w) {
        assert !Space(w[0]) && !Space(w[|w| - 1]);
      }
      JoinTrimmed(words, " ");
      assert (joined + " ")[..|joined + " "| - 1] == joined;
      assert Space(' ');
      assert StripRight(joined) == joined;
    }
  }

  /** Joining words by blanks and reading the words back is the identity. */
  lemma {:induction false} WordsOfJoined(words: seq<string>)
    requires forall w | w in words :: IsWord(w)
    ensures Words(Join(words, " ")) == words
  {
    if |words| == 0 {
    } else {
      WordsOfWord(words[0]);
      if |words| > 1 {
        var rest := Join(words[1..], " ");
        WordsOfJoined(words[1..]);
        assert words[0] + " " + rest == words[0] + (" " + rest);
        WordsSplit(words[0], " " + rest);
        WordsSplit(" ", rest);
        WordsOfSpace(" ");
      }
    }
  }

  /** No whitespace at either end, and inside only single blanks. */
  predicate SingleBlanked(s: string) {
    s == "" || (Trimmed(s) && forall i | 0 <= i < |s| && Space(s[i]) :: s[i] == ' ' && !Space(s[i + 1]))
  }

  lemma {:induction false} JoinedIsSingleBlanked(words: seq<string>)
    requires forall w | w in words :: IsWord(w)
    ensures SingleBlanked(Join(words, " "))
  {
    if |words| == 1 {
      assert IsWord(words[0]);
    } else if |words| > 1 {
      JoinedIsSingleBlanked(words[1..]);
      forall w | w in words ensures Trimmed(w) {
        assert IsWord(w);
      }
      JoinTrimmed(words[1..], " ");
      WordThenBlanked(words[0], Join(words[1..], " "));
    }
  }

  lemma WordThenBlanked(word: string, rest: string)
    requires IsWord(word) && SingleBlanked(rest) && rest != ""
    ensures SingleBlanked(word + " " + rest)
  {
    var s := word + " " + rest;
    assert s[|s| - 1] == rest[|rest| - 1] && s[0] == word[0];
    forall i | 0 <= i < |s| && Space(s[i]) ensures s[i] == ' ' && i + 1 < |s| && !Space(s[i + 1]) {
      if i > |word| {
        assert s[i] == rest[i - |word| - 1];
      }
    }
  }

  lemma {:induction false} SingleBlankedIsJoined(s: string)
    requires SingleBlanked(s)
    ensures Join(Words(s), " ") == s
    decreases |s|
  {
    if s != "" {
      var n := WordEnd(s);
      if n < |s| {
        AfterBlank(s, n);
        SingleBlankedIsJoined(s[n + 1..]);
        JoinOverBlank(s[..n], s[n + 1..]);
      } else {
        WordsOfWord(s);
      }
    }
  }

  lemma AfterBlank(s: string, n: nat)
    requires SingleBlanked(s) && n < |s| && Space(s[n]) && forall i | 0 <= i < n :: !Space(s[i])
    ensures IsWord(s[..n]) && SingleBlanked(s[n + 1..]) && s[n + 1..] != ""
    ensures s == s[..n] + " " + s[n + 1..]
  {
    var rest := s[n + 1..];
    assert forall i | 0 <= i < |rest| :: rest[i] == s[n + 1 + i];
  }

  lemma JoinOverBlank(word: string, rest: string)
    requires IsWord(word) && rest != "" && !Space(rest[0])
    ensures Join(Words(word + " " + rest), " ") == word + " " + Join(Words(rest), " ")
  {
    assert word + " " + rest == word + (" " + rest);
    WordsAround(word, " ", rest);
    WordsOfWord(word);
    JoinFront(word, Words(rest), " ");
  }

  lemma JoinFront(part: string, parts: seq<string>, sep: string)
    requires parts != []
    ensures Join([part] + parts, sep) == part + sep + Join(parts, sep)
  {
  }

  /** Joining a text's words by single blanks gives the text exactly if it is so blanked. */
  lemma RejoinedIff(s: string)
    ensures Join(Words(s), " ") == s <==> SingleBlanked(s)
  {
    WordsAreWords(s);
    JoinedIsSingleBlanked(Words(s));
    if SingleBlanked(s) {
      SingleBlankedIsJoined(s);
    }
  }

  lemma {:induction false} WordsOfAllAppend(a: seq<string>, b: seq<string>)
    ensures WordsOfAll(a + b) == WordsOfAll(a) + WordsOfAll(b)
  {
    if a == [] {
      assert a + b == b;
    } else {
      assert (a + b)[1..] == a[1..] + b;
      WordsOfAllAppend(a[1..], b);
    }
  }
}
