/**
 JSON values. Numbers and the words null, true, false and those for figures without
 a finite value stay as they are written.
 */
module JsonValues {

  /** The characters of numbers and words. */
  predicate BareChar(c: char) {
    'a' <= c <= 'z' || 'A' <= c <= 'Z' || '0' <= c <= '9' || c == '-' || c == '+' || c == '.'
  }

  const WORDS := {"null", "true", "false", "NaN", "Infinity", "-Infinity"}

  function DigitsEnd(s: string, i: nat): (j: nat)
    requires i <= |s|
    ensures i <= j <= |s| && forall k | i <= k < j :: '0' <= s[k] <= '9'
    decreases |s| - i
  {
    if i < |s| && '0' <= s[i] <= '9' then DigitsEnd(s, i + 1) else i
  }

  /** Where the integer part of a number ends: no zero may lead other digits. */
  function WholeEnd(s: string): (j: nat)
    ensures j <= |s|
  {
    var i := if s != "" && s[0] == '-' then 1 else 0;
    if i < |s| && s[i] == '0' then i + 1 else DigitsEnd(s, i)
  }

  function FractionEnd(s: string, i: nat): (j: nat)
    requires i <= |s|
    ensures i <= j <= |s|
  {
    if i < |s| && s[i] == '.' then DigitsEnd(s, i + 1) else i
  }

  /** An optional exponent, which has digits, ends the number. */
  predicate ExponentAt(s: string, i: nat)
    requires i <= |s|
  {
    i == |s|
    || ((s[i] == 'e' || s[i] == 'E')
        && var j := if i + 1 < |s| && (s[i + 1] == '-' || s[i + 1] == '+') then i + 2 else i + 1;
           j < |s| && DigitsEnd(s, j) == |s|)
  }

  predicate IsNumber(s: string) {
    var whole := WholeEnd(s);
    var fraction := FractionEnd(s, whole);
    && whole > 0 && '0' <= s[whole - 1] <= '9'
    && (fraction > whole ==> '0' <= s[fraction - 1] <= '9')
    && ExponentAt(s, fraction)
  }

  predicate AllBare(s: string) {
    forall i | 0 <= i < |s| :: BareChar(s[i])
  }

  predicate IsAtom(s: string) {
    s != "" && AllBare(s) && (s in WORDS || IsNumber(s))
  }

  lemma ZeroIsAtom()
    ensures IsAtom("0")
  {
  }

  type Bare = s: string | IsAtom(s) ghost witness (ZeroIsAtom(); "0")

  datatype Json = Atom(word: Bare) | Str(text: string) | Arr(items: seq<Json>) | Obj(members: map<string, Json>)

  // -------------------------------------------------------- what a number looks like

  predicate IsDigits(s: string) {
    s != "" && forall i | 0 <= i < |s| :: '0' <= s[i] <= '9'
  }

  /** The whole part: zero, or digits that do not start with it. */
  predicate IsWhole(s: string) {
    IsDigits(s) && (s[0] == '0' ==> |s| == 1)
  }

  predicate IsFraction(s: string) {
    s == "" || (s[0] == '.' && IsDigits(s[1..]))
  }

  predicate IsExponent(s: string) {
    || s == ""
    || (|s| > 1 && (s[0] == 'e' || s[0] == 'E')
        && if s[1] == '+' || s[1] == '-' then IsDigits(s[2..]) else IsDigits(s[1..]))
  }

  /** The four parts of a number in writing. */
  datatype Parts = Parts(sign: string, whole: string, fraction: string, exponent: string)
  {
    predicate Valid() {
      (sign == "" || sign == "-") && IsWhole(whole) && IsFraction(fraction) && IsExponent(exponent)
    }

    function Text(): string {
      sign + whole + fraction + exponent
    }
  }

  lemma {:induction false} DigitsEndIs(s: string, i: nat, j: nat)
    requires i <= j <= |s| && forall k | i <= k < j :: '0' <= s[k] <= '9'
    requires j < |s| ==> !('0' <= s[j] <= '9')
    ensures DigitsEnd(s, i) == j
    decreases j - i
  {
    if i < j {
      DigitsEndIs(s, i + 1, j);
    }
  }

  /** Where the digits end, none follows. */
  lemma {:induction false} NoDigitFollows(s: string, i: nat)
    requires i <= |s|
    ensures DigitsEnd(s, i) < |s| ==> !('0' <= s[DigitsEnd(s, i)] <= '9')
    decreases |s| - i
  {
    if i < |s| && '0' <= s[i] <= '9' {
      NoDigitFollows(s, i + 1);
    }
  }

  /** Whatever has such parts is a number. */
  lemma PartsAreNumber(p: Parts)
    requires p.Valid()
    ensures IsNumber(p.Text())
  {
    var s := p.Text();
    var a, b, c := |p.sign|, |p.sign| + |p.whole|, |p.sign| + |p.whole| + |p.fraction|;
    WholeEndIs(p, s);
    FractionEndIs(p, s, b, c);
    ExponentIs(p, s, c);
    assert s[b - 1] == p.whole[|p.whole| - 1];
    if c > b {
      assert s[c - 1] == p.fraction[|p.fraction| - 1] == p.fraction[1..][|p.fraction| - 2];
    }
  }

  lemma WholeEndIs(p: Parts, s: string)
    requires p.Valid() && s == p.Text()
    ensures WholeEnd(s) == |p.sign| + |p.whole|
  {
    var a, b := |p.sign|, |p.sign| + |p.whole|;
    assert forall k | a <= k < b :: s[k] == p.whole[k - a];
    assert b < |s| ==> s[b] == (p.fraction + p.exponent)[0];
    assert p.sign == "" ==> s[0] == p.whole[0];
    if p.whole[0] != '0' {
      DigitsEndIs(s, a, b);
    }
  }

  lemma FractionEndIs(p: Parts, s: string, b: nat, c: nat)
    requires p.Valid() && s == p.Text() && b == |p.sign| + |p.whole| && c == b + |p.fraction|
    ensures FractionEnd(s, b) == c
  {
    assert c < |s| ==> s[c] == p.exponent[0];
    if p.fraction != "" {
      assert forall k | b <= k < c :: s[k] == p.fraction[k - b];
      assert forall k | b < k < c :: s[k] == p.fraction[1..][k - b - 1];
      DigitsEndIs(s, b + 1, c);
    }
  }

  lemma ExponentIs(p: Parts, s: string, c: nat)
    requires p.Valid() && s == p.Text() && c == |p.sign| + |p.whole| + |p.fraction|
    ensures ExponentAt(s, c)
  {
    if p.exponent != "" {
      assert forall k | c <= k < |s| :: s[k] == p.exponent[k - c];
      var signed := p.exponent[1] == '+' || p.exponent[1] == '-';
      var j := if signed then c + 2 else c + 1;
      assert forall k | j <= k < |s| :: s[k] == p.exponent[if signed then 2 else 1..][k - j];
      DigitsEndIs(s, j, |s|);
    }
  }

  lemma WholeReads(s: string, a: nat)
    requires IsNumber(s) && a == if s[0] == '-' then 1 else 0
    ensures a < WholeEnd(s) && IsWhole(s[a..WholeEnd(s)])
  {
  }

  lemma FractionReads(s: string)
    requires IsNumber(s)
    ensures IsFraction(s[WholeEnd(s)..FractionEnd(s, WholeEnd(s))])
  {
    var b := WholeEnd(s);
    var c := FractionEnd(s, b);
    if c > b {
      assert s[b] == '.' && c == DigitsEnd(s, b + 1) && '0' <= s[c - 1] <= '9';
      var digits := s[b + 1..c];
      assert s[b..c][1..] == digits && c > b + 1;
      assert forall i | 0 <= i < |digits| :: digits[i] == s[b + 1 + i];
    } else {
      assert s[b..c] == "";
    }
  }

  lemma CutsJoin(s: string, a: nat, b: nat, c: nat)
    requires a <= b <= c <= |s|
    ensures s[..a] + s[a..b] + s[b..c] + s[c..] == s
  {
  }

  /** And every number has such parts. */
  lemma NumberHasParts(s: string) returns (p: Parts)
    requires IsNumber(s)
    ensures p.Valid() && p.Text() == s
  {
    hide DigitsEnd, IsWhole, IsFraction, IsExponent;
    var a := if s[0] == '-' then 1 else 0;
    var b := WholeEnd(s);
    var c := FractionEnd(s, b);
    WholeReads(s, a);
    FractionReads(s);
    ExponentReads(s, c);
    CutsJoin(s, a, b, c);
    p := Parts(s[..a], s[a..b], s[b..c], s[c..]);
  }

  lemma ExponentReads(s: string, c: nat)
    requires c <= |s| && ExponentAt(s, c)
    ensures IsExponent(s[c..])
  {
    if c < |s| {
      var j := if c + 1 < |s| && (s[c + 1] == '-' || s[c + 1] == '+') then c + 2 else c + 1;
      assert s[c..][j - c..] == s[j..];
    }
  }

  lemma BareAppend(a: string, b: string)
    requires AllBare(a) && AllBare(b)
    ensures AllBare(a + b)
  {
  }

  lemma PartsAreBare(p: Parts)
    requires p.Valid()
    ensures AllBare(p.Text()) && p.Text() != ""
  {
    assert AllBare(p.fraction) by {
      assert p.fraction != "" ==> forall i | 0 < i < |p.fraction| :: p.fraction[i] == p.fraction[1..][i - 1];
    }
    assert AllBare(p.exponent) by {
      assert p.exponent != "" ==>
          && (forall i | 1 < i < |p.exponent| :: p.exponent[i] == p.exponent[2..][i - 2])
          && (forall i | 0 < i < |p.exponent| :: p.exponent[i] == p.exponent[1..][i - 1]);
    }
    BareAppend(p.sign, p.whole);
    BareAppend(p.sign + p.whole, p.fraction);
    BareAppend(p.sign + p.whole + p.fraction, p.exponent);
  }

  /** Besides strings, lists and objects there are six words and the numbers. */
  lemma AtomIff(s: string)
    ensures IsAtom(s) <==> s in ["null", "true", "false", "NaN", "Infinity", "-Infinity"] || IsNumber(s)
  {
    hide IsNumber, AllBare;
    WordsAre(s);
    if IsNumber(s) {
      NumbersAreBare(s);
    }
  }

  lemma WordsAre(s: string)
    ensures s in WORDS <==> s in ["null", "true", "false", "NaN", "Infinity", "-Infinity"]
    ensures s in WORDS ==> s != "" && AllBare(s)
  {
  }

  lemma NumbersAreBare(s: string)
    requires IsNumber(s)
    ensures s != "" && AllBare(s)
  {
    hide *;
    var p := NumberHasParts(s);
    PartsAreBare(p);
  }
}
