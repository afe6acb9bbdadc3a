/** The string operations that the shot normalisation relies on: trimming and decimal numerals.
    White space is ASCII white space. */
module Texts {
  import opened Beats

  predicate IsSpace(c: char) {
    c == ' ' || c == '\t' || c == '\n' || c == '\r' || c == '\U{0B}' || c == '\U{0C}'
  }

  function LStrip(s: string): (r: string)
    ensures |r| <= |s|
    ensures s != "" && IsSpace(s[0]) ==> |r| < |s|
    ensures r != "" ==> !IsSpace(r[0])
  {
    if s != "" && IsSpace(s[0]) then LStrip(s[1..]) else s
  }

  function RStrip(s: string): (r: string)
    ensures r <= s
    ensures r != "" ==> !IsSpace(r[|r| - 1])
  {
    if s != "" && IsSpace(s[|s| - 1]) then RStrip(s[..|s| - 1]) else s
  }

  /** `s.strip()`. */
  function Strip(s: string): string {
    RStrip(LStrip(s))
  }

  /** `re.sub(r"\s+", " ", s)`. */
  function Collapse(s: string): string
    decreases |s|
  {
    if s == "" then ""
    else if IsSpace(s[0]) then " " + Collapse(LStrip(s))
    else [s[0]] + Collapse(s[1..])
  }

  /** The form under which two actions count as the same. */
  function Canonical(s: string): string {
    Strip(Collapse(s))
  }

  /** Non-empty with no white space at either end. */
  predicate Trimmed(s: string) {
    s != "" && !IsSpace(s[0]) && !IsSpace(s[|s| - 1])
  }

  /** Stripping leaves nothing, or a trimmed text. */
  lemma StripTrims(s: string)
    ensures Strip(s) == "" || Trimmed(Strip(s))
  {
    var l := LStrip(s);
    if RStrip(l) != "" {
      assert RStrip(l)[0] == l[0];
    }
  }

  lemma StripTrimmed(s: string)
    requires Trimmed(s)
    ensures Strip(s) == s
    ensures Strip(" " + s) == s
  {
    assert (" " + s)[1..] == s;
    assert LStrip(" " + s) == LStrip(s) == s;
  }

  lemma {:induction false} JoinTrimmed(parts: seq<string>)
    requires parts != [] && forall i :: 0 <= i < |parts| ==> Trimmed(parts[i])
    ensures Trimmed(Join(parts))
  {
    if |parts| > 1 { JoinTrimmed(parts[1..]); }
  }

  /** Stripping takes off white space at both ends and nothing else. */
  lemma {:induction false} LStripCuts(s: string) returns (i: nat)
    ensures i <= |s| && LStrip(s) == s[i..] && forall k :: 0 <= k < i ==> IsSpace(s[k])
  {
    i := 0;
    if s != "" && IsSpace(s[0]) {
      i := LStripCuts(s[1..]);
      assert s[1..][i..] == s[i + 1..];
      assert forall k :: 0 < k <= i ==> s[k] == s[1..][k - 1];
      i := i + 1;
    }
  }

  lemma {:induction false} RStripCuts(s: string)
    ensures forall k :: |RStrip(s)| <= k < |s| ==> IsSpace(s[k])
  {
    if s != "" && IsSpace(s[|s| - 1]) { RStripCuts(s[..|s| - 1]); }
  }

  lemma StripCuts(s: string) returns (i: nat)
    ensures i + |Strip(s)| <= |s| && Strip(s) == s[i..i + |Strip(s)|]
    ensures forall k :: 0 <= k < |s| && !(i <= k < i + |Strip(s)|) ==> IsSpace(s[k])
  {
    i := LStripCuts(s);
    RStripCuts(LStrip(s));
    assert RStrip(s[i..]) == s[i..][..|Strip(s)|];
    forall k | i + |Strip(s)| <= k < |s| ensures IsSpace(s[k]) {
      assert s[k] == s[i..][k - i];
    }
  }

  /** White space and nothing else. */
  predicate AllSpace(s: string) {
    forall k :: 0 <= k < |s| ==> s[k] in {' ', '\t', '\n', '\r', '\U{0B}', '\U{0C}'}
  }

  /** Stripping leaves nothing exactly of white space. */
  lemma StripBlankIff(s: string)
    ensures Strip(s) == "" <==> AllSpace(s)
  {
    var i := StripCuts(s);
    StripTrims(s);
    if Strip(s) != "" {
      assert s[i] == Strip(s)[0] && !IsSpace(s[i]);
    }
  }

  // ---------------------------------------------------------------- words

  /** The text up to its first white space. */
  function Word(s: string): (r: string)
    ensures r <= s && forall k :: 0 <= k < |r| ==> !IsSpace(r[k])
    ensures r == s || IsSpace(s[|r|])
  {
    if s == "" || IsSpace(s[0]) then "" else [s[0]] + Word(s[1..])
  }

  /** The stretches of a text without white space, in order. */
  function Words(s: string): seq<string>
    decreases |s|
  {
    var t := LStrip(s);
    if t == "" then [] else [Word(t)] + Words(t[|Word(t)|..])
  }

  lemma LStripTwice(s: string)
    ensures LStrip(LStrip(s)) == LStrip(s) && Words(LStrip(s)) == Words(s)
  {
  }

  lemma RStripAppend(s: string, t: string)
    requires RStrip(t) != ""
    ensures RStrip(s + t) == s + RStrip(t)
    decreases |t|
  {
    if IsSpace(t[|t| - 1]) {
      assert (s + t)[..|s + t| - 1] == s + t[..|t| - 1];
      RStripAppend(s, t[..|t| - 1]);
    } else {
      RStripEnds(s, t);
    }
  }

  lemma {:induction false} CollapseIsWords(s: string)
    requires s == "" || !IsSpace(s[0])
    ensures RStrip(Collapse(s)) == Join(Words(s))
    decreases |s|
  {
    if s != "" {
      var w := Word(s);
      var rest := s[|w|..];
      assert s == w + rest;
      CollapseSolid(w, rest);
      if rest == "" {
        LastWord(w);
      } else {
        CollapseGap(w, rest);
      }
    }
  }

  lemma LastWord(w: string)
    requires w != "" && !IsSpace(w[|w| - 1])
    ensures RStrip(w + Collapse("")) == Join([w] + Words(""))
  {
    assert w + "" == w && RStrip(w) == w;
    assert [w] + Words("") == [w];
  }

  lemma CollapseGap(w: string, rest: string)
    requires w != "" && (forall k :: 0 <= k < |w| ==> !IsSpace(w[k])) && rest != "" && IsSpace(rest[0])
    ensures RStrip(w + Collapse(rest)) == Join([w] + Words(rest))
    decreases |rest|, 0
  {
    var u := LStrip(rest);
    LStripTwice(rest);
    CollapseIsWords(u);
    if u == "" {
      RStripOneSpace(w);
    } else {
      JoinedWordsAreTrimmed(u);
      RStripGap(w, Collapse(u), Words(u));
    }
  }

  lemma RStripGap(w: string, text: string, words: seq<string>)
    requires words != [] && Join(words) != "" && RStrip(text) == Join(words)
    ensures RStrip(w + (" " + text)) == Join([w] + words)
  {
    RStripAppend(w + " ", text);
    assert w + (" " + text) == (w + " ") + text;
    JoinFirst(w, words);
  }

  lemma RStripOneSpace(w: string)
    requires w != "" && !IsSpace(w[|w| - 1])
    ensures RStrip(w + (" " + Collapse(""))) == Join([w] + [])
  {
    var s := w + " ";
    assert w + (" " + Collapse("")) == s && s[..|w|] == w && |s| == |w| + 1;
    assert RStrip(s) == RStrip(w) == w;
    assert [w] + [] == [w];
  }

  lemma JoinFirst(w: string, words: seq<string>)
    requires words != []
    ensures Join([w] + words) == (w + " ") + Join(words)
  {
    assert ([w] + words)[1..] == words;
  }

  lemma {:induction false} WordsAreSolid(s: string)
    ensures forall i :: 0 <= i < |Words(s)| ==> Solid(Words(s)[i])
    decreases |s|
  {
    var t := LStrip(s);
    if t != "" { WordsAreSolid(t[|Word(t)|..]); }
  }

  /** Non-empty and without white space. */
  predicate Solid(w: string) {
    w != "" && forall k :: 0 <= k < |w| ==> !IsSpace(w[k])
  }

  lemma JoinedWordsAreTrimmed(s: string)
    requires Words(s) != []
    ensures Trimmed(Join(Words(s)))
  {
    WordsAreSolid(s);
    JoinTrimmed(Words(s));
  }

  /** The form in which actions are compared is their words, one space apart. */
  lemma CanonicalIsWords(s: string)
    ensures Canonical(s) == Join(Words(s))
  {
    var u := LStrip(s);
    LStripTwice(s);
    CollapseIsWords(u);
    assert u == "" || Collapse(u)[0] == u[0];
    if s != "" && IsSpace(s[0]) {
      assert (" " + Collapse(u))[1..] == Collapse(u);
      assert LStrip(Collapse(s)) == LStrip(Collapse(u)) == Collapse(u);
    }
  }

  lemma WordIs(s: string, k: nat)
    requires k <= |s| && (forall i :: 0 <= i < k ==> !IsSpace(s[i])) && (k == |s| || IsSpace(s[k]))
    ensures Word(s) == s[..k]
  {
    var r := Word(s);
    forall i | 0 <= i < |r| ensures !IsSpace(s[i]) {
      assert r[i] == s[i];
    }
  }

  lemma WordsStep(w: string, rest: string)
    requires Solid(w) && (rest == "" || IsSpace(rest[0]))
    ensures Words(w + rest) == [w] + Words(rest)
  {
    var s := w + rest;
    WordIs(s, |w|);
    assert s[0] == w[0] && LStrip(s) == s;
    assert s[..|w|] == w && s[|w|..] == rest;
  }

  lemma WordsSkip(c: char, rest: string)
    requires IsSpace(c)
    ensures Words([c] + rest) == Words(rest)
  {
    assert ([c] + rest)[1..] == rest;
  }

  lemma {:induction false} WordsOfJoin(words: seq<string>)
    requires forall i :: 0 <= i < |words| ==> Solid(words[i])
    ensures Words(Join(words)) == words
  {
    if |words| == 1 {
      WordsStep(words[0], "");
      assert words[0] + "" == words[0];
    } else if words != [] {
      var w, rest := words[0], Join(words[1..]);
      WordsOfJoin(words[1..]);
      WordsSkip(' ', rest);
      WordsStep(w, " " + rest);
      assert Join(words) == w + (" " + rest);
      assert words == [w] + words[1..];
    }
  }

  /** Two texts count as the same action exactly if they have the same words. */
  lemma CanonicalEqualIff(a: string, b: string)
    ensures Canonical(a) == Canonical(b) <==> Words(a) == Words(b)
  {
    CanonicalIsWords(a);
    CanonicalIsWords(b);
    WordsAreSolid(a);
    WordsAreSolid(b);
    WordsOfJoin(Words(a));
    WordsOfJoin(Words(b));
  }

  // ---------------------------------------------------------------- decimal numerals

  function Digit(d: nat): char
    requires d < 10
  {
    '0' + d as char
  }

  /** `str(n)`. */
  function Decimal(n: nat): (r: string)
    ensures r != ""
  {
    if n < 10 then [Digit(n)] else Decimal(n / 10) + [Digit(n % 10)]
  }

  /** The number that a string of digits stands for. */
  function Value(s: string): nat {
    if s == "" then 0
    else 10 * Value(s[..|s| - 1]) + (if '0' <= s[|s| - 1] <= '9' then s[|s| - 1] as int - '0' as int else 0)
  }

  /** The numeral has only digits, no leading zero, and reads as the number again. */
  lemma {:induction false} DecimalReads(n: nat)
    ensures Value(Decimal(n)) == n
    ensures forall k :: 0 <= k < |Decimal(n)| ==> '0' <= Decimal(n)[k] <= '9'
    ensures n > 0 ==> Decimal(n)[0] != '0'
  {
    if n >= 10 {
      DecimalReads(n / 10);
      assert Decimal(n)[..|Decimal(n)| - 1] == Decimal(n / 10);
    } else {
      assert Decimal(n)[..0] == "";
    }
  }

  lemma DecimalInjective(a: nat, b: nat)
    requires Decimal(a) == Decimal(b)
    ensures a == b
  {
    DecimalReads(a);
    DecimalReads(b);
  }

  /** A numeral between fixed texts determines its number. */
  lemma NumeralInContext(before: string, a: nat, b: nat, after: string)
    requires before + (Decimal(a) + after) == before + (Decimal(b) + after)
    ensures a == b
  {
    SamePrefix(before, Decimal(a) + after, Decimal(b) + after);
    SameSuffix(Decimal(a), Decimal(b), after);
    DecimalInjective(a, b);
  }

  lemma SamePrefix(p: string, s: string, t: string)
    requires p + s == p + t
    ensures s == t
  {
    assert s == (p + s)[|p|..];
    assert t == (p + t)[|p|..];
  }

  lemma SameSuffix(s: string, t: string, p: string)
    requires s + p == t + p
    ensures s == t
  {
    assert |s| == |t|;
    assert s == (s + p)[..|s|];
    assert t == (t + p)[..|t|];
  }

  lemma {:induction false} LStripAppend(s: string, t: string)
    ensures LStrip(s + t) == if LStrip(s) == "" then LStrip(t) else LStrip(s) + t
  {
    if s == "" {
      assert s + t == t;
    } else if IsSpace(s[0]) {
      assert (s + t)[1..] == s[1..] + t;
      LStripAppend(s[1..], t);
    }
  }

  // ---------------------------------------------------------------- collapsing around a numeral

  /** Collapsing goes piece by piece where the second piece starts with no white space. */
  lemma {:induction false} CollapseAppend(s: string, t: string)
    requires t != "" && !IsSpace(t[0])
    ensures Collapse(s + t) == Collapse(s) + Collapse(t)
    decreases |s|
  {
    if s == "" {
      assert s + t == t;
    } else if IsSpace(s[0]) {
      LStripAppend(s, t);
      if LStrip(s) == "" {
        assert Collapse(LStrip(s)) == "";
      } else {
        CollapseAppend(LStrip(s), t);
      }
    } else {
      assert (s + t)[1..] == s[1..] + t;
      CollapseAppend(s[1..], t);
    }
  }

  /** Text without white space is left as it is. */
  lemma {:induction false} CollapseSolid(d: string, t: string)
    requires forall k :: 0 <= k < |d| ==> !IsSpace(d[k])
    ensures Collapse(d + t) == d + Collapse(t)
  {
    if d == "" {
      assert d + t == t;
    } else {
      assert (d + t)[1..] == d[1..] + t;
      CollapseSolid(d[1..], t);
      assert d == [d[0]] + d[1..];
    }
  }

  lemma {:induction false} DecimalIsSolid(n: nat)
    ensures forall k :: 0 <= k < |Decimal(n)| ==> !IsSpace(Decimal(n)[k])
  {
    if n >= 10 { DecimalIsSolid(n / 10); }
  }

  lemma CollapseEnds(s: string)
    requires s != "" && !IsSpace(s[|s| - 1])
    ensures Collapse(s) != "" && !IsSpace(Collapse(s)[|Collapse(s)| - 1])
  {
    var last := [s[|s| - 1]];
    assert s == s[..|s| - 1] + last;
    CollapseAppend(s[..|s| - 1], last);
    assert Collapse(last) == last;
  }

  /** A numeral in a text survives normalisation: it stands between texts that do not depend on it. */
  lemma CanonicalNumeral(before: string, n: nat, after: string)
    requires after != "" && !IsSpace(after[|after| - 1])
    ensures Canonical(before + Decimal(n) + after) == LStrip(Collapse(before)) + (Decimal(n) + Collapse(after))
  {
    DecimalIsSolid(n);
    CollapseAround(before, Decimal(n), after);
    StripAround(Collapse(before), Decimal(n), after);
  }

  lemma StripAround(p: string, d: string, after: string)
    requires d != "" && !IsSpace(d[0]) && after != "" && !IsSpace(after[|after| - 1])
    ensures Strip(p + (d + Collapse(after))) == LStrip(p) + (d + Collapse(after))
  {
    CollapseEnds(after);
    StripKeepsEnd(p, d, Collapse(after));
  }

  lemma CollapseAround(before: string, d: string, after: string)
    requires d != "" && forall k :: 0 <= k < |d| ==> !IsSpace(d[k])
    ensures Collapse(before + d + after) == Collapse(before) + (d + Collapse(after))
  {
    assert (d + after)[0] == d[0];
    assert before + d + after == before + (d + after);
    CollapseAppend(before, d + after);
    CollapseSolid(d, after);
  }

  lemma StripKeepsEnd(p: string, d: string, e: string)
    requires d != "" && !IsSpace(d[0]) && e != "" && !IsSpace(e[|e| - 1])
    ensures Strip(p + (d + e)) == LStrip(p) + (d + e)
  {
    var t := d + e;
    assert t[0] == d[0] && t[|t| - 1] == e[|e| - 1];
    StripAppend(p, t);
  }

  /** Stripping leaves a trimmed tail whole. */
  lemma StripAppend(p: string, t: string)
    requires Trimmed(t)
    ensures Strip(p + t) == LStrip(p) + t
  {
    LStripAppend(p, t);
    if LStrip(p) == "" {
      assert LStrip(p) + t == t;
      RStripEnds("", t);
      assert "" + t == t;
    } else {
      RStripEnds(LStrip(p), t);
    }
  }

  lemma RStripEnds(s: string, t: string)
    requires t != "" && !IsSpace(t[|t| - 1])
    ensures RStrip(s + t) == s + t
  {
    assert (s + t)[|s + t| - 1] == t[|t| - 1];
  }

  /** So two such texts are never the same action. */
  lemma CanonicalNumeralInjective(before: string, a: nat, b: nat, after: string)
    requires after != "" && !IsSpace(after[|after| - 1])
    requires Canonical(before + Decimal(a) + after) == Canonical(before + Decimal(b) + after)
    ensures a == b
  {
    CanonicalNumeral(before, a, after);
    CanonicalNumeral(before, b, after);
    NumeralInContext(LStrip(Collapse(before)), a, b, Collapse(after));
  }
}
