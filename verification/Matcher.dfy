/**
  The backtracking matcher of grep.c:72-106 against the meaning of patterns.

  A C string is its sequence of characters before the terminating NUL.
 */
module Matcher {

  /** A pattern after any leading `^`: characters, starred characters, and whether a final `$` anchors it. */
  datatype Regex =
    | End(dollar: bool)
    | One(c: char, rest: Regex)
    | Many(c: char, rest: Regex)

  function Read(re: string): Regex
    decreases |re|
  {
    if re == [] then End(false)
    else if |re| >= 2 && re[1] == '*' then Many(re[0], Read(re[2..]))
    else if re == "$" then End(true)
    else One(re[0], Read(re[1..]))
  }

  // ----- how patterns are written -----

  /** `r` as one types it. */
  function Show(r: Regex): string {
    match r
    case End(dollar) => if dollar then "$" else ""
    case One(c, rest) => [c] + Show(rest)
    case Many(c, rest) => [c, '*'] + Show(rest)
  }

  /** No character is typed right before a `*` that is not its star, and none is a `$` at the very end. */
  predicate Writable(r: Regex) {
    match r
    case End(_) => true
    case One(c, rest) => !(!rest.End? && rest.c == '*') && !(c == '$' && rest == End(false)) && Writable(rest)
    case Many(_, rest) => Writable(rest)
  }

  /** Every string is how some pattern is written, namely the one it is read as. */
  lemma {:induction false} ShowRead(re: string)
    ensures Show(Read(re)) == re
    decreases |re|
  {
    if re == [] {
    } else if |re| >= 2 && re[1] == '*' {
      ShowRead(re[2..]);
      assert re == [re[0], '*'] + re[2..];
    } else if re != "$" {
      ShowRead(re[1..]);
      assert re == [re[0]] + re[1..];
    }
  }

  lemma {:induction false} WritableReads(r: Regex)
    requires Writable(r)
    ensures Read(Show(r)) == r
  {
    match r
    case End(_) =>
    case One(c, rest) =>
      WritableReads(rest);
      assert Show(r)[1..] == Show(rest);
      assert Show(rest) == [] <==> rest == End(false);
    case Many(c, rest) =>
      WritableReads(rest);
      assert Show(r)[2..] == Show(rest);
  }

  lemma {:induction false} ReadWritable(re: string)
    ensures Writable(Read(re))
    decreases |re|
  {
    if re == [] {
    } else if |re| >= 2 && re[1] == '*' {
      ReadWritable(re[2..]);
    } else if re != "$" {
      ReadWritable(re[1..]);
      ShowRead(re[1..]);
    }
  }

  /** A pattern is read back as what was written if and only if it can be written. */
  lemma ReadShowIff(r: Regex)
    ensures Read(Show(r)) == r <==> Writable(r)
  {
    if Writable(r) {
      WritableReads(r);
    }
    ReadWritable(Show(r));
  }

  // ----- what a pattern matches -----

  function Dollar(r: Regex): bool {
    match r
    case End(dollar) => dollar
    case One(_, rest) => Dollar(rest)
    case Many(_, rest) => Dollar(rest)
  }

  /** Pattern character `c` stands for text character `x`. */
  predicate Fits(c: char, x: char) { c == '.' || c == x }

  predicate AllFit(c: char, s: string) { forall i | 0 <= i < |s| :: Fits(c, s[i]) }

  /** The strings a pattern stands for: one string for each part, joined. */
  ghost predicate Means(r: Regex, s: string) {
    match r
    case End(_) => s == []
    case One(c, rest) => exists s1: string, s2: string :: s == s1 + s2 && |s1| == 1 && Fits(c, s1[0]) && Means(rest, s2)
    case Many(c, rest) => exists s1: string, s2: string :: s == s1 + s2 && AllFit(c, s1) && Means(rest, s2)
  }

  /** The pattern matches the start of `text`: a prefix, or all of it under a `$`. */
  ghost predicate Here(r: Regex, text: string) {
    exists j: nat :: j <= |text| && Means(r, text[..j]) && (Dollar(r) ==> j == |text|)
  }

  lemma OneMatches(c: char, rest: Regex, text: string)
    requires Here(One(c, rest), text)
    ensures text != [] && Fits(c, text[0]) && Here(rest, text[1..])
  {
    var r := One(c, rest);
    var j: nat :| j <= |text| && Means(r, text[..j]) && (Dollar(r) ==> j == |text|);
    var s1: string, s2: string :| text[..j] == s1 + s2 && |s1| == 1 && Fits(c, s1[0]) && Means(rest, s2);
    assert text[..j][0] == s1[0];
    assert text[1..][..j - 1] == (s1 + s2)[1..] == s2;
  }

  lemma MatchesOne(c: char, rest: Regex, text: string)
    requires text != [] && Fits(c, text[0]) && Here(rest, text[1..])
    ensures Here(One(c, rest), text)
  {
    var j: nat :| j <= |text| - 1 && Means(rest, text[1..][..j]) && (Dollar(rest) ==> j == |text| - 1);
    assert text[..j + 1] == [text[0]] + text[1..][..j];
    assert Means(One(c, rest), text[..j + 1]);
  }

  lemma HereOne(c: char, rest: Regex, text: string)
    ensures Here(One(c, rest), text) <==> text != [] && Fits(c, text[0]) && Here(rest, text[1..])
  {
    if Here(One(c, rest), text) {
      OneMatches(c, rest, text);
    } else if text != [] && Fits(c, text[0]) && Here(rest, text[1..]) {
      MatchesOne(c, rest, text);
    }
  }

  /** After some characters that fit `c`, the rest matches. */
  ghost predicate HereAfter(c: char, rest: Regex, text: string, k: nat) {
    k <= |text| && AllFit(c, text[..k]) && Here(rest, text[k..])
  }

  lemma Cut(text: string, j: nat, s1: string, s2: string)
    requires j <= |text| && text[..j] == s1 + s2
    ensures |s1| <= j && text[..|s1|] == s1 && text[|s1|..][..j - |s1|] == s2
  {
    var k := |s1|;
    assert |text[..j]| == k + |s2|;
    assert text[..k] == text[..j][..k];
    assert text[k..][..j - k] == text[..j][k..];
  }

  lemma ManySplits(c: char, rest: Regex, text: string) returns (k: nat)
    requires Here(Many(c, rest), text)
    ensures HereAfter(c, rest, text, k)
  {
    var r := Many(c, rest);
    var j: nat :| j <= |text| && Means(r, text[..j]) && (Dollar(r) ==> j == |text|);
    var s1: string, s2: string :| text[..j] == s1 + s2 && AllFit(c, s1) && Means(rest, s2);
    Cut(text, j, s1, s2);
    k := |s1|;
    assert Means(rest, text[k..][..j - k]);
  }

  lemma ManyJoins(c: char, rest: Regex, text: string, k: nat)
    requires HereAfter(c, rest, text, k)
    ensures Here(Many(c, rest), text)
  {
    var j: nat :| j <= |text| - k && Means(rest, text[k..][..j]) && (Dollar(rest) ==> j == |text| - k);
    assert text[..k + j] == text[..k] + text[k..][..j];
    assert Means(Many(c, rest), text[..k + j]);
  }

  lemma HereMany(c: char, rest: Regex, text: string)
    ensures Here(Many(c, rest), text) <==> exists k: nat :: HereAfter(c, rest, text, k)
  {
    if Here(Many(c, rest), text) {
      var k := ManySplits(c, rest, text);
    }
    if k: nat :| HereAfter(c, rest, text, k) {
      ManyJoins(c, rest, text, k);
    }
  }

  /** `$` alone matches at the end of the text only. */
  lemma HereEnd(dollar: bool, text: string)
    ensures Here(End(dollar), text) <==> !dollar || text == []
  {
    if !dollar || text == [] {
      assert text[..0] == [] && Means(End(dollar), text[..0]);
    }
  }

  // ----- the code -----

  method MatchHere(re: string, text: string) returns (b: bool)
    ensures b <==> Here(Read(re), text)
    decreases |re|, |text|, 0
  {
    if re == [] {
      HereEnd(false, text);
      return true;
    }
    if |re| >= 2 && re[1] == '*' {
      b := MatchStar(re[0], re[2..], text);
      return;
    }
    if re[0] == '$' && |re| == 1 {
      HereEnd(true, text);
      return text == [];
    }
    HereOne(re[0], Read(re[1..]), text);
    if text != [] && (re[0] == '.' || re[0] == text[0]) {
      b := MatchHere(re[1..], text[1..]);
      return;
    }
    return false;
  }

  method MatchStar(c: char, re: string, text: string) returns (b: bool)
    ensures b <==> Here(Many(c, Read(re)), text)
    decreases |re|, |text|, 1
  {
    HereMany(c, Read(re), text);
    var k := 0;
    while true
      invariant 0 <= k <= |text| && AllFit(c, text[..k])
      invariant forall i: nat | i < k :: !HereAfter(c, Read(re), text, i)
      decreases |text| - k
    {
      b := MatchHere(re, text[k..]);
      if b {
        assert HereAfter(c, Read(re), text, k);
        return;
      }
      if k == |text| || !(text[k] == c || c == '.') {
        forall i: nat
          ensures !HereAfter(c, Read(re), text, i)
        {
          assert i > k && i <= |text| ==> text[..i][k] == text[k];
        }
        return;
      }
      k := k + 1;
    }
  }

  /** A whole pattern: `^` fixes where a match starts, a final `$` where it ends. */
  datatype Pattern = Pattern(caret: bool, body: Regex)

  function ShowPattern(p: Pattern): string { (if p.caret then "^" else "") + Show(p.body) }

  /** Without the anchor, a leading `^` would be taken for it. */
  predicate WritablePattern(p: Pattern) {
    Writable(p.body) && (!p.caret && !p.body.End? ==> p.body.c != '^')
  }

  function ReadPattern(re: string): Pattern {
    if re != [] && re[0] == '^' then Pattern(true, Read(re[1..])) else Pattern(false, Read(re))
  }

  /** Every string is how exactly one pattern is written. */
  lemma PatternIff(re: string, p: Pattern)
    ensures p == ReadPattern(re) <==> WritablePattern(p) && ShowPattern(p) == re
  {
    if re != [] && re[0] == '^' {
      ShowRead(re[1..]);
      ReadWritable(re[1..]);
      assert "^" + re[1..] == re;
    } else {
      ShowRead(re);
      ReadWritable(re);
    }
    if WritablePattern(p) && ShowPattern(p) == re {
      WritableReads(p.body);
      if p.caret {
        assert re[1..] == Show(p.body);
      } else {
        assert re == Show(p.body);
        assert p.body.End? || re[0] == p.body.c;
      }
    }
  }

  /** A stretch of the text is one the pattern stands for, in the place the anchors ask for. */
  ghost predicate Occurs(p: Pattern, text: string) {
    exists i: nat, j: nat :: OccursAt(p, text, i, j)
  }

  ghost predicate OccursAt(p: Pattern, text: string, i: nat, j: nat) {
    i <= j <= |text| && Means(p.body, text[i..j]) && (p.caret ==> i == 0) && (Dollar(p.body) ==> j == |text|)
  }

  lemma OccursFrom(p: Pattern, text: string)
    ensures Occurs(p, text) <==> exists i: nat :: i <= |text| && Here(p.body, text[i..]) && (p.caret ==> i == 0)
  {
    if i: nat, j: nat :| OccursAt(p, text, i, j) {
      assert text[i..][..j - i] == text[i..j];
      assert Here(p.body, text[i..]);
    }
    if i: nat :| i <= |text| && Here(p.body, text[i..]) && (p.caret ==> i == 0) {
      var k: nat :| k <= |text[i..]| && Means(p.body, text[i..][..k]) && (Dollar(p.body) ==> k == |text[i..]|);
      assert text[i..][..k] == text[i..i + k];
      assert OccursAt(p, text, i, i + k);
    }
  }

  /** Sound and complete: true exactly when the pattern that is written `re` occurs in the text. */
  method Match(re: string, text: string) returns (b: bool)
    ensures forall p | WritablePattern(p) && ShowPattern(p) == re :: b <==> Occurs(p, text)
    ensures exists p :: WritablePattern(p) && ShowPattern(p) == re
  {
    ghost var p := ReadPattern(re);
    PatternIff(re, p);
    forall q | WritablePattern(q) && ShowPattern(q) == re
      ensures q == p
    {
      PatternIff(re, q);
    }
    OccursFrom(p, text);
    if re != [] && re[0] == '^' {
      b := MatchHere(re[1..], text);
      assert text[0..] == text;
      return;
    }
    var i := 0;
    while true
      invariant 0 <= i <= |text| && forall k: nat | k < i :: !Here(Read(re), text[k..])
      decreases |text| - i
    {
      b := MatchHere(re, text[i..]);
      if b || i == |text| {
        return;
      }
      i := i + 1;
    }
  }

  // ----- patterns without anything special -----

  function Plain(w: string): Regex { if w == [] then End(false) else One(w[0], Plain(w[1..])) }

  predicate NoMeta(w: string) { forall i | 0 <= i < |w| :: w[i] != '.' && w[i] != '*' && w[i] != '$' && w[i] != '^' }

  lemma {:induction false} PlainShow(w: string)
    requires NoMeta(w)
    ensures Show(Plain(w)) == w && Writable(Plain(w)) && !Dollar(Plain(w))
    ensures w == [] <==> Plain(w).End?
    ensures w != [] ==> Plain(w).One? && Plain(w).c == w[0]
  {
    if w != [] {
      PlainShow(w[1..]);
      assert [w[0]] + w[1..] == w;
    }
  }

  lemma {:induction false} PlainMeans(w: string, s: string)
    requires NoMeta(w)
    ensures Means(Plain(w), s) <==> s == w
  {
    if w != [] {
      forall s2: string {
        PlainMeans(w[1..], s2);
      }
      if s == w {
        assert s == [w[0]] + w[1..] && |[w[0]]| == 1;
      }
    }
  }

  /** Such a pattern is found exactly where it stands in the text, character for character. */
  lemma PlainOccurs(w: string, text: string)
    requires NoMeta(w)
    ensures var p := Pattern(false, Plain(w));
            && WritablePattern(p) && ShowPattern(p) == w
            && (Occurs(p, text) <==> exists i: nat, j: nat :: i <= j <= |text| && text[i..j] == w)
  {
    PlainShow(w);
    var p := Pattern(false, Plain(w));
    forall i: nat, j: nat | i <= j <= |text|
      ensures OccursAt(p, text, i, j) <==> text[i..j] == w
    {
      PlainMeans(w, text[i..j]);
    }
  }

  function Dots(k: nat): Regex { if k == 0 then End(false) else One('.', Dots(k - 1)) }

  /** `k` dots stand for the strings of length `k`. */
  lemma {:induction false} DotsMean(k: nat, s: string)
    ensures Show(Dots(k)) == seq(k, i => '.') && (Means(Dots(k), s) <==> |s| == k)
  {
    if k > 0 {
      DotsMean(k - 1, []);
      forall s2: string {
        DotsMean(k - 1, s2);
      }
      if |s| == k {
        assert s == [s[0]] + s[1..] && |[s[0]]| == 1;
      }
    }
  }

  /** A starred character stands for any number of times itself, a starred dot for anything. */
  lemma StarMeans(c: char, s: string)
    ensures Show(Many(c, End(false))) == [c, '*']
    ensures Means(Many(c, End(false)), s) <==> c == '.' || forall i | 0 <= i < |s| :: s[i] == c
  {
    assert s == s + [] && Means(End(false), []);
    if Means(Many(c, End(false)), s) {
      var s1: string, s2: string :| s == s1 + s2 && AllFit(c, s1) && Means(End(false), s2);
      assert s == s1;
    }
    if c == '.' || forall i | 0 <= i < |s| :: s[i] == c {
      assert AllFit(c, s);
    }
  }
}
