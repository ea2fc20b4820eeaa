/** The tokens of a line of text (sh.c:262-320), and text that has given tokens. */
module ShellText {
  import opened ShellGrammar

  predicate Blank(c: char) { c == ' ' || c == '\t' || c == '\r' || c == '\n' || c == '\U{0B}' }

  predicate Symbol(c: char) { c in "<|>&;()" }

  predicate WordChar(c: char) { !Blank(c) && !Symbol(c) && c != '\0' }

  /** A C string has no NUL inside. */
  predicate NoNul(s: string) { forall i | 0 <= i < |s| :: s[i] != '\0' }

  function SkipBlanks(s: string, i: nat): (j: nat)
    requires i <= |s|
    ensures i <= j <= |s| && (j < |s| ==> !Blank(s[j])) && forall k | i <= k < j :: Blank(s[k])
    decreases |s| - i
  {
    if i < |s| && Blank(s[i]) then SkipBlanks(s, i + 1) else i
  }

  function WordEnd(s: string, i: nat): (j: nat)
    requires i <= |s|
    ensures i <= j <= |s| && (j < |s| ==> !WordChar(s[j])) && forall k | i <= k < j :: WordChar(s[k])
    decreases |s| - i
  {
    if i < |s| && WordChar(s[i]) then WordEnd(s, i + 1) else i
  }

  /** Where the token that begins at `q` ends. */
  function TokenEnd(s: string, q: nat): (e: nat)
    requires q < |s|
    ensures q < e <= |s|
  {
    if s[q] == '>' && q + 1 < |s| && s[q + 1] == '>' then q + 2
    else if Symbol(s[q]) || !WordChar(s[q]) then q + 1
    else WordEnd(s, q)
  }

  function TokenAt(s: string, q: nat): Tok
    requires q < |s|
  {
    if s[q] == '>' && q + 1 < |s| && s[q + 1] == '>' then Sym('+')
    else if Symbol(s[q]) then Sym(s[q])
    else Word(s[q..TokenEnd(s, q)])
  }

  /** The tokens from position `i` on. */
  function Lex(s: string, i: nat): Toks
    requires i <= |s|
    decreases |s| - i
  {
    var q := SkipBlanks(s, i);
    if q == |s| then Nil else Cons(TokenAt(s, q), Lex(s, TokenEnd(s, q)))
  }

  lemma {:induction false} LexAfterBlanks(s: string, i: nat, j: nat)
    requires i <= |s| && i <= j <= SkipBlanks(s, i)
    ensures j <= |s| && Lex(s, j) == Lex(s, i)
    decreases j - i
  {
    if i < j {
      LexAfterBlanks(s, i + 1, j);
    }
  }

  // ----- text for tokens -----

  /** A word the lexer gives back whole. */
  predicate Ordinary(w: string) { w != [] && forall i | 0 <= i < |w| :: WordChar(w[i]) }

  function TokText(t: Tok): string {
    match t
    case Word(text) => text
    case Sym(c) => if c == '+' then ">>" else [c]
  }

  predicate TokOk(t: Tok) { if t.Word? then Ordinary(t.text) else t.c == '+' || Symbol(t.c) }

  predicate ToksOk(t: Toks) { t.Nil? || (TokOk(t.head) && ToksOk(t.tail)) }

  /** Every token followed by a space. */
  function Render(t: Toks): string { if t.Nil? then [] else TokText(t.head) + " " + Render(t.tail) }

  lemma {:induction false} WordEndAt(s: string, i: nat, e: nat)
    requires i <= e < |s| && !WordChar(s[e]) && forall k | i <= k < e :: WordChar(s[k])
    ensures WordEnd(s, i) == e
    decreases e - i
  {
    if i < e {
      WordEndAt(s, i + 1, e);
    }
  }

  /** A token set off by a space is read whole. */
  lemma LexOne(s: string, q: nat, t: Tok)
    requires TokOk(t) && q + |TokText(t)| < |s| && s[q + |TokText(t)|] == ' ' && s[q..q + |TokText(t)|] == TokText(t)
    ensures SkipBlanks(s, q) == q && TokenEnd(s, q) == q + |TokText(t)| && TokenAt(s, q) == t
  {
    var e := q + |TokText(t)|;
    assert forall k | q <= k < e :: s[k] == s[q..e][k - q];
    if t.Word? {
      WordEndAt(s, q, e);
    }
  }

  /** Always true; a reading is unfolded only where a proof names its place in `Look`. */
  ghost predicate Look(q: int) { true }

  /** The tokens of `s` from `q` on are `t`. */
  ghost predicate Reads(s: string, q: int, t: Toks) {
    forall i: nat {:trigger Look(i)} | i == q && Look(i) :: i <= |s| && Lex(s, i) == t
  }

  lemma ReadsSpaced(s: string, q: nat, t: Tok, rest: Toks)
    requires TokOk(t) && q + |TokText(t)| < |s| && s[q + |TokText(t)|] == ' ' && s[q..q + |TokText(t)|] == TokText(t)
    requires Reads(s, q + |TokText(t)| + 1, rest)
    ensures Reads(s, q, Cons(t, rest))
  {
    assert Look(q + |TokText(t)| + 1);
    LexSpaced(s, q, t, rest);
  }

  lemma LexSpaced(s: string, q: nat, t: Tok, rest: Toks)
    requires TokOk(t) && q + |TokText(t)| < |s| && s[q + |TokText(t)|] == ' ' && s[q..q + |TokText(t)|] == TokText(t)
    requires Lex(s, q + |TokText(t)| + 1) == rest
    ensures Lex(s, q) == Cons(t, rest)
  {
    LexOne(s, q, t);
    LexToken(s, q, q + |TokText(t)|, t, rest);
  }

  lemma LexToken(s: string, q: nat, e: nat, t: Tok, rest: Toks)
    requires q <= e < |s| && SkipBlanks(s, q) == q && TokenEnd(s, q) == e && TokenAt(s, q) == t
    requires s[e] == ' ' && Lex(s, e + 1) == rest
    ensures Lex(s, q) == Cons(t, rest)
  {
    SpaceSkipped(s, e);
    LexAfterBlanks(s, e, e + 1);
  }

  lemma SpaceSkipped(s: string, e: nat)
    requires e < |s| && s[e] == ' '
    ensures SkipBlanks(s, e) >= e + 1
  {
  }

  lemma Front(s: string, q: nat, text: string, rest: string)
    requires q <= |s| && s[q..] == text + " " + rest
    ensures q + |text| < |s| && s[q..q + |text|] == text && s[q + |text|] == ' ' && s[q + |text| + 1..] == rest
  {
    var e := q + |text|;
    assert |s[q..]| == |text| + 1 + |rest|;
    assert s[q..e] == s[q..][..|text|];
    assert s[e] == s[q..][|text|];
    assert s[e + 1..] == s[q..][|text| + 1..];
  }

  lemma {:induction false} LexRender(s: string, q: nat, t: Toks)
    requires ToksOk(t) && q <= |s| && s[q..] == Render(t)
    ensures Reads(s, q, t)
    decreases t
  {
    if t.Cons? {
      var text := TokText(t.head);
      Front(s, q, text, Render(t.tail));
      LexRender(s, q + |text| + 1, t.tail);
      ReadsSpaced(s, q, t.head, t.tail);
    }
  }

  // ----- commands as text -----

  /** The words of `c` are ordinary and no command has too many. */
  predicate Typeable(c: Cmd) { Emitted(c, Ordinary) }

  /** `c` typed out, every token set off by a space. */
  function TextOf(c: Cmd): string { Render(PrintLine(c, Nil)) }

  lemma {:induction false} WordsOk(argv: seq<string>, k: Toks)
    requires ToksOk(k) && forall i | 0 <= i < |argv| :: Ordinary(argv[i])
    ensures ToksOk(Words(argv, k))
    decreases |argv|
  {
    if argv != [] {
      WordsOk(argv[..|argv| - 1], Cons(Word(argv[|argv| - 1]), k));
    }
  }

  lemma {:induction false} CommandToksOk(c: Cmd, k: Toks)
    requires Typeable(c) && ToksOk(k)
    ensures ToksOk(PrintCommand(c, k))
    decreases c, Rank(c, 0)
  {
    match c
    case Exec(argv) => WordsOk(argv, k);
    case Redir(sub, file, out) => CommandToksOk(sub, Cons(Sym(if out then '>' else '<'), Cons(Word(file), k)));
    case _ => LineToksOk(c, Cons(Sym(')'), k));
  }

  lemma {:induction false} PipelineToksOk(c: Cmd, k: Toks)
    requires Typeable(c) && ToksOk(k)
    ensures ToksOk(PrintPipeline(c, k))
    decreases c, Rank(c, 1)
  {
    match c
    case Pipe(l, r) =>
      PipelineToksOk(r, k);
      CommandToksOk(l, Cons(Sym('|'), PrintPipeline(r, k)));
    case _ => CommandToksOk(c, k);
  }

  lemma {:induction false} BacksToksOk(c: Cmd, k: Toks)
    requires Typeable(c) && ToksOk(k)
    ensures ToksOk(PrintBacks(c, k))
    decreases c, Rank(c, 2)
  {
    match c
    case Back(sub) => BacksToksOk(sub, Cons(Sym('&'), k));
    case _ => PipelineToksOk(c, k);
  }

  lemma {:induction false} LineToksOk(c: Cmd, k: Toks)
    requires Typeable(c) && ToksOk(k)
    ensures ToksOk(PrintLine(c, k))
    decreases c, Rank(c, 3)
  {
    match c
    case List(l, r) =>
      LineToksOk(r, k);
      BacksToksOk(l, Cons(Sym(';'), PrintLine(r, k)));
    case _ => BacksToksOk(c, k);
  }

  /** What `parsecmd` makes of a line: the command, if nothing is left over. */
  function Meaning(s: string): Parsed {
    var r := Line(Lex(s, 0));
    if r.Ok? && r.rest.Cons? then Panic(Unexpected) else r
  }

  /** Every command, typed out, is read back as itself. */
  lemma TextRoundTrip(c: Cmd)
    requires Typeable(c)
    ensures Meaning(TextOf(c)) == Ok(c, Nil)
  {
    LineToksOk(c, Nil);
    assert TextOf(c)[0..] == TextOf(c);
    LexRender(TextOf(c), 0, PrintLine(c, Nil));
    assert Look(0);
    EmittedPrintable(c, Ordinary);
    LineRoundTrip(c, Nil);
  }

  lemma {:induction false} LexWords(s: string, i: nat)
    requires NoNul(s) && i <= |s|
    ensures AllWords(Lex(s, i), Ordinary)
    decreases |s| - i
  {
    var q := SkipBlanks(s, i);
    if q < |s| {
      LexWords(s, TokenEnd(s, q));
    }
  }

  /** Whatever line is read, the command can be typed out and is read as the same again. */
  lemma ReadingIsStable(s: string)
    requires NoNul(s) && Meaning(s).Ok?
    ensures Typeable(Meaning(s).cmd) && Meaning(TextOf(Meaning(s).cmd)) == Meaning(s)
  {
    LexWords(s, 0);
    LineEmits(Lex(s, 0), Ordinary);
    TextRoundTrip(Meaning(s).cmd);
  }
}
