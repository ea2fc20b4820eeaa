/**
  The shell's recursive-descent parser as the code it is (sh.c:265-493): a
  cursor advanced in place over the line, commands that keep pointers into it,
  and `nulterminate`, which then overwrites the ends of those words.
 */
module ShellCode {
  import opened ShellGrammar
  import opened ShellText
  import ShellReading

  /** The characters from `q` up to `eq` of the line. */
  datatype Span = Span(q: int, eq: int)

  /** A command as the code builds it. */
  datatype Node =
    | ExecNode(argv: seq<Span>)
    | RedirNode(cmd: Node, file: Span, out: bool)
    | PipeNode(left: Node, right: Node)
    | ListNode(left: Node, right: Node)
    | BackNode(cmd: Node)

  function Text(s: string, w: Span): string { if 0 <= w.q <= w.eq <= |s| then s[w.q..w.eq] else [] }

  /** The command a node stands for. */
  function Erase(s: string, n: Node): Cmd {
    match n
    case ExecNode(argv) => Exec(seq(|argv|, i requires 0 <= i < |argv| => Text(s, argv[i])))
    case RedirNode(sub, file, out) => Redir(Erase(s, sub), Text(s, file), out)
    case PipeNode(l, r) => Pipe(Erase(s, l), Erase(s, r))
    case ListNode(l, r) => List(Erase(s, l), Erase(s, r))
    case BackNode(sub) => Back(Erase(s, sub))
  }

  /** A whole word: word characters, and none just after it. */
  predicate SpanOk(s: string, w: Span) {
    && 0 <= w.q < w.eq <= |s| && (w.eq < |s| ==> !WordChar(s[w.eq]))
    && forall i | w.q <= i < w.eq :: WordChar(s[i])
  }

  predicate Spanned(s: string, n: Node) {
    match n
    case ExecNode(argv) => forall i | 0 <= i < |argv| :: SpanOk(s, argv[i])
    case RedirNode(sub, file, _) => Spanned(s, sub) && SpanOk(s, file)
    case PipeNode(l, r) => Spanned(s, l) && Spanned(s, r)
    case ListNode(l, r) => Spanned(s, l) && Spanned(s, r)
    case BackNode(sub) => Spanned(s, sub)
  }

  /** `cmd->argv[argc] = q`, where `cmd` is the command inside all redirections. */
  function AddSpan(n: Node, w: Span): Node {
    match n
    case ExecNode(argv) => ExecNode(argv + [w])
    case RedirNode(sub, file, out) => RedirNode(AddSpan(sub, w), file, out)
    case _ => n
  }

  lemma {:induction false} AddSpanErase(s: string, n: Node, w: Span)
    requires Spanned(s, n) && SpanOk(s, w)
    ensures Erase(s, AddSpan(n, w)) == AddArg(Erase(s, n), Text(s, w)) && Spanned(s, AddSpan(n, w))
    ensures Simple(Erase(s, n)) ==> Argc(Erase(s, AddSpan(n, w))) == Argc(Erase(s, n)) + 1 && Simple(Erase(s, AddSpan(n, w)))
  {
    match n
    case RedirNode(sub, _, _) => AddSpanErase(s, sub, w);
    case _ =>
  }

  /** Redirections first, then further arguments, is arguments and redirections in any order. */
  lemma {:induction false} ArgsAfterRedirs(t: Toks, c: Cmd)
    ensures var r := Redirs(t, c);
            Args(t, c) == if r.Ok? then Args(r.rest, r.cmd) else r
  {
    if StartsRedir(t) && t.tail.Cons? && t.tail.head.Word? {
      ArgsAfterRedirs(t.tail.tail, Redir(c, t.tail.head.text, t.head != Sym('<')));
    }
  }

  lemma {:induction false} RedirsKeep(t: Toks, c: Cmd)
    ensures var r := Redirs(t, c);
            r.Ok? ==> Argc(r.cmd) == Argc(c) && (Simple(c) ==> Simple(r.cmd)) && !StartsRedir(r.rest)
  {
    if StartsRedir(t) && t.tail.Cons? && t.tail.head.Word? {
      RedirsKeep(t.tail.tail, Redir(c, t.tail.head.text, t.head != Sym('<')));
    }
  }

  datatype Out = Done(node: Node) | Stop(error: Error)

  /** The code did what the grammar says: the same command and place in the line, or the same complaint. */
  predicate Agrees(s: string, o: Out, rest: Toks, p: Parsed) {
    match p
    case Ok(cmd, rest') => o.Done? && Erase(s, o.node) == cmd && Spanned(s, o.node) && rest == rest'
    case Panic(e) => o == Stop(e)
  }

  /** The character `peek` sees. */
  function First(t: Tok): char {
    if t.Word? then (if t.text == [] then '\0' else t.text[0]) else if t.c == '+' then '>' else t.c
  }

  /** The first token's first character is the one at the cursor; it is a symbol only if the token is. */
  lemma FirstChar(s: string, i: nat)
    requires i <= |s| && NoNul(s) && SkipBlanks(s, i) < |s|
    ensures Lex(s, i).Cons? && First(Lex(s, i).head) == s[SkipBlanks(s, i)]
    ensures Symbol(s[SkipBlanks(s, i)]) <==> Lex(s, i).head.Sym?
  {
  }

  method Blanks(s: string, i: int) returns (j: int)
    requires 0 <= i <= |s|
    ensures j == SkipBlanks(s, i)
  {
    j := i;
    while j < |s| && Blank(s[j])
      invariant i <= j <= |s| && SkipBlanks(s, j) == SkipBlanks(s, i)
    {
      j := j + 1;
    }
  }

  /** Where the token at `q` ends, and its kind. */
  method ScanEnd(s: string, q: int) returns (ret: char, e: int)
    requires 0 <= q < |s| && !Blank(s[q]) && NoNul(s)
    ensures e == TokenEnd(s, q)
    ensures match TokenAt(s, q)
            case Sym(c) => ret == c && (c == '+' || Symbol(c))
            case Word(text) => ret == 'a' && SpanOk(s, Span(q, e)) && text == s[q..e]
  {
    e := q;
    if s[q] == '>' {
      e := e + 1;
      ret := '>';
      if e < |s| && s[e] == '>' {
        ret := '+';
        e := e + 1;
      }
    } else if Symbol(s[q]) {
      ret := s[q];
      e := e + 1;
    } else {
      ret := 'a';
      while e < |s| && !Blank(s[e]) && !Symbol(s[e])
        invariant q <= e <= |s| && WordEnd(s, e) == WordEnd(s, q)
      {
        e := e + 1;
      }
    }
  }

  /** `gettoken` from cursor `i`: the token's kind, where it lies, and the cursor after it. */
  method ScanToken(s: string, i: int) returns (ret: char, w: Span, next: int)
    requires 0 <= i <= |s| && NoNul(s)
    ensures i <= next <= |s|
    ensures Lex(s, i).Nil? ==> ret == '\0' && Lex(s, next) == Nil
    ensures Lex(s, i).Cons? ==>
              && Lex(s, next) == Lex(s, i).tail && i < next
              && match Lex(s, i).head
                 case Sym(c) => ret == c && (c == '+' || Symbol(c))
                 case Word(text) => ret == 'a' && SpanOk(s, w) && Text(s, w) == text
  {
    var q := Blanks(s, i);
    var e := q;
    ret := '\0';
    if q < |s| {
      ret, e := ScanEnd(s, q);
    }
    w := Span(q, e);
    next := Blanks(s, e);
    LexAfterBlanks(s, e, next);
  }

  class Parser {
    const s: string
    var ps: int
    ghost var rest: Toks

    constructor (line: string)
      requires NoNul(line)
      ensures Valid() && s == line && ps == 0 && rest == Lex(line, 0)
    {
      s, ps, rest := line, 0, Lex(line, 0);
    }

    /** `rest` are the tokens from the cursor on. */
    ghost predicate Valid()
      reads this
    {
      0 <= ps <= |s| && NoNul(s) && Reads(s, ps, rest)
    }

    /** The next token: its kind and where it lies. */
    method GetToken() returns (ret: char, w: Span)
      requires Valid()
      modifies `ps, `rest
      ensures Valid() && old(ps) <= ps
      ensures old(rest).Nil? ==> ret == '\0' && rest.Nil?
      ensures old(rest).Cons? ==>
                && rest == old(rest).tail && old(ps) < ps
                && match old(rest).head
                   case Sym(c) => ret == c && (c == '+' || Symbol(c))
                   case Word(text) => ret == 'a' && SpanOk(s, w) && Text(s, w) == text
    {
      assert Look(ps);
      var next;
      ret, w, next := ScanToken(s, ps);
      ps := next;
      rest := if rest.Nil? then Nil else rest.tail;
    }

    /** Is the next token one that begins with a character of `toks`? */
    method Peek(toks: string) returns (b: bool)
      requires Valid()
      modifies `ps, `rest
      ensures Valid() && old(ps) <= ps && rest == old(rest) && (rest.Nil? <==> ps == |s|)
      ensures b <==> rest.Cons? && First(rest.head) in toks
      ensures b && (forall c | c in toks :: Symbol(c)) ==> rest.head.Sym?
    {
      ghost var before := ps;
      assert Look(ps);
      ps := Blanks(s, ps);
      LexAfterBlanks(s, before, ps);
      if ps < |s| {
        FirstChar(s, ps);
      }
      b := ps < |s| && s[ps] in toks;
    }

    /** One redirection. */
    method ParseRedir(cmd: Node) returns (o: Out)
      requires Valid() && Spanned(s, cmd) && StartsRedir(rest)
      modifies `ps, `rest
      ensures Valid() && old(ps) < ps
      ensures o.Stop? ==> Redirs(old(rest), Erase(s, cmd)) == Panic(o.error)
      ensures o.Done? ==> Spanned(s, o.node) && Redirs(old(rest), Erase(s, cmd)) == Redirs(rest, Erase(s, o.node))
      ensures o.Done? ==> o.node.RedirNode? && o.node.cmd == cmd && (o.node.out <==> old(rest).head != Sym('<'))
    {
      var tok, w := GetToken();
      var tok', file := GetToken();
      if tok' != 'a' {
        return Stop(MissingFile);
      }
      o := Done(RedirNode(cmd, file, tok != '<'));
    }

    method ParseRedirs(cmd0: Node) returns (o: Out)
      requires Valid() && Spanned(s, cmd0)
      modifies `ps, `rest
      ensures Valid() && old(ps) <= ps && Agrees(s, o, rest, Redirs(old(rest), Erase(s, cmd0)))
    {
      ghost var want := Redirs(rest, Erase(s, cmd0));
      var cmd := cmd0;
      var more := Peek("<>");
      while more
        invariant Valid() && old(ps) <= ps && Spanned(s, cmd)
        invariant (more <==> StartsRedir(rest)) && Redirs(rest, Erase(s, cmd)) == want
        decreases |s| - ps
      {
        o := ParseRedir(cmd);
        if o.Stop? {
          return;
        }
        cmd := o.node;
        more := Peek("<>");
      }
      o := Done(cmd);
    }

    /** A parenthesised line; without the parenthesis, a panic. */
    method ParseBlock() returns (o: Out)
      requires Valid()
      modifies `ps, `rest
      ensures Valid() && old(ps) <= ps
      ensures if Starts(old(rest), '(') then Agrees(s, o, rest, Command(old(rest))) else o == Stop(NotABlock)
      decreases |s| - ps, 0
    {
      var open := Peek("(");
      if !open {
        return Stop(NotABlock);
      }
      var tok, w := GetToken();
      o := ParseLine();
      if o.Stop? {
        return;
      }
      var close := Peek(")");
      if !close {
        return Stop(MissingParen);
      }
      tok, w := GetToken();
      o := ParseRedirs(o.node);
    }

    /** One turn of the loop over arguments; `end` at the end of the line. */
    method ParseArg(ret0: Node, argc: int) returns (o: Out, end: bool)
      requires Valid() && Spanned(s, ret0) && Simple(Erase(s, ret0)) && argc == Argc(Erase(s, ret0))
      requires !StartsRedir(rest) && (StartsEnd(rest) ==> rest.Nil?)
      modifies `ps, `rest
      ensures Valid() && old(ps) <= ps && (end <==> old(rest).Nil?)
      ensures end ==> o == Done(ret0) && rest.Nil?
      ensures o.Stop? ==> Args(old(rest), Erase(s, ret0)) == Panic(o.error)
      ensures !end && o.Done? ==>
                && old(ps) < ps && Spanned(s, o.node) && Simple(Erase(s, o.node)) && argc + 1 == Argc(Erase(s, o.node))
                && !StartsRedir(rest) && Args(rest, Erase(s, o.node)) == Args(old(rest), Erase(s, ret0))
    {
      var tok, w := GetToken();
      if tok == '\0' {
        return Done(ret0), true;
      }
      end := false;
      if tok != 'a' {
        return Stop(Unexpected), end;
      }
      AddSpanErase(s, ret0, w);
      var ret := AddSpan(ret0, w);
      if argc + 1 >= MAXARGS {
        return Stop(TooManyArgs), end;
      }
      ArgsAfterRedirs(rest, Erase(s, ret));
      RedirsKeep(rest, Erase(s, ret));
      o := ParseRedirs(ret);
    }

    /** The loop over arguments, after the first redirections. */
    method ParseArgs(ret0: Node) returns (o: Out)
      requires Valid() && Spanned(s, ret0) && Simple(Erase(s, ret0)) && Argc(Erase(s, ret0)) == 0 && !StartsRedir(rest)
      modifies `ps, `rest
      ensures Valid() && old(ps) <= ps && Agrees(s, o, rest, Args(old(rest), Erase(s, ret0)))
    {
      ghost var want := Args(rest, Erase(s, ret0));
      var ret, argc := ret0, 0;
      var end := Peek("|)&;");
      while !end
        invariant Valid() && old(ps) <= ps && Spanned(s, ret) && Simple(Erase(s, ret)) && argc == Argc(Erase(s, ret))
        invariant !StartsRedir(rest) && Args(rest, Erase(s, ret)) == want
        invariant if end then StartsEnd(rest) else StartsEnd(rest) ==> rest.Nil?
        decreases |s| - ps, !end
      {
        o, end := ParseArg(ret, argc);
        if o.Stop? {
          return;
        }
        ret := o.node;
        if !end {
          argc := argc + 1;
          end := Peek("|)&;");
        }
      }
      o := Done(ret);
    }

    method ParseExec() returns (o: Out)
      requires Valid()
      modifies `ps, `rest
      ensures Valid() && old(ps) <= ps && Agrees(s, o, rest, Command(old(rest)))
      decreases |s| - ps, 1
    {
      var block := Peek("(");
      if block {
        o := ParseBlock();
        return;
      }
      assert Command(rest) == Args(rest, Exec([]));
      ArgsAfterRedirs(rest, Exec([]));
      RedirsKeep(rest, Exec([]));
      assert Erase(s, ExecNode([])) == Exec([]);
      o := ParseRedirs(ExecNode([]));
      if o.Done? {
        o := ParseArgs(o.node);
      }
    }

    method ParsePipe() returns (o: Out)
      requires Valid()
      modifies `ps, `rest
      ensures Valid() && old(ps) <= ps && Agrees(s, o, rest, Pipeline(old(rest)))
      decreases |s| - ps, 2
    {
      o := ParseExec();
      if o.Stop? {
        return;
      }
      var bar := Peek("|");
      if bar {
        var tok, w := GetToken();
        var left := o.node;
        o := ParsePipe();
        if o.Done? {
          o := Done(PipeNode(left, o.node));
        }
      }
    }

    method ParseLine() returns (o: Out)
      requires Valid()
      modifies `ps, `rest
      ensures Valid() && old(ps) <= ps && Agrees(s, o, rest, Line(old(rest)))
      decreases |s| - ps, 3
    {
      o := ParsePipe();
      if o.Stop? {
        return;
      }
      ghost var p := Pipeline(old(rest));
      var cmd := o.node;
      var tok, w;
      var amp := Peek("&");
      while amp
        invariant Valid() && old(ps) <= ps && Spanned(s, cmd)
        invariant amp <==> Starts(rest, '&')
        invariant Backs(rest, Erase(s, cmd)) == Backs(p.rest, p.cmd)
        decreases |s| - ps
      {
        tok, w := GetToken();
        cmd := BackNode(cmd);
        amp := Peek("&");
      }
      o := Done(cmd);
      var semi := Peek(";");
      if semi {
        tok, w := GetToken();
        o := ParseLine();
        if o.Done? {
          o := Done(ListNode(cmd, o.node));
        }
      }
    }

    /** The parsing half of `parsecmd`: nothing may be left over. */
    method ParseWhole() returns (o: Out)
      requires Valid() && rest == Lex(s, 0)
      modifies `ps, `rest
      ensures Valid() && Agrees(s, o, Nil, Meaning(s))
    {
      o := ParseLine();
      if o.Stop? {
        return;
      }
      var none := Peek("");
      if ps != |s| {
        return Stop(Unexpected);
      }
    }
  }

  // ----- nulterminate -----

  /** `w` is one of the words the command points to. */
  predicate PointsTo(n: Node, w: Span) {
    match n
    case ExecNode(argv) => w in argv
    case RedirNode(sub, file, _) => PointsTo(sub, w) || w == file
    case PipeNode(l, r) => PointsTo(l, w) || PointsTo(r, w)
    case ListNode(l, r) => PointsTo(l, w) || PointsTo(r, w)
    case BackNode(sub) => PointsTo(sub, w)
  }

  /** Some word of the command ends just before position `k`. */
  ghost predicate EndsAt(n: Node, k: int) { exists w :: PointsTo(n, w) && w.eq == k }

  lemma {:induction n} WordsSpanned(s: string, n: Node, w: Span)
    requires Spanned(s, n) && PointsTo(n, w)
    ensures SpanOk(s, w)
  {
  }

  /** The C string that starts at `q`: the characters up to the first NUL. */
  function CString(buf: seq<char>, q: int): string
    requires 0 <= q
    decreases |buf| - q
  {
    if q >= |buf| || buf[q] == '\0' then [] else [buf[q]] + CString(buf, q + 1)
  }

  lemma {:induction false} CStringIs(buf: seq<char>, q: int, e: int)
    requires 0 <= q <= e < |buf| && buf[e] == '\0' && forall k | q <= k < e :: buf[k] != '\0'
    ensures CString(buf, q) == buf[q..e]
    decreases e - q
  {
    if q < e {
      CStringIs(buf, q + 1, e);
    }
  }

  /** `after` is `before` with a NUL at the end of every word of the command. */
  ghost predicate Ended(n: Node, before: seq<char>, after: seq<char>) {
    |after| == |before| && forall k | 0 <= k < |before| :: after[k] == if EndsAt(n, k) then '\0' else before[k]
  }

  lemma EndsRedir(c: Node, f: Span, out: bool, k: int)
    ensures EndsAt(RedirNode(c, f, out), k) <==> EndsAt(c, k) || f.eq == k
  {
    assert PointsTo(RedirNode(c, f, out), f);
    if EndsAt(c, k) {
      var w :| PointsTo(c, w) && w.eq == k;
      assert PointsTo(RedirNode(c, f, out), w);
    }
  }

  lemma EndsBoth(n: Node, k: int)
    requires n.PipeNode? || n.ListNode?
    ensures EndsAt(n, k) <==> EndsAt(n.left, k) || EndsAt(n.right, k)
  {
    if EndsAt(n.left, k) {
      var w :| PointsTo(n.left, w) && w.eq == k;
      assert PointsTo(n, w);
    }
    if EndsAt(n.right, k) {
      var w :| PointsTo(n.right, w) && w.eq == k;
      assert PointsTo(n, w);
    }
  }

  lemma EndsBack(c: Node, k: int)
    ensures EndsAt(BackNode(c), k) <==> EndsAt(c, k)
  {
    if EndsAt(c, k) {
      var w :| PointsTo(c, w) && w.eq == k;
      assert PointsTo(BackNode(c), w);
    }
  }

  lemma EndsExec(argv: seq<Span>, k: int)
    ensures EndsAt(ExecNode(argv), k) <==> exists j :: 0 <= j < |argv| && argv[j].eq == k
  {
    if j :| 0 <= j < |argv| && argv[j].eq == k {
      assert PointsTo(ExecNode(argv), argv[j]);
    }
  }

  /** Write a NUL just after every word of the command. */
  method Nulterminate(buf: array<char>, n: Node, ghost s: string)
    requires Spanned(s, n) && buf.Length == |s| + 1
    modifies buf
    ensures Ended(n, old(buf[..]), buf[..])
    decreases n
  {
    match n
    case ExecNode(argv) =>
      forall k {
        EndsExec(argv, k);
      }
      var i := 0;
      while i < |argv|
        invariant 0 <= i <= |argv|
        invariant forall k | 0 <= k < buf.Length ::
                    buf[k] == if exists j :: 0 <= j < i && argv[j].eq == k then '\0' else old(buf[k])
      {
        buf[argv[i].eq] := '\0';
        i := i + 1;
      }
    case RedirNode(cmd, file, out) =>
      Nulterminate(buf, cmd, s);
      buf[file.eq] := '\0';
      forall k {
        EndsRedir(cmd, file, out, k);
      }
    case PipeNode(l, r) =>
      forall k {
        EndsBoth(n, k);
      }
      Nulterminate(buf, l, s);
      Nulterminate(buf, r, s);
    case ListNode(l, r) =>
      forall k {
        EndsBoth(n, k);
      }
      Nulterminate(buf, l, s);
      Nulterminate(buf, r, s);
    case BackNode(cmd) =>
      forall k {
        EndsBack(cmd, k);
      }
      Nulterminate(buf, cmd, s);
  }

  /** No NUL falls inside a word: every pointer reads, as a C string, the word that was parsed. */
  lemma WordsSurvive(s: string, n: Node, after: seq<char>, w: Span)
    requires NoNul(s) && Spanned(s, n) && Ended(n, s + ['\0'], after) && PointsTo(n, w)
    ensures 0 <= w.q && CString(after, w.q) == Text(s, w)
  {
    WordsSpanned(s, n, w);
    assert EndsAt(n, w.eq);
    forall k | w.q <= k < w.eq
      ensures after[k] == s[k] && after[k] != '\0'
    {
      if EndsAt(n, k) {
        var v :| PointsTo(n, v) && v.eq == k;
        WordsSpanned(s, n, v);
      }
    }
    CStringIs(after, w.q, w.eq);
    assert after[w.q..w.eq] == s[w.q..w.eq];
  }

  /** The command, and the only one, that the line stands for; or the complaint that is due, when it stands for none. */
  ghost predicate RightFor(s: string, o: Out) {
    if o.Done? then forall c :: ShellReading.StandsFor(s, c) <==> c == Erase(s, o.node)
    else ShellReading.Complaint(s, o.error) && forall c :: !ShellReading.StandsFor(s, c)
  }

  lemma ReadRight(s: string, o: Out)
    requires NoNul(s) && Agrees(s, o, Nil, Meaning(s))
    ensures RightFor(s, o)
  {
    forall c
      ensures ShellReading.StandsFor(s, c) <==> Meaning(s) == Ok(c, Nil)
    {
      ShellReading.MeaningIff(s, c);
    }
    if o.Stop? {
      ShellReading.ComplaintIff(s, o.error);
    }
  }

  /** `parsecmd` on the line in `buf`: its meaning, with every word of the result a C string in place. */
  method ParseCmd(buf: array<char>) returns (o: Out)
    requires 1 <= buf.Length && NoNul(buf[..buf.Length - 1]) && buf[buf.Length - 1] == '\0'
    modifies buf
    ensures Agrees(old(buf[..buf.Length - 1]), o, Nil, Meaning(old(buf[..buf.Length - 1])))
    ensures RightFor(old(buf[..buf.Length - 1]), o)
    ensures o.Done? ==> forall w | PointsTo(o.node, w) ::
              0 <= w.q && CString(buf[..], w.q) == Text(old(buf[..buf.Length - 1]), w)
  {
    var s := buf[..buf.Length - 1];
    var parser := new Parser(s);
    o := parser.ParseWhole();
    ReadRight(s, o);
    if o.Done? {
      assert buf[..] == s + ['\0'];
      Nulterminate(buf, o.node, s);
      forall w | PointsTo(o.node, w)
        ensures 0 <= w.q && CString(buf[..], w.q) == Text(s, w)
      {
        WordsSurvive(s, o.node, buf[..], w);
      }
    }
  }
}
