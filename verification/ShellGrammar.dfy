/**
  The grammar of the shell (sh.c:344-446) on tokens: what a line means, and a
  printer for commands with as few parentheses as the grammar allows. Parsing
  what the printer prints gives back the command.
 */
module ShellGrammar {

  const MAXARGS := 10

  /** A redirection opens `file` for reading on fd 0, or for writing on fd 1. */
  datatype Cmd =
    | Exec(argv: seq<string>)
    | Redir(cmd: Cmd, file: string, out: bool)
    | Pipe(left: Cmd, right: Cmd)
    | List(left: Cmd, right: Cmd)
    | Back(cmd: Cmd)

  /** `Sym('+')` is `>>`, which the parser treats like `>`. */
  datatype Tok = Word(text: string) | Sym(c: char)

  datatype Toks = Nil | Cons(head: Tok, tail: Toks)

  function Size(t: Toks): nat { if t.Nil? then 0 else 1 + Size(t.tail) }

  datatype Error = MissingFile | MissingParen | Unexpected | TooManyArgs | NotABlock

  datatype Parsed = Ok(cmd: Cmd, rest: Toks) | Panic(error: Error)

  predicate Starts(t: Toks, c: char) { t.Cons? && t.head == Sym(c) }

  predicate StartsRedir(t: Toks) { Starts(t, '<') || Starts(t, '>') || Starts(t, '+') }

  /** Where the arguments of a command end. */
  predicate StartsEnd(t: Toks) { t.Nil? || Starts(t, '|') || Starts(t, ')') || Starts(t, '&') || Starts(t, ';') }

  /** A further argument goes to the command inside all redirections. */
  function AddArg(c: Cmd, w: string): Cmd {
    match c
    case Exec(argv) => Exec(argv + [w])
    case Redir(sub, file, out) => Redir(AddArg(sub, w), file, out)
    case _ => c
  }

  function Argc(c: Cmd): nat {
    match c
    case Exec(argv) => |argv|
    case Redir(sub, _, _) => Argc(sub)
    case _ => 0
  }

  // ----- parsing -----

  function Redirs(t: Toks, c: Cmd): (r: Parsed)
    ensures r.Ok? ==> Size(r.rest) <= Size(t)
    decreases t
  {
    if !StartsRedir(t) then Ok(c, t)
    else if t.tail.Cons? && t.tail.head.Word? then Redirs(t.tail.tail, Redir(c, t.tail.head.text, t.head != Sym('<')))
    else Panic(MissingFile)
  }

  /** Arguments and redirections in any order, added to `c`. */
  function Args(t: Toks, c: Cmd): (r: Parsed)
    ensures r.Ok? ==> Size(r.rest) <= Size(t)
    decreases t
  {
    if StartsRedir(t) then
      if t.tail.Cons? && t.tail.head.Word? then Args(t.tail.tail, Redir(c, t.tail.head.text, t.head != Sym('<')))
      else Panic(MissingFile)
    else if StartsEnd(t) then Ok(c, t)
    else if !t.head.Word? then Panic(Unexpected)
    else if Argc(c) + 1 >= MAXARGS then Panic(TooManyArgs)
    else Args(t.tail, AddArg(c, t.head.text))
  }

  function Command(t: Toks): (r: Parsed)
    ensures r.Ok? ==> Size(r.rest) <= Size(t)
    decreases Size(t), 0
  {
    if Starts(t, '(') then
      var r := Line(t.tail);
      if r.Panic? then r
      else if !Starts(r.rest, ')') then Panic(MissingParen)
      else Redirs(r.rest.tail, r.cmd)
    else Args(t, Exec([]))
  }

  function Pipeline(t: Toks): (r: Parsed)
    ensures r.Ok? ==> Size(r.rest) <= Size(t)
    decreases Size(t), 1
  {
    var r := Command(t);
    if r.Panic? || !Starts(r.rest, '|') then r
    else
      var right := Pipeline(r.rest.tail);
      if right.Panic? then right else Ok(Pipe(r.cmd, right.cmd), right.rest)
  }

  function Backs(t: Toks, c: Cmd): (r: Parsed)
    ensures r.Ok? && Size(r.rest) <= Size(t) && !Starts(r.rest, '&')
  {
    if Starts(t, '&') then Backs(t.tail, Back(c)) else Ok(c, t)
  }

  function Line(t: Toks): (r: Parsed)
    ensures r.Ok? ==> Size(r.rest) <= Size(t)
    decreases Size(t), 2
  {
    var p := Pipeline(t);
    if p.Panic? then p
    else
      var r := Backs(p.rest, p.cmd);
      if !Starts(r.rest, ';') then r
      else
        var right := Line(r.rest.tail);
        if right.Panic? then right else Ok(List(r.cmd, right.cmd), right.rest)
  }

  // ----- printing -----

  function Words(argv: seq<string>, k: Toks): Toks
    decreases |argv|
  {
    if argv == [] then k else Words(argv[..|argv| - 1], Cons(Word(argv[|argv| - 1]), k))
  }

  /** The grammar level of `c`: 0 single commands, 1 pipelines, 2 background jobs, 3 lists. */
  function Level(c: Cmd): nat { if c.Pipe? then 1 else if c.Back? then 2 else if c.List? then 3 else 0 }

  /** Printing at level `n` goes up from `Level(c)`, round through the parentheses. */
  function Rank(c: Cmd, n: nat): nat { (n + 4 - Level(c)) % 4 }

  /** The tokens of `c` where a single command may stand, followed by `k`. */
  function PrintCommand(c: Cmd, k: Toks): Toks
    decreases c, Rank(c, 0)
  {
    match c
    case Exec(argv) => Words(argv, k)
    case Redir(sub, file, out) => PrintCommand(sub, Cons(Sym(if out then '>' else '<'), Cons(Word(file), k)))
    case _ => Cons(Sym('('), PrintLine(c, Cons(Sym(')'), k)))
  }

  function PrintPipeline(c: Cmd, k: Toks): Toks
    decreases c, Rank(c, 1)
  {
    match c
    case Pipe(l, r) => PrintCommand(l, Cons(Sym('|'), PrintPipeline(r, k)))
    case _ => PrintCommand(c, k)
  }

  function PrintBacks(c: Cmd, k: Toks): Toks
    decreases c, Rank(c, 2)
  {
    match c
    case Back(sub) => PrintBacks(sub, Cons(Sym('&'), k))
    case _ => PrintPipeline(c, k)
  }

  function PrintLine(c: Cmd, k: Toks): Toks
    decreases c, Rank(c, 3)
  {
    match c
    case List(l, r) => PrintBacks(l, Cons(Sym(';'), PrintLine(r, k)))
    case _ => PrintBacks(c, k)
  }

  // ----- round trip -----

  /** No command has more arguments than the parser takes. */
  predicate Printable(c: Cmd) {
    match c
    case Exec(argv) => |argv| < MAXARGS
    case Redir(sub, _, _) => Printable(sub)
    case Pipe(l, r) => Printable(l) && Printable(r)
    case List(l, r) => Printable(l) && Printable(r)
    case Back(sub) => Printable(sub)
  }

  /** Redirections of a simple command, which takes more arguments still. */
  predicate Simple(c: Cmd) { c.Exec? || (c.Redir? && Simple(c.cmd)) }

  /** How parsing goes on after `c` where a single command may stand. */
  function Continue(c: Cmd, k: Toks): Parsed { if Simple(c) then Args(k, c) else Redirs(k, c) }

  lemma {:induction false} WordsParse(argv: seq<string>, k: Toks)
    requires |argv| < MAXARGS
    ensures Args(Words(argv, k), Exec([])) == Args(k, Exec(argv))
    decreases |argv|
  {
    if argv != [] {
      var init, last := argv[..|argv| - 1], argv[|argv| - 1];
      WordsParse(init, Cons(Word(last), k));
      assert init + [last] == argv;
    }
  }

  lemma {:induction false} WordsNotParen(argv: seq<string>, k: Toks)
    requires !Starts(k, '(')
    ensures !Starts(Words(argv, k), '(')
    decreases |argv|
  {
    if argv != [] {
      WordsNotParen(argv[..|argv| - 1], Cons(Word(argv[|argv| - 1]), k));
    }
  }

  lemma {:induction false} CommandRoundTrip(c: Cmd, k: Toks)
    requires Printable(c) && !Starts(k, '(')
    ensures Command(PrintCommand(c, k)) == Continue(c, k)
    decreases c, Rank(c, 0)
  {
    match c
    case Exec(argv) =>
      WordsParse(argv, k);
      WordsNotParen(argv, k);
    case Redir(sub, file, out) =>
      var k' := Cons(Sym(if out then '>' else '<'), Cons(Word(file), k));
      CommandRoundTrip(sub, k');
      assert k'.tail.tail == k;
    case _ => LineRoundTrip(c, Cons(Sym(')'), k));
  }

  /** Where a command ends, nothing more is taken. */
  lemma ContinueEnds(c: Cmd, k: Toks)
    requires StartsEnd(k)
    ensures Continue(c, k) == Ok(c, k)
  {
  }

  lemma OneCommand(t: Toks, c: Cmd, k: Toks)
    requires Command(t) == Ok(c, k) && !Starts(k, '|')
    ensures Pipeline(t) == Ok(c, k)
  {
  }

  lemma PipedCommand(t: Toks, l: Cmd, more: Toks, r: Cmd, k: Toks)
    requires Command(t) == Ok(l, Cons(Sym('|'), more)) && Pipeline(more) == Ok(r, k)
    ensures Pipeline(t) == Ok(Pipe(l, r), k)
  {
  }

  lemma {:induction false} PipelineRoundTrip(c: Cmd, k: Toks)
    requires Printable(c) && StartsEnd(k) && !Starts(k, '|')
    ensures Pipeline(PrintPipeline(c, k)) == Ok(c, k)
    decreases c, Rank(c, 1)
  {
    if c.Pipe? {
      var more := PrintPipeline(c.right, k);
      CommandRoundTrip(c.left, Cons(Sym('|'), more));
      ContinueEnds(c.left, Cons(Sym('|'), more));
      PipelineRoundTrip(c.right, k);
      PipedCommand(PrintCommand(c.left, Cons(Sym('|'), more)), c.left, more, c.right, k);
    } else {
      CommandRoundTrip(c, k);
      ContinueEnds(c, k);
      OneCommand(PrintCommand(c, k), c, k);
    }
  }

  /** A command, then what the loop over `&` makes of the rest. */
  lemma {:induction false} BacksRoundTrip(c: Cmd, k: Toks)
    requires Printable(c) && StartsEnd(k) && !Starts(k, '|')
    ensures var p := Pipeline(PrintBacks(c, k));
            p.Ok? && Backs(p.rest, p.cmd) == Backs(k, c)
    decreases c, Rank(c, 2)
  {
    match c
    case Back(sub) => BacksRoundTrip(sub, Cons(Sym('&'), k));
    case _ => PipelineRoundTrip(c, k);
  }

  /** Parsing what is printed gives the command back, and stops where it ends. */
  lemma {:induction false} LineRoundTrip(c: Cmd, k: Toks)
    requires Printable(c) && (k.Nil? || Starts(k, ')'))
    ensures Line(PrintLine(c, k)) == Ok(c, k)
    decreases c, Rank(c, 3)
  {
    match c
    case List(l, r) =>
      BacksRoundTrip(l, Cons(Sym(';'), PrintLine(r, k)));
      LineRoundTrip(r, k);
    case _ => BacksRoundTrip(c, k);
  }

  // ----- what the parser can emit -----

  /** Every word in the command satisfies `ok`, and the command can be printed. */
  predicate Emitted(c: Cmd, ok: string -> bool) {
    match c
    case Exec(argv) => |argv| < MAXARGS && forall i | 0 <= i < |argv| :: ok(argv[i])
    case Redir(sub, file, _) => Emitted(sub, ok) && ok(file)
    case Pipe(l, r) => Emitted(l, ok) && Emitted(r, ok)
    case List(l, r) => Emitted(l, ok) && Emitted(r, ok)
    case Back(sub) => Emitted(sub, ok)
  }

  predicate AllWords(t: Toks, ok: string -> bool) {
    t.Nil? || ((t.head.Word? ==> ok(t.head.text)) && AllWords(t.tail, ok))
  }

  ghost predicate Fine(r: Parsed, ok: string -> bool) {
    r.Ok? ==> Emitted(r.cmd, ok) && AllWords(r.rest, ok)
  }

  lemma {:induction c} EmittedPrintable(c: Cmd, ok: string -> bool)
    requires Emitted(c, ok)
    ensures Printable(c)
  {
  }

  lemma {:induction false} AddArgEmitted(c: Cmd, w: string, ok: string -> bool)
    requires Emitted(c, ok) && ok(w) && Argc(c) + 1 < MAXARGS
    ensures Emitted(AddArg(c, w), ok)
  {
    match c
    case Redir(sub, _, _) => AddArgEmitted(sub, w, ok);
    case _ =>
  }

  lemma {:induction false} RedirsEmit(t: Toks, c: Cmd, ok: string -> bool)
    requires AllWords(t, ok) && Emitted(c, ok)
    ensures Fine(Redirs(t, c), ok)
  {
    if StartsRedir(t) && t.tail.Cons? && t.tail.head.Word? {
      assert AllWords(t.tail, ok);
      RedirsEmit(t.tail.tail, Redir(c, t.tail.head.text, t.head != Sym('<')), ok);
    }
  }

  lemma {:induction false} ArgsEmit(t: Toks, c: Cmd, ok: string -> bool)
    requires AllWords(t, ok) && Emitted(c, ok)
    ensures Fine(Args(t, c), ok)
  {
    if StartsRedir(t) {
      if t.tail.Cons? && t.tail.head.Word? {
        assert AllWords(t.tail, ok);
        ArgsEmit(t.tail.tail, Redir(c, t.tail.head.text, t.head != Sym('<')), ok);
      }
    } else if !StartsEnd(t) && t.head.Word? && Argc(c) + 1 < MAXARGS {
      AddArgEmitted(c, t.head.text, ok);
      ArgsEmit(t.tail, AddArg(c, t.head.text), ok);
    }
  }

  lemma {:induction false} CommandEmits(t: Toks, ok: string -> bool)
    requires AllWords(t, ok)
    ensures Fine(Command(t), ok)
    decreases Size(t), 0
  {
    if Starts(t, '(') {
      LineEmits(t.tail, ok);
      var r := Line(t.tail);
      if r.Ok? && Starts(r.rest, ')') {
        RedirsEmit(r.rest.tail, r.cmd, ok);
      }
    } else {
      ArgsEmit(t, Exec([]), ok);
    }
  }

  lemma {:induction false} PipelineEmits(t: Toks, ok: string -> bool)
    requires AllWords(t, ok)
    ensures Fine(Pipeline(t), ok)
    decreases Size(t), 1
  {
    CommandEmits(t, ok);
    var r := Command(t);
    if r.Ok? && Starts(r.rest, '|') {
      PipelineEmits(r.rest.tail, ok);
    }
  }

  lemma {:induction false} BacksEmit(t: Toks, c: Cmd, ok: string -> bool)
    requires AllWords(t, ok) && Emitted(c, ok)
    ensures Fine(Backs(t, c), ok)
  {
    if Starts(t, '&') {
      BacksEmit(t.tail, Back(c), ok);
    }
  }

  /** Whatever parses can be printed, and its words are words of the input. */
  lemma {:induction false} LineEmits(t: Toks, ok: string -> bool)
    requires AllWords(t, ok)
    ensures Fine(Line(t), ok)
    decreases Size(t), 2
  {
    PipelineEmits(t, ok);
    var p := Pipeline(t);
    if p.Ok? {
      BacksEmit(p.rest, p.cmd, ok);
      var r := Backs(p.rest, p.cmd);
      if Starts(r.rest, ';') {
        LineEmits(r.rest.tail, ok);
      }
    }
  }
}
