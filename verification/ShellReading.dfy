/**
  What a line of the shell stands for, said without a parser: how text is made
  up of tokens, and the syntax trees of the grammar, each with its tokens and
  the command it means. The parser of `ShellGrammar` returns a command exactly
  when the tokens it took are those of a tree that means it, and complains
  exactly where a tree cannot go on.
 */
module ShellReading {
  import opened ShellGrammar
  import opened ShellText

  // ----- syntax trees -----

  /** Arguments, and files to redirect to, in any order. */
  datatype Items = NoMore | Arg(word: string, more: Items) | File(op: char, name: string, more: Items)

  datatype CommandTree = Simple(items: Items) | Block(line: LineTree, redirs: Items)

  datatype PipeTree = One(c: CommandTree) | Bar(c: CommandTree, right: PipeTree)

  /** A pipeline with any number of `&`; then perhaps `;` and a further line. */
  datatype LineTree = Last(p: PipeTree, amps: nat) | Semi(p: PipeTree, amps: nat, right: LineTree)

  // ----- their tokens, followed by `k` -----

  function ItemToks(t: Items, k: Toks): Toks {
    match t
    case NoMore => k
    case Arg(w, more) => Cons(Word(w), ItemToks(more, k))
    case File(op, name, more) => Cons(Sym(op), Cons(Word(name), ItemToks(more, k)))
  }

  function Amps(n: nat, k: Toks): Toks { if n == 0 then k else Cons(Sym('&'), Amps(n - 1, k)) }

  function CommandToks(t: CommandTree, k: Toks): Toks {
    match t
    case Simple(items) => ItemToks(items, k)
    case Block(line, redirs) => Cons(Sym('('), LineToks(line, Cons(Sym(')'), ItemToks(redirs, k))))
  }

  function PipeToks(t: PipeTree, k: Toks): Toks {
    match t
    case One(c) => CommandToks(c, k)
    case Bar(c, right) => CommandToks(c, Cons(Sym('|'), PipeToks(right, k)))
  }

  function LineToks(t: LineTree, k: Toks): Toks {
    match t
    case Last(p, amps) => PipeToks(p, Amps(amps, k))
    case Semi(p, amps, right) => PipeToks(p, Amps(amps, Cons(Sym(';'), LineToks(right, k))))
  }

  // ----- what they mean -----

  /** The arguments, in order, wherever they stand. */
  function ArgsOf(t: Items): seq<string> {
    match t
    case NoMore => []
    case Arg(w, more) => [w] + ArgsOf(more)
    case File(_, _, more) => ArgsOf(more)
  }

  /** `c` with the redirections of `t`, each around those before it: `<` opens for input, `>` and `>>` for output. */
  function Redirected(c: Cmd, t: Items): Cmd
    decreases t
  {
    match t
    case NoMore => c
    case Arg(_, more) => Redirected(c, more)
    case File(op, name, more) => Redirected(Redir(c, name, op == '>' || op == '+'), more)
  }

  function CommandCmd(t: CommandTree): Cmd {
    match t
    case Simple(items) => Redirected(Exec(ArgsOf(items)), items)
    case Block(line, redirs) => Redirected(LineCmd(line), redirs)
  }

  function PipeCmd(t: PipeTree): Cmd {
    match t
    case One(c) => CommandCmd(c)
    case Bar(c, right) => Pipe(CommandCmd(c), PipeCmd(right))
  }

  function InBack(c: Cmd, n: nat): Cmd { if n == 0 then c else Back(InBack(c, n - 1)) }

  function LineCmd(t: LineTree): Cmd {
    match t
    case Last(p, amps) => InBack(PipeCmd(p), amps)
    case Semi(p, amps, right) => List(InBack(PipeCmd(p), amps), LineCmd(right))
  }

  // ----- which are allowed -----

  predicate OpsOk(t: Items) { !t.NoMore? ==> OpsOk(t.more) && (t.File? ==> t.op == '<' || t.op == '>' || t.op == '+') }

  predicate ItemsOk(t: Items) { OpsOk(t) && |ArgsOf(t)| < MAXARGS }

  predicate CommandOk(t: CommandTree) {
    match t
    case Simple(items) => ItemsOk(items)
    case Block(line, redirs) => LineOk(line) && OpsOk(redirs) && ArgsOf(redirs) == []
  }

  predicate PipeOk(t: PipeTree) { CommandOk(t.c) && (t.Bar? ==> PipeOk(t.right)) }

  predicate LineOk(t: LineTree) { PipeOk(t.p) && (t.Semi? ==> LineOk(t.right)) }

  // ----- where they end -----

  function LastCommand(t: PipeTree): CommandTree { if t.One? then t.c else LastCommand(t.right) }

  /** The command cannot go on with `k`: an argument may follow only a simple command, a redirection any. */
  predicate CommandEnds(t: CommandTree, k: Toks) { if t.Simple? then StartsEnd(k) else !StartsRedir(k) }

  /** Nor can the line: not its last command unless an `&` has ended it, nor by `|`, `&` or `;`. */
  predicate LineEnds(t: LineTree, k: Toks) {
    if t.Semi? then LineEnds(t.right, k)
    else !Starts(k, '&') && !Starts(k, ';') && (t.amps == 0 ==> !Starts(k, '|') && CommandEnds(LastCommand(t.p), k))
  }

  // ----- the parser finds every tree -----

  /** `c` with the arguments and redirections of `t`. */
  function WithItems(c: Cmd, t: Items): Cmd
    decreases t
  {
    match t
    case NoMore => c
    case Arg(w, more) => WithItems(AddArg(c, w), more)
    case File(op, name, more) => WithItems(Redir(c, name, op == '>' || op == '+'), more)
  }

  lemma {:induction false} AddArgs(c: Cmd, t: Items)
    requires ShellGrammar.Simple(c)
    ensures ShellGrammar.Simple(WithItems(c, t)) && Argc(WithItems(c, t)) == Argc(c) + |ArgsOf(t)|
    decreases t
  {
    match t
    case NoMore =>
    case Arg(w, more) =>
      AddedArg(c, w);
      AddArgs(AddArg(c, w), more);
    case File(op, name, more) => AddArgs(Redir(c, name, op == '>' || op == '+'), more);
  }

  lemma {:induction false} AddedArg(c: Cmd, w: string)
    requires ShellGrammar.Simple(c)
    ensures ShellGrammar.Simple(AddArg(c, w)) && Argc(AddArg(c, w)) == Argc(c) + 1
  {
    if c.Redir? {
      AddedArg(c.cmd, w);
    }
  }

  /** Arguments added one by one, and redirections put around one by one, in whatever order they come. */
  lemma {:induction false} WithItemsIs(c: Cmd, t: Items)
    requires ShellGrammar.Simple(c)
    ensures WithItems(c, t) == Redirected(AddAll(c, ArgsOf(t)), t)
    decreases t
  {
    match t
    case NoMore =>
    case Arg(w, more) =>
      AddedArg(c, w);
      WithItemsIs(AddArg(c, w), more);
    case File(op, name, more) =>
      WithItemsIs(Redir(c, name, op == '>' || op == '+'), more);
      AddAllRedir(c, name, op == '>' || op == '+', ArgsOf(more));
  }

  function AddAll(c: Cmd, argv: seq<string>): Cmd
    decreases |argv|
  {
    if argv == [] then c else AddAll(AddArg(c, argv[0]), argv[1..])
  }

  lemma {:induction false} AddAllRedir(c: Cmd, name: string, out: bool, argv: seq<string>)
    ensures AddAll(Redir(c, name, out), argv) == Redir(AddAll(c, argv), name, out)
    decreases |argv|
  {
    if argv != [] {
      AddAllRedir(AddArg(c, argv[0]), name, out, argv[1..]);
    }
  }

  lemma {:induction false} AddAllExec(a: seq<string>, argv: seq<string>)
    ensures AddAll(Exec(a), argv) == Exec(a + argv)
    decreases |argv|
  {
    if argv == [] {
      assert a + [] == a;
    } else {
      AddAllExec(a + [argv[0]], argv[1..]);
      assert a + [argv[0]] + argv[1..] == a + argv;
    }
  }

  lemma SimpleIs(t: Items)
    ensures WithItems(Exec([]), t) == CommandCmd(Simple(t))
  {
    WithItemsIs(Exec([]), t);
    AddAllExec([], ArgsOf(t));
    assert [] + ArgsOf(t) == ArgsOf(t);
  }

  lemma {:induction false} ArgsRead(t: Items, c: Cmd, k: Toks)
    requires OpsOk(t) && ShellGrammar.Simple(c) && Argc(c) + |ArgsOf(t)| < MAXARGS
    ensures Args(ItemToks(t, k), c) == Args(k, WithItems(c, t))
    decreases t
  {
    match t
    case NoMore =>
    case Arg(w, more) =>
      AddedArg(c, w);
      ArgsRead(more, AddArg(c, w), k);
    case File(op, name, more) => ArgsRead(more, Redir(c, name, op == '>' || op == '+'), k);
  }

  lemma {:induction false} RedirsRead(t: Items, c: Cmd, k: Toks)
    requires OpsOk(t) && ArgsOf(t) == []
    ensures Redirs(ItemToks(t, k), c) == Redirs(k, Redirected(c, t))
  {
    match t
    case NoMore =>
    case File(op, name, more) => RedirsRead(more, Redir(c, name, op == '>' || op == '+'), k);
  }

  lemma ItemsNotParen(t: Items, k: Toks)
    requires OpsOk(t) && !Starts(k, '(')
    ensures !Starts(ItemToks(t, k), '(')
  {
  }

  lemma {:induction false} CommandReads(t: CommandTree, k: Toks)
    requires CommandOk(t) && CommandEnds(t, k)
    ensures Command(CommandToks(t, k)) == Ok(CommandCmd(t), k)
    decreases t
  {
    match t
    case Simple(items) =>
      ItemsNotParen(items, k);
      ArgsRead(items, Exec([]), k);
      SimpleIs(items);
    case Block(line, redirs) =>
      var after := Cons(Sym(')'), ItemToks(redirs, k));
      EndsAtClose(line, ItemToks(redirs, k));
      LineReads(line, after);
      RedirsRead(redirs, LineCmd(line), k);
  }

  lemma {:induction false} EndsAtClose(t: LineTree, k: Toks)
    ensures LineEnds(t, Cons(Sym(')'), k))
  {
    if t.Semi? {
      EndsAtClose(t.right, k);
    }
  }

  lemma {:induction false} PipeReads(t: PipeTree, k: Toks)
    requires PipeOk(t) && CommandEnds(LastCommand(t), k) && !Starts(k, '|')
    ensures Pipeline(PipeToks(t, k)) == Ok(PipeCmd(t), k)
    decreases t
  {
    match t
    case One(c) => CommandReads(c, k);
    case Bar(c, right) =>
      CommandReads(c, Cons(Sym('|'), PipeToks(right, k)));
      PipeReads(right, k);
  }

  lemma {:induction false} BacksRead(c: Cmd, n: nat, k: Toks)
    requires !Starts(k, '&')
    ensures Backs(Amps(n, k), c) == Ok(InBack(c, n), k)
    decreases n
  {
    if n > 0 {
      BacksRead(Back(c), n - 1, k);
      BackInside(c, n - 1);
    }
  }

  lemma {:induction false} BackInside(c: Cmd, n: nat)
    ensures InBack(Back(c), n) == Back(InBack(c, n))
  {
    if n > 0 {
      BackInside(c, n - 1);
    }
  }

  lemma {:induction false} LineReads(t: LineTree, k: Toks)
    requires LineOk(t) && LineEnds(t, k)
    ensures Line(LineToks(t, k)) == Ok(LineCmd(t), k)
    decreases t
  {
    match t
    case Last(p, amps) =>
      PipeReads(p, Amps(amps, k));
      BacksRead(PipeCmd(p), amps, k);
    case Semi(p, amps, right) =>
      var more := Cons(Sym(';'), LineToks(right, k));
      PipeReads(p, Amps(amps, more));
      BacksRead(PipeCmd(p), amps, more);
      LineReads(right, k);
  }

  // ----- and what it takes is a tree's -----

  /** A redirection without its file. */
  predicate MissesFile(k: Toks) { StartsRedir(k) && !(k.tail.Cons? && k.tail.head.Word?) }

  /** A symbol that can stand nowhere among arguments: an opening parenthesis. */
  predicate Odd(k: Toks) { k.Cons? && k.head.Sym? && !StartsRedir(k) && !StartsEnd(k) }

  /** After `n` arguments, `k` cannot go on for this reason. */
  predicate WrongItem(k: Toks, n: nat, e: Error) {
    || (e == MissingFile && MissesFile(k))
    || (e == TooManyArgs && k.Cons? && k.head.Word? && n == MAXARGS - 1)
    || (e == Unexpected && Odd(k))
  }

  /** The items the parser goes through: to where the command ends, or to what is wrong. */
  lemma {:induction false} ArgsTaken(t: Toks, c: Cmd) returns (items: Items, k: Toks)
    requires ShellGrammar.Simple(c) && Argc(c) < MAXARGS
    ensures t == ItemToks(items, k) && OpsOk(items) && Argc(c) + |ArgsOf(items)| < MAXARGS
    ensures match Args(t, c)
            case Ok(cmd, rest) => rest == k && StartsEnd(k) && cmd == WithItems(c, items)
            case Panic(e) => WrongItem(k, Argc(c) + |ArgsOf(items)|, e)
    decreases t
  {
    if StartsRedir(t) && t.tail.Cons? && t.tail.head.Word? {
      var more;
      more, k := ArgsTaken(t.tail.tail, Redir(c, t.tail.head.text, t.head != Sym('<')));
      items := File(t.head.c, t.tail.head.text, more);
    } else if t.Cons? && t.head.Word? && Argc(c) + 1 < MAXARGS {
      AddedArg(c, t.head.text);
      var more;
      more, k := ArgsTaken(t.tail, AddArg(c, t.head.text));
      items := Arg(t.head.text, more);
    } else {
      items, k := NoMore, t;
    }
  }

  lemma {:induction false} RedirsTaken(t: Toks, c: Cmd) returns (items: Items, k: Toks)
    ensures t == ItemToks(items, k) && OpsOk(items) && ArgsOf(items) == []
    ensures match Redirs(t, c)
            case Ok(cmd, rest) => rest == k && !StartsRedir(k) && cmd == Redirected(c, items)
            case Panic(e) => e == MissingFile && MissesFile(k)
    decreases t
  {
    if StartsRedir(t) && t.tail.Cons? && t.tail.head.Word? {
      var more;
      more, k := RedirsTaken(t.tail.tail, Redir(c, t.tail.head.text, t.head != Sym('<')));
      items := File(t.head.c, t.tail.head.text, more);
    } else {
      items, k := NoMore, t;
    }
  }

  lemma {:induction false} CommandTaken(t: Toks) returns (tree: CommandTree)
    requires Command(t).Ok?
    ensures var Ok(cmd, rest) := Command(t);
            CommandOk(tree) && CommandEnds(tree, rest) && t == CommandToks(tree, rest) && cmd == CommandCmd(tree)
    decreases Size(t), 0
  {
    if Starts(t, '(') {
      var r := Line(t.tail);
      var line := LineTaken(t.tail);
      var redirs, k := RedirsTaken(r.rest.tail, r.cmd);
      tree := Block(line, redirs);
    } else {
      var items, k := ArgsTaken(t, Exec([]));
      SimpleIs(items);
      tree := Simple(items);
    }
  }

  lemma {:induction false} PipeTaken(t: Toks) returns (tree: PipeTree)
    requires Pipeline(t).Ok?
    ensures var Ok(cmd, rest) := Pipeline(t);
            && PipeOk(tree) && CommandEnds(LastCommand(tree), rest) && !Starts(rest, '|')
            && t == PipeToks(tree, rest) && cmd == PipeCmd(tree)
    decreases Size(t), 1
  {
    var r := Command(t);
    var c := CommandTaken(t);
    tree := One(c);
    if Starts(r.rest, '|') {
      var right := PipeTaken(r.rest.tail);
      tree := Bar(c, right);
    }
  }

  lemma {:induction false} BacksTaken(t: Toks, c: Cmd) returns (n: nat)
    ensures var r := Backs(t, c);
            r.Ok? && t == Amps(n, r.rest) && r.cmd == InBack(c, n) && (n == 0 ==> r.rest == t)
    decreases t
  {
    n := 0;
    if Starts(t, '&') {
      var m := BacksTaken(t.tail, Back(c));
      BackInside(c, m);
      n := m + 1;
    }
  }

  lemma {:induction false} LineTaken(t: Toks) returns (tree: LineTree)
    requires Line(t).Ok?
    ensures var Ok(cmd, rest) := Line(t);
            LineOk(tree) && LineEnds(tree, rest) && t == LineToks(tree, rest) && cmd == LineCmd(tree)
    decreases Size(t), 2
  {
    var p := Pipeline(t);
    var pipe := PipeTaken(t);
    var amps := BacksTaken(p.rest, p.cmd);
    var r := Backs(p.rest, p.cmd);
    tree := Last(pipe, amps);
    if Starts(r.rest, ';') {
      var right := LineTaken(r.rest.tail);
      tree := Semi(pipe, amps, right);
    }
  }

  /** `line` is a tree for the tokens of `t` up to `rest`, means `c`, and cannot go on. */
  predicate ReadsAs(t: Toks, rest: Toks, c: Cmd, line: LineTree) {
    LineOk(line) && t == LineToks(line, rest) && c == LineCmd(line) && LineEnds(line, rest)
  }

  /** The parser returns a command and the tokens left over exactly when the tokens it took stand for that command. */
  lemma LineIff(t: Toks, c: Cmd, rest: Toks)
    ensures Line(t) == Ok(c, rest) <==> exists line :: ReadsAs(t, rest, c, line)
  {
    if Line(t) == Ok(c, rest) {
      var line := LineTaken(t);
      assert ReadsAs(t, rest, c, line);
    }
    if line :| ReadsAs(t, rest, c, line) {
      LineReads(line, rest);
    }
  }

  // ----- complaints -----

  /** Where a tree cannot go on, and what stands complete to the left of it. */
  datatype Fault =
    | AtItem(items: Items)
    | InBlock(inner: Fault)
    | NoClose(line: LineTree)
    | AtRedir(line: LineTree, redirs: Items)
    | AfterBar(c: CommandTree, inner: Fault)
    | AfterSemi(p: PipeTree, amps: nat, inner: Fault)

  function FaultToks(f: Fault, k: Toks): Toks {
    match f
    case AtItem(items) => ItemToks(items, k)
    case InBlock(inner) => Cons(Sym('('), FaultToks(inner, k))
    case NoClose(line) => Cons(Sym('('), LineToks(line, k))
    case AtRedir(line, redirs) => Cons(Sym('('), LineToks(line, Cons(Sym(')'), ItemToks(redirs, k))))
    case AfterBar(c, inner) => CommandToks(c, Cons(Sym('|'), FaultToks(inner, k)))
    case AfterSemi(p, amps, inner) => PipeToks(p, Amps(amps, Cons(Sym(';'), FaultToks(inner, k))))
  }

  /** It may stand where a command (0), a pipeline (1) or a line (2) may. */
  predicate FaultOk(f: Fault, level: nat) {
    match f
    case AtItem(items) => ItemsOk(items)
    case InBlock(inner) => FaultOk(inner, 2)
    case NoClose(line) => LineOk(line)
    case AtRedir(line, redirs) => LineOk(line) && OpsOk(redirs) && ArgsOf(redirs) == []
    case AfterBar(c, inner) => level >= 1 && CommandOk(c) && FaultOk(inner, 1)
    case AfterSemi(p, amps, inner) => level >= 2 && PipeOk(p) && FaultOk(inner, 2)
  }

  /** With `k` there, the complaint is `e`. */
  predicate Wrong(f: Fault, k: Toks, e: Error) {
    match f
    case AtItem(items) => WrongItem(k, |ArgsOf(items)|, e) && (items.NoMore? ==> !Starts(k, '('))
    case NoClose(line) => e == MissingParen && LineEnds(line, k) && !Starts(k, ')')
    case AtRedir(_, _) => e == MissingFile && MissesFile(k)
    case _ => Wrong(f.inner, k, e)
  }

  lemma {:induction false} CommandFails(t: Toks) returns (f: Fault, k: Toks)
    requires Command(t).Panic?
    ensures FaultOk(f, 0) && t == FaultToks(f, k) && Wrong(f, k, Command(t).error)
    decreases Size(t), 0
  {
    if Starts(t, '(') {
      var r := Line(t.tail);
      if r.Panic? {
        f, k := LineFails(t.tail);
        f := InBlock(f);
      } else {
        var line := LineTaken(t.tail);
        if Starts(r.rest, ')') {
          var redirs;
          redirs, k := RedirsTaken(r.rest.tail, r.cmd);
          f := AtRedir(line, redirs);
        } else {
          f, k := NoClose(line), r.rest;
        }
      }
    } else {
      var items;
      items, k := ArgsTaken(t, Exec([]));
      f := AtItem(items);
    }
  }

  lemma {:induction false} PipelineFails(t: Toks) returns (f: Fault, k: Toks)
    requires Pipeline(t).Panic?
    ensures FaultOk(f, 1) && t == FaultToks(f, k) && Wrong(f, k, Pipeline(t).error)
    decreases Size(t), 1
  {
    var r := Command(t);
    if r.Panic? {
      f, k := CommandFails(t);
      FaultRises(f);
    } else {
      var c := CommandTaken(t);
      f, k := PipelineFails(r.rest.tail);
      f := AfterBar(c, f);
    }
  }

  /** What may stand in a smaller place may stand in a larger. */
  lemma FaultRises(f: Fault)
    ensures FaultOk(f, 0) ==> FaultOk(f, 1)
    ensures FaultOk(f, 1) ==> FaultOk(f, 2)
  {
  }

  lemma {:induction false} LineFails(t: Toks) returns (f: Fault, k: Toks)
    requires Line(t).Panic?
    ensures FaultOk(f, 2) && t == FaultToks(f, k) && Wrong(f, k, Line(t).error)
    decreases Size(t), 2
  {
    var p := Pipeline(t);
    if p.Panic? {
      f, k := PipelineFails(t);
      FaultRises(f);
    } else {
      var pipe := PipeTaken(t);
      var amps := BacksTaken(p.rest, p.cmd);
      var r := Backs(p.rest, p.cmd);
      f, k := LineFails(r.rest.tail);
      f := AfterSemi(pipe, amps, f);
    }
  }

  /** Where a fault is, the parser says so. */
  lemma {:induction false} CommandComplains(f: Fault, k: Toks, e: Error)
    requires FaultOk(f, 0) && Wrong(f, k, e)
    ensures Command(FaultToks(f, k)) == Panic(e)
    decreases f, 0
  {
    match f
    case AtItem(items) =>
      ItemComplains(items, k, e);
    case InBlock(inner) =>
      LineComplains(inner, k, e);
    case NoClose(line) =>
      LineReads(line, k);
    case AtRedir(line, redirs) =>
      EndsAtClose(line, ItemToks(redirs, k));
      LineReads(line, Cons(Sym(')'), ItemToks(redirs, k)));
      RedirsRead(redirs, LineCmd(line), k);
  }

  lemma ItemComplains(items: Items, k: Toks, e: Error)
    requires ItemsOk(items) && WrongItem(k, |ArgsOf(items)|, e) && (items.NoMore? ==> !Starts(k, '('))
    ensures Command(ItemToks(items, k)) == Panic(e)
  {
    ArgsRead(items, Exec([]), k);
    AddArgs(Exec([]), items);
  }

  lemma {:induction false} PipelineComplains(f: Fault, k: Toks, e: Error)
    requires FaultOk(f, 1) && Wrong(f, k, e)
    ensures Pipeline(FaultToks(f, k)) == Panic(e)
    decreases f, 1
  {
    if f.AfterBar? {
      CommandReads(f.c, Cons(Sym('|'), FaultToks(f.inner, k)));
      PipelineComplains(f.inner, k, e);
    } else {
      CommandComplains(f, k, e);
    }
  }

  lemma {:induction false} LineComplains(f: Fault, k: Toks, e: Error)
    requires FaultOk(f, 2) && Wrong(f, k, e)
    ensures Line(FaultToks(f, k)) == Panic(e)
    decreases f, 2
  {
    if f.AfterSemi? {
      var more := Cons(Sym(';'), FaultToks(f.inner, k));
      PipeReads(f.p, Amps(f.amps, more));
      BacksRead(PipeCmd(f.p), f.amps, more);
      LineComplains(f.inner, k, e);
    } else {
      PipelineComplains(f, k, e);
    }
  }

  predicate FaultyAt(t: Toks, e: Error, f: Fault, k: Toks) { FaultOk(f, 2) && t == FaultToks(f, k) && Wrong(f, k, e) }

  /** The parser complains exactly where, and of what, a tree cannot go on. */
  lemma ComplainsIff(t: Toks, e: Error)
    ensures Line(t) == Panic(e) <==> exists f, k :: FaultyAt(t, e, f, k)
  {
    if Line(t) == Panic(e) {
      var f, k := LineFails(t);
      assert FaultyAt(t, e, f, k);
    }
    if f, k :| FaultyAt(t, e, f, k) {
      LineComplains(f, k, e);
    }
  }

  // ----- text -----

  /** After blanks, characters `q` up to `e` are the token and do not belong to a longer one. */
  predicate TokenIs(s: string, i: int, q: int, e: int, tok: Tok) {
    && 0 <= i <= q < e <= |s| && (forall k | i <= k < q :: Blank(s[k]))
    && match tok
       case Word(text) =>
         && s[q..e] == text && (forall k | q <= k < e :: !Blank(s[k]) && !Symbol(s[k]))
         && (e < |s| ==> Blank(s[e]) || Symbol(s[e]))
       case Sym(c) =>
         if c == '+' then s[q..e] == ">>" else Symbol(c) && s[q..e] == [c] && (c == '>' && e < |s| ==> s[e] != '>')
  }

  /** From position `i` on, the text is these tokens and blanks. */
  ghost predicate Spelled(s: string, i: int, t: Toks)
    decreases t
  {
    match t
    case Nil => forall k | 0 <= i <= k < |s| :: Blank(s[k])
    case Cons(tok, rest) => exists q, e :: TokenIs(s, i, q, e, tok) && Spelled(s, e, rest)
  }

  lemma {:induction false} SkipBlanksIs(s: string, i: nat, q: nat)
    requires i <= q <= |s| && (q < |s| ==> !Blank(s[q])) && forall k | i <= k < q :: Blank(s[k])
    ensures SkipBlanks(s, i) == q
    decreases q - i
  {
    if i < q {
      SkipBlanksIs(s, i + 1, q);
    }
  }

  lemma {:induction false} WordEndIs(s: string, i: nat, e: nat)
    requires i <= e <= |s| && (e < |s| ==> !WordChar(s[e])) && forall k | i <= k < e :: WordChar(s[k])
    ensures WordEnd(s, i) == e
    decreases e - i
  {
    if i < e {
      WordEndIs(s, i + 1, e);
    }
  }

  /** A token spelled there is the one the lexer takes. */
  lemma TokenIsNext(s: string, i: nat, q: int, e: int, tok: Tok)
    requires NoNul(s) && TokenIs(s, i, q, e, tok)
    ensures SkipBlanks(s, i) == q && TokenAt(s, q) == tok && TokenEnd(s, q) == e
  {
    assert s[q] == s[q..e][0];
    SkipBlanksIs(s, i, q);
    if tok.Word? {
      WordEndIs(s, q, e);
    } else if tok.c == '+' {
      assert s[q + 1] == s[q..e][1];
    }
  }

  /** The token the lexer takes is spelled there. */
  lemma NextIsToken(s: string, i: nat)
    requires NoNul(s) && i <= |s| && SkipBlanks(s, i) < |s|
    ensures var q := SkipBlanks(s, i);
            TokenIs(s, i, q, TokenEnd(s, q), TokenAt(s, q))
  {
    var q := SkipBlanks(s, i);
    var e := TokenEnd(s, q);
    if s[q] == '>' && q + 1 < |s| && s[q + 1] == '>' {
      assert s[q..e] == ">>";
    } else if Symbol(s[q]) {
      assert s[q..e] == [s[q]];
    }
  }

  lemma {:induction false} LexIff(s: string, i: nat, t: Toks)
    requires NoNul(s) && i <= |s|
    ensures Lex(s, i) == t <==> Spelled(s, i, t)
    decreases t
  {
    var q := SkipBlanks(s, i);
    if t.Cons? {
      if q < |s| {
        NextIsToken(s, i);
        LexIff(s, TokenEnd(s, q), t.tail);
      }
      if q', e :| TokenIs(s, i, q', e, t.head) && Spelled(s, e, t.tail) {
        TokenIsNext(s, i, q', e, t.head);
      }
    } else if q < |s| {
      assert !Blank(s[q]);
    }
  }

  /** The line stands for the command. */
  ghost predicate StandsFor(s: string, c: Cmd) { exists t, line :: Spelled(s, 0, t) && ReadsAs(t, Nil, c, line) }

  /** The complaint about the line: a fault in it, or a whole line with something left over. */
  ghost predicate Complaint(s: string, e: Error) { exists t :: Spelled(s, 0, t) && (FaultIn(t, e) || (e == Unexpected && LeftOver(t))) }

  ghost predicate FaultIn(t: Toks, e: Error) { exists f, k :: FaultyAt(t, e, f, k) }

  ghost predicate LeftOver(t: Toks) { exists rest: Toks, c, line :: rest.Cons? && ReadsAs(t, rest, c, line) }

  /** `parsecmd` finds the command a line stands for, and no other. */
  lemma MeaningIff(s: string, c: Cmd)
    requires NoNul(s)
    ensures Meaning(s) == Ok(c, Nil) <==> StandsFor(s, c)
  {
    var t := Lex(s, 0);
    LexIff(s, 0, t);
    LineIff(t, c, Nil);
    if t', line :| Spelled(s, 0, t') && ReadsAs(t', Nil, c, line) {
      LexIff(s, 0, t');
    }
  }

  /** It panics exactly on the lines that stand for nothing. */
  lemma PanicsIff(s: string)
    requires NoNul(s)
    ensures Meaning(s).Panic? <==> forall c :: !StandsFor(s, c)
  {
    if Meaning(s).Ok? {
      MeaningIff(s, Meaning(s).cmd);
    } else {
      forall c
        ensures !StandsFor(s, c)
      {
        MeaningIff(s, c);
      }
    }
  }

  /** And with the complaint that is due. */
  lemma ComplaintIff(s: string, e: Error)
    requires NoNul(s)
    ensures Meaning(s) == Panic(e) <==> Complaint(s, e)
  {
    var t := Lex(s, 0);
    LexIff(s, 0, t);
    ComplainsIff(t, e);
    LeftOverIff(t);
    if t' :| Spelled(s, 0, t') && (FaultIn(t', e) || (e == Unexpected && LeftOver(t'))) {
      LexIff(s, 0, t');
    }
  }

  lemma LeftOverIff(t: Toks)
    ensures LeftOver(t) <==> Line(t).Ok? && Line(t).rest.Cons?
  {
    if Line(t).Ok? {
      LineIff(t, Line(t).cmd, Line(t).rest);
    }
    if rest: Toks, c, line :| rest.Cons? && ReadsAs(t, rest, c, line) {
      LineIff(t, c, rest);
    }
  }
}
