/** A grammar over the tokens of a line and its meaning, written apart from the shell's parser (sh.c), and the
    proof that the parser accepts exactly the lines of this grammar and gives them this meaning. */
module ShellSyntax {
  import opened Grammar
  import opened Shell

  // ---------- commands as the user means them ----------

  datatype Tree =
    | Run(args: seq<string>)
    | Into(cmd: Tree, red: Red)
    | Piped(left: Tree, right: Tree)
    | Listed(left: Tree, right: Tree)
    | InBack(cmd: Tree)

  /** A file opened in a mode as descriptor fd. */
  datatype Red = Red(file: string, mode: Mode, fd: int)

  /** Redirected as often as this, the last outermost. */
  function Around(t: Tree, reds: seq<Red>): Tree
  {
    if reds == [] then t else Into(Around(t, reds[..|reds| - 1]), reds[|reds| - 1])
  }

  function BackN(t: Tree, n: nat): Tree
  {
    if n == 0 then t else InBack(BackN(t, n - 1))
  }

  /** The tree of a parsed command, its words read from the line. */
  function TreeOf(b: string, c: Cmd): Tree
    requires GoodCmd(b, c)
  {
    match c
    case Exec(args) => Run(Words(b, args))
    case Redir(c1, file, mode, fd) => Into(TreeOf(b, c1), Red(b[file.q..file.eq], mode, fd))
    case Pipe(l, r) => Piped(TreeOf(b, l), TreeOf(b, r))
    case List(l, r) => Listed(TreeOf(b, l), TreeOf(b, r))
    case Back(c1) => InBack(TreeOf(b, c1))
  }

  function Words(b: string, ss: seq<Span>): seq<string>
    requires GoodSpans(b, ss)
  {
    seq(|ss|, i requires 0 <= i < |ss| => assert GoodSpan(b, ss[i]); b[ss[i].q..ss[i].eq])
  }

  function RedsOf(b: string, rs: seq<Redirection>): seq<Red>
    requires GoodFiles(b, rs)
  {
    seq(|rs|, i requires 0 <= i < |rs| =>
      assert GoodSpan(b, rs[i].file); Red(b[rs[i].file.q..rs[i].file.eq], rs[i].mode, rs[i].fd))
  }

  lemma {:induction false} WrapIs(b: string, c: Cmd, rs: seq<Redirection>)
    requires GoodCmd(b, c) && GoodFiles(b, rs)
    ensures GoodCmd(b, Wrap(c, rs)) && TreeOf(b, Wrap(c, rs)) == Around(TreeOf(b, c), RedsOf(b, rs))
  {
    WrapGood(b, c, rs);
    if rs != [] {
      var k := |rs| - 1;
      WrapIs(b, c, rs[..k]);
      assert RedsOf(b, rs)[..k] == RedsOf(b, rs[..k]);
      assert GoodSpan(b, rs[k].file);
    }
  }

  // ---------- the grammar ----------

  datatype Tok = Sym(c: char) | Word(w: string)

  /** A redirection as written: "<", ">", or '+' for ">>". */
  datatype Rd = Rd(op: char, file: string)

  datatype Item = Item(word: string, rds: seq<Rd>)

  /** line: pipe {"&"} [";" line];  pipe: exec ["|" pipe];  exec: {rd} {word {rd}} or "(" line ")" {rd} */
  datatype LineS = LineS(pipe: PipeS, backs: nat, rest: RestS)
  datatype RestS = End | Then(line: LineS)
  datatype PipeS = One(e: ExecS) | Bar(e: ExecS, rest: PipeS)
  datatype ExecS = Simple(pre: seq<Rd>, items: seq<Item>) | Block(line: LineS, rds: seq<Rd>)

  function RdToks(rs: seq<Rd>): seq<Tok>
  {
    if rs == [] then [] else [Sym(rs[0].op), Word(rs[0].file)] + RdToks(rs[1..])
  }

  function ItemToks(items: seq<Item>): seq<Tok>
  {
    if items == [] then [] else [Word(items[0].word)] + (RdToks(items[0].rds) + ItemToks(items[1..]))
  }

  function Amps(n: nat): seq<Tok>
  {
    if n == 0 then [] else [Sym('&')] + Amps(n - 1)
  }

  function LineToks(l: LineS): seq<Tok>
  {
    PipeToks(l.pipe) + (Amps(l.backs) + match l.rest case End => [] case Then(l1) => [Sym(';')] + LineToks(l1))
  }

  function PipeToks(p: PipeS): seq<Tok>
  {
    match p
    case One(e) => ExecToks(e)
    case Bar(e, p1) => ExecToks(e) + ([Sym('|')] + PipeToks(p1))
  }

  function ExecToks(e: ExecS): seq<Tok>
  {
    match e
    case Simple(pre, items) => RdToks(pre) + ItemToks(items)
    case Block(l, rds) => [Sym('(')] + (LineToks(l) + ([Sym(')')] + RdToks(rds)))
  }

  // ---------- its meaning ----------

  /** ">>" is no more than ">". */
  function RedOf(r: Rd): Red
  {
    if r.op == '<' then Red(r.file, RDONLY, 0) else Red(r.file, WRONLY_CREATE, 1)
  }

  function Reds(rs: seq<Rd>): seq<Red>
  {
    if rs == [] then [] else [RedOf(rs[0])] + Reds(rs[1..])
  }

  function ItemReds(items: seq<Item>): seq<Red>
  {
    if items == [] then [] else Reds(items[0].rds) + ItemReds(items[1..])
  }

  function ItemWords(items: seq<Item>): seq<string>
  {
    if items == [] then [] else [items[0].word] + ItemWords(items[1..])
  }

  function LineTree(l: LineS): Tree
  {
    var t := BackN(PipeTree(l.pipe), l.backs);
    match l.rest
    case End => t
    case Then(l1) => Listed(t, LineTree(l1))
  }

  function PipeTree(p: PipeS): Tree
  {
    match p
    case One(e) => ExecTree(e)
    case Bar(e, p1) => Piped(ExecTree(e), PipeTree(p1))
  }

  function ExecTree(e: ExecS): Tree
  {
    match e
    case Simple(pre, items) => Around(Run(ItemWords(items)), Reds(pre) + ItemReds(items))
    case Block(l, rds) => Around(LineTree(l), Reds(rds))
  }

  // ---------- what is well-formed ----------

  predicate GoodRds(rs: seq<Rd>)
  {
    forall k :: 0 <= k < |rs| ==> rs[k].op in ['<', '>', '+']
  }

  /** At most nine words in a simple command. */
  predicate GoodItems(items: seq<Item>)
  {
    |items| < MAXARGS && forall k :: 0 <= k < |items| ==> GoodRds(items[k].rds)
  }

  predicate GoodLine(l: LineS)
  {
    GoodPipe(l.pipe) && (l.rest.Then? ==> GoodLine(l.rest.line))
  }

  predicate GoodPipe(p: PipeS)
  {
    GoodExec(p.e) && (p.Bar? ==> GoodPipe(p.rest))
  }

  predicate GoodExec(e: ExecS)
  {
    match e
    case Simple(pre, items) => GoodRds(pre) && GoodItems(items)
    case Block(l, rds) => GoodLine(l) && GoodRds(rds)
  }

  // ---------- the tokens of a line ----------

  function TokOf(b: string, t: Token): Tok
    requires t.q <= t.eq <= |b|
  {
    if t.kind == 'a' then Word(b[t.q..t.eq]) else Sym(t.kind)
  }

  function Toks(b: string, i: nat): seq<Tok>
    requires Line(b) && i <= |b|
    decreases |b| - i
  {
    var t := TokenAt(b, i);
    if t.kind == NUL then [] else [TokOf(b, t)] + Toks(b, t.next)
  }

  lemma SkipToks(b: string, i: nat)
    requires Line(b) && i <= |b|
    ensures Toks(b, SkipWhite(b, i)) == Toks(b, i)
  {
    hide TokenAt;
    SkipTwice(b, i);
  }

  predicate Begins(ts: seq<Tok>, cs: seq<char>)
  {
    ts != [] && ts[0].Sym? && (if ts[0].c == '+' then '>' else ts[0].c) in cs
  }

  /** peek sees the first token. */
  lemma Peeks(b: string, i: nat, cs: seq<char>)
    requires Line(b) && i <= |b| && forall c :: c in cs ==> Symbol(c)
    ensures PeekAt(b, i, cs) <==> Begins(Toks(b, i), cs)
  {
    hide WordEnd, SkipWhite;
    var q := SkipWhite(b, i);
    var t := TokenAt(b, i);
    assert t.q == q;
  }

  lemma NextTok(b: string, i: nat, t: Tok, ts: seq<Tok>)
    requires Line(b) && i <= |b| && Toks(b, i) == [t] + ts
    ensures var k := TokenAt(b, i); k.kind != NUL && TokOf(b, k) == t && Toks(b, k.next) == ts
  {
    hide TokenAt;
    assert ([t] + ts)[1..] == ts;
    assert Toks(b, i)[1..] == Toks(b, TokenAt(b, i).next);
  }

  // ---------- the parser follows the grammar ----------

  /** The line is parsed at i as t, leaving these tokens. */
  ghost predicate Gives(b: string, r: Parse, t: Tree, rest: seq<Tok>)
    requires Line(b)
  {
    r.Ok? && r.pos <= |b| && GoodCmd(b, r.cmd) && TreeOf(b, r.cmd) == t && Toks(b, r.pos) == rest
  }

  lemma NoItems(rest: seq<Tok>)
    ensures ItemToks([]) + rest == rest
  {
  }

  lemma GivesRest(b: string, r: Parse, t: Tree, rest: seq<Tok>)
    requires Line(b) && Gives(b, r, t, rest)
    ensures r.Ok? && r.pos <= |b| && Toks(b, r.pos) == rest
  {
  }

  lemma MoreItems(it: Item, more: seq<Item>, rest: seq<Tok>)
    ensures ItemToks([it] + more) + rest == [Word(it.word)] + (RdToks(it.rds) + (ItemToks(more) + rest))
  {
    hide RdToks;
    assert ([it] + more)[1..] == more;
  }

  lemma FirstTok(b: string, i: nat)
    requires Line(b) && i <= |b|
    ensures Toks(b, i) == [] <==> TokenAt(b, i).kind == NUL
    ensures var t := TokenAt(b, i); t.kind != NUL ==> Toks(b, i) == [TokOf(b, t)] + Toks(b, t.next)
  {
  }

  lemma MoreRds(r: Rd, more: seq<Rd>, rest: seq<Tok>)
    ensures RdToks([r] + more) + rest == [Sym(r.op)] + ([Word(r.file)] + (RdToks(more) + rest))
    ensures Reds([r] + more) == [RedOf(r)] + Reds(more)
  {
    assert ([r] + more)[1..] == more;
  }

  lemma RedsMore(b: string, rs: seq<Redirection>, r: Redirection)
    requires GoodFiles(b, rs) && GoodSpan(b, r.file)
    ensures GoodFiles(b, rs + [r])
    ensures RedsOf(b, rs + [r]) == RedsOf(b, rs) + [Red(b[r.file.q..r.file.eq], r.mode, r.fd)]
  {
  }

  lemma {:induction false} RedirsMean(b: string, i: nat, done: seq<Redirection>, rs: seq<Rd>, rest: seq<Tok>)
    requires Line(b) && i <= |b| && GoodFiles(b, done) && GoodRds(rs)
    requires Toks(b, i) == RdToks(rs) + rest && !Begins(rest, ['<', '>'])
    ensures var r := RedirsAt(b, i, done);
      r.Redirs? && RedsOf(b, r.rs) == RedsOf(b, done) + Reds(rs) && Toks(b, r.pos) == rest
    decreases |rs|
  {
    hide TokenAt, PeekAt, SkipWhite, GoodSpan, Toks, RedsOf;
    Peeks(b, i, ['<', '>']);
    if rs == [] {
      SkipToks(b, i);
      assert Toks(b, i) == rest;
      assert RedsOf(b, done) + [] == RedsOf(b, done);
    } else {
      var r, t := rs[0], TokenAt(b, i);
      MoreRds(r, rs[1..], rest);
      assert rs == [r] + rs[1..];
      NextTok(b, i, Sym(r.op), [Word(r.file)] + (RdToks(rs[1..]) + rest));
      NextTok(b, t.next, Word(r.file), RdToks(rs[1..]) + rest);
      var f := TokenAt(b, t.next);
      var m := RedirOf(t.kind, Span(f.q, f.eq));
      RedsMore(b, done, m);
      assert Red(b[f.q..f.eq], m.mode, m.fd) == RedOf(r);
      RedirsMean(b, f.next, done + [m], rs[1..], rest);
      assert RedsOf(b, done) + [RedOf(r)] + Reds(rs[1..]) == RedsOf(b, done) + Reds(rs);
    }
  }

  /** What may follow a command: nothing, or a symbol that is no redirection and opens no block. */
  predicate Stops(rest: seq<Tok>)
  {
    rest == [] || Begins(rest, ['|', ')', '&', ';'])
  }

  lemma ItemsBegin(items: seq<Item>, rest: seq<Tok>)
    requires Stops(rest)
    ensures !Begins(ItemToks(items) + rest, ['<', '>']) && !Begins(ItemToks(items) + rest, ['('])
  {
  }

  lemma WordsMore(b: string, ss: seq<Span>, s: Span)
    requires GoodSpans(b, ss) && GoodSpan(b, s)
    ensures GoodSpans(b, ss + [s]) && Words(b, ss + [s]) == Words(b, ss) + [b[s.q..s.eq]]
  {
  }

  lemma {:induction false} ArgsMean(
    b: string, i: nat, args: seq<Span>, rs: seq<Redirection>, items: seq<Item>, rest: seq<Tok>)
    requires Line(b) && i <= |b| && GoodSpans(b, args) && GoodFiles(b, rs)
    requires |args| + |items| < MAXARGS && GoodItems(items)
    requires Toks(b, i) == ItemToks(items) + rest && Stops(rest)
    ensures Gives(b, ArgsAt(b, i, args, rs),
      Around(Run(Words(b, args) + ItemWords(items)), RedsOf(b, rs) + ItemReds(items)), rest)
    decreases |items|
  {
    hide TokenAt, PeekAt, SkipWhite, GoodSpan, Toks, RedirsAt, RedsOf, Words, Wrap, Around, ItemToks, RdToks, Gives;
    Peeks(b, i, ['|', ')', '&', ';']);
    if items == [] {
      NoItems(rest);
      ArgsEnd(b, i, args, rs);
      assert Toks(b, i) == rest;
      assert Words(b, args) + [] == Words(b, args) && RedsOf(b, rs) + [] == RedsOf(b, rs);
    } else {
      var it, t, more := items[0], TokenAt(b, i), items[1..];
      assert items == [it] + more;
      MoreItems(it, more, rest);
      NextTok(b, i, Word(it.word), RdToks(it.rds) + (ItemToks(more) + rest));
      var s := Span(t.q, t.eq);
      ItemsBegin(more, rest);
      RedirsMean(b, t.next, rs, it.rds, ItemToks(more) + rest);
      var rs1 := RedirsAt(b, t.next, rs);
      WordsMore(b, args, s);
      ArgsMean(b, rs1.pos, args + [s], rs1.rs, more, rest);
      assert Words(b, args) + [it.word] + ItemWords(more) == Words(b, args) + ItemWords(items);
      assert RedsOf(b, rs) + Reds(it.rds) + ItemReds(more) == RedsOf(b, rs) + ItemReds(items);
    }
  }

  lemma ArgsEnd(b: string, i: nat, args: seq<Span>, rs: seq<Redirection>)
    requires Line(b) && i <= |b| && |args| < MAXARGS && GoodSpans(b, args) && GoodFiles(b, rs) && Stops(Toks(b, i))
    ensures Gives(b, ArgsAt(b, i, args, rs), Around(Run(Words(b, args)), RedsOf(b, rs)), Toks(b, i))
  {
    hide PeekAt, SkipWhite, GoodSpan, RedirsAt, RedsOf, Words, Wrap, Around;
    Peeks(b, i, ['|', ')', '&', ';']);
    WrapIs(b, Exec(args), rs);
    SkipToks(b, i);
    if Toks(b, i) == [] {
      EndToks(b, i);
    }
  }

  lemma EndToks(b: string, i: nat)
    requires Line(b) && i <= |b| && Toks(b, i) == []
    ensures TokenAt(b, i).kind == NUL && Toks(b, TokenAt(b, i).next) == []
  {
    hide WordEnd;
    SkipToks(b, i);
    SkipTwice(b, i);
  }

  lemma {:induction false} ExecMeans(b: string, i: nat, e: ExecS, rest: seq<Tok>)
    requires Line(b) && i <= |b| && GoodExec(e)
    requires Toks(b, i) == ExecToks(e) + rest && Stops(rest)
    ensures Gives(b, ExecAt(b, i), ExecTree(e), rest)
    decreases e
  {
    hide PeekAt, Toks, RedirsAt, ArgsAt, Gives, BlockAt, LineAt;
    Peeks(b, i, ['(']);
    match e
    case Simple(pre, items) => SimpleMeans(b, i, pre, items, rest);
    case Block(l, rds) =>
      var inner := [Sym(')')] + (RdToks(rds) + rest);
      assert Toks(b, i) == [Sym('(')] + (LineToks(l) + inner);
      NextTok(b, i, Sym('('), LineToks(l) + inner);
      LineMeans(b, TokenAt(b, i).next, l, inner);
      BlockMeans(b, i, LineTree(l), rds, rest);
  }

  lemma SimpleMeans(b: string, i: nat, pre: seq<Rd>, items: seq<Item>, rest: seq<Tok>)
    requires Line(b) && i <= |b| && GoodRds(pre) && GoodItems(items)
    requires Toks(b, i) == RdToks(pre) + ItemToks(items) + rest && Stops(rest)
    ensures !PeekAt(b, i, ['('])
    ensures Gives(b, ExecAt(b, i), Around(Run(ItemWords(items)), Reds(pre) + ItemReds(items)), rest)
  {
    hide PeekAt, Toks, RedirsAt, ArgsAt, Gives, BlockAt, Around, ItemToks, Words, RedsOf, ItemWords, ItemReds;
    Peeks(b, i, ['(']);
    ItemsBegin(items, rest);
    NoOpen(pre, ItemToks(items) + rest);
    assert RdToks(pre) + ItemToks(items) + rest == RdToks(pre) + (ItemToks(items) + rest);
    RedirsMean(b, i, [], pre, ItemToks(items) + rest);
    var rs := RedirsAt(b, i, []);
    ArgsMean(b, rs.pos, [], rs.rs, items, rest);
    NoneYet(b, ItemWords(items), Reds(pre));
  }

  lemma NoneYet(b: string, ws: seq<string>, reds: seq<Red>)
    ensures Words(b, []) + ws == ws && RedsOf(b, []) + reds == reds
  {
  }

  lemma NoOpen(rs: seq<Rd>, rest: seq<Tok>)
    requires GoodRds(rs) && !Begins(rest, ['('])
    ensures !Begins(RdToks(rs) + rest, ['('])
  {
    if rs == [] {
      assert RdToks(rs) + rest == rest;
    }
  }

  lemma BlockMeans(b: string, i: nat, t: Tree, rds: seq<Rd>, rest: seq<Tok>)
    requires Line(b) && i <= |b| && PeekAt(b, i, ['(']) && GoodRds(rds) && Stops(rest)
    requires Gives(b, LineAt(b, TokenAt(b, i).next), t, [Sym(')')] + (RdToks(rds) + rest))
    ensures Gives(b, ExecAt(b, i), Around(t, Reds(rds)), rest)
  {
    hide PeekAt, Toks, RedirsAt, TokenAt, LineAt, Wrap, Around;
    var c := LineAt(b, TokenAt(b, i).next);
    Peeks(b, c.pos, [')']);
    NextTok(b, c.pos, Sym(')'), RdToks(rds) + rest);
    var next := TokenAt(b, c.pos).next;
    RedirsMean(b, next, [], rds, rest);
    assert RedsOf(b, []) + Reds(rds) == Reds(rds);
    WrapIs(b, c.cmd, RedirsAt(b, next, []).rs);
  }

  lemma {:induction false} PipeMeans(b: string, i: nat, p: PipeS, rest: seq<Tok>)
    requires Line(b) && i <= |b| && GoodPipe(p)
    requires Toks(b, i) == PipeToks(p) + rest && Stops(rest) && !Begins(rest, ['|'])
    ensures Gives(b, PipeAt(b, i), PipeTree(p), rest)
    decreases p
  {
    hide PeekAt, Toks, SkipWhite, ExecAt, TokenAt;
    match p
    case One(e) =>
      ExecMeans(b, i, e, rest);
      var j := ExecAt(b, i).pos;
      Peeks(b, j, ['|']);
      SkipToks(b, j);
    case Bar(e, p1) =>
      var more := [Sym('|')] + (PipeToks(p1) + rest);
      assert Toks(b, i) == ExecToks(e) + more;
      ExecMeans(b, i, e, more);
      var j := ExecAt(b, i).pos;
      Peeks(b, j, ['|']);
      NextTok(b, j, Sym('|'), PipeToks(p1) + rest);
      PipeMeans(b, TokenAt(b, j).next, p1, rest);
  }

  lemma {:induction false} BacksMean(b: string, i: nat, c: Cmd, n: nat, rest: seq<Tok>)
    requires Line(b) && i <= |b| && GoodCmd(b, c) && Toks(b, i) == Amps(n) + rest && !Begins(rest, ['&'])
    ensures Gives(b, BacksAt(b, i, c), BackN(TreeOf(b, c), n), rest)
    decreases n
  {
    hide PeekAt, Toks, SkipWhite, TokenAt;
    Peeks(b, i, ['&']);
    if n == 0 {
      assert Amps(n) + rest == rest;
      SkipToks(b, i);
    } else {
      assert Amps(n) + rest == [Sym('&')] + (Amps(n - 1) + rest);
      NextTok(b, i, Sym('&'), Amps(n - 1) + rest);
      BacksMean(b, TokenAt(b, i).next, Back(c), n - 1, rest);
      BackInside(TreeOf(b, c), n - 1);
    }
  }

  lemma {:induction false} BackInside(t: Tree, n: nat)
    ensures BackN(InBack(t), n) == InBack(BackN(t, n))
  {
    if n > 0 {
      BackInside(t, n - 1);
    }
  }

  lemma AmpsBegin(n: nat, rest: seq<Tok>)
    requires rest == [] || Begins(rest, [';', ')'])
    ensures Stops(Amps(n) + rest) && !Begins(Amps(n) + rest, ['|'])
  {
    if n == 0 {
      assert Amps(n) + rest == rest;
    }
  }

  lemma {:induction false} LineMeans(b: string, i: nat, l: LineS, rest: seq<Tok>)
    requires Line(b) && i <= |b| && GoodLine(l)
    requires Toks(b, i) == LineToks(l) + rest && (rest == [] || Begins(rest, [')']))
    ensures Gives(b, LineAt(b, i), LineTree(l), rest)
    decreases l
  {
    hide PeekAt, Toks, SkipWhite, PipeAt, BacksAt, TokenAt, PipeToks, Amps, PipeTree;
    var tail := (match l.rest case End => [] case Then(l1) => [Sym(';')] + LineToks(l1)) + rest;
    assert Toks(b, i) == PipeToks(l.pipe) + (Amps(l.backs) + tail);
    AmpsBegin(l.backs, tail);
    PipeMeans(b, i, l.pipe, Amps(l.backs) + tail);
    var p := PipeAt(b, i);
    BacksMean(b, p.pos, p.cmd, l.backs, tail);
    var j := BacksAt(b, p.pos, p.cmd).pos;
    Peeks(b, j, [';']);
    match l.rest
    case End => SkipToks(b, j);
    case Then(l1) =>
      assert tail == [Sym(';')] + (LineToks(l1) + rest);
      NextTok(b, j, Sym(';'), LineToks(l1) + rest);
      LineMeans(b, TokenAt(b, j).next, l1, rest);
  }

  // ---------- and accepts nothing else ----------

  lemma {:induction false} RedirsRead(b: string, i: nat, done: seq<Redirection>) returns (rs: seq<Rd>)
    requires Line(b) && i <= |b| && GoodFiles(b, done) && RedirsAt(b, i, done).Redirs?
    ensures GoodRds(rs)
    ensures Toks(b, i) == RdToks(rs) + Toks(b, RedirsAt(b, i, done).pos)
    decreases |b| - i
  {
    hide PeekAt, SkipWhite, GoodSpan;
    Peeks(b, i, ['<', '>']);
    if PeekAt(b, i, ['<', '>']) {
      var t := TokenAt(b, i);
      var f := TokenAt(b, t.next);
      var more := RedirsRead(b, f.next, done + [RedirOf(t.kind, Span(f.q, f.eq))]);
      rs := [Rd(t.kind, b[f.q..f.eq])] + more;
      assert rs[1..] == more;
    } else {
      rs := [];
      SkipToks(b, i);
    }
  }

  lemma {:induction false} ArgsRead(b: string, i: nat, args: seq<Span>, rs: seq<Redirection>)
    returns (items: seq<Item>)
    requires Line(b) && i <= |b| && |args| < MAXARGS && GoodSpans(b, args) && GoodFiles(b, rs)
    requires ArgsAt(b, i, args, rs).Ok?
    ensures |args| + |items| < MAXARGS && GoodItems(items)
    ensures Toks(b, i) == ItemToks(items) + Toks(b, ArgsAt(b, i, args, rs).pos)
    ensures Stops(Toks(b, ArgsAt(b, i, args, rs).pos))
    decreases |b| - i
  {
    hide PeekAt, SkipWhite, GoodSpan, RedirsAt, Wrap, Toks, TokenAt, Begins, ItemToks, RdToks, Gives;
    Peeks(b, i, ['|', ')', '&', ';']);
    FirstTok(b, i);
    if Stops(Toks(b, i)) {
      items := [];
      ArgsEnd(b, i, args, rs);
      NoItems(Toks(b, i));
      GivesRest(b, ArgsAt(b, i, args, rs), Around(Run(Words(b, args)), RedsOf(b, rs)), Toks(b, i));
    } else {
      var t := TokenAt(b, i);
      var s := Span(t.q, t.eq);
      var rds := RedirsRead(b, t.next, rs);
      var rs1 := RedirsAt(b, t.next, rs);
      var more := ArgsRead(b, rs1.pos, args + [s], rs1.rs);
      var it := Item(b[t.q..t.eq], rds);
      items := [it] + more;
      MoreItems(it, more, Toks(b, ArgsAt(b, rs1.pos, args + [s], rs1.rs).pos));
    }
  }

  lemma {:induction false} ExecRead(b: string, i: nat) returns (e: ExecS)
    requires Line(b) && i <= |b| && ExecAt(b, i).Ok?
    ensures GoodExec(e) && Toks(b, i) == ExecToks(e) + Toks(b, ExecAt(b, i).pos)
    decreases |b| - i, 1
  {
    hide PeekAt, SkipWhite, Toks, TokenAt, RedirsAt, ArgsAt, Wrap, LineAt, RdToks, ItemToks, LineToks;
    Peeks(b, i, ['(']);
    FirstTok(b, i);
    if PeekAt(b, i, ['(']) {
      var j := TokenAt(b, i).next;
      var l := LineRead(b, j);
      var k := LineAt(b, j).pos;
      Peeks(b, k, [')']);
      FirstTok(b, k);
      var rds := RedirsRead(b, TokenAt(b, k).next, []);
      e := Block(l, rds);
    } else {
      var pre := RedirsRead(b, i, []);
      var rs := RedirsAt(b, i, []);
      var items := ArgsRead(b, rs.pos, [], rs.rs);
      e := Simple(pre, items);
    }
  }

  lemma {:induction false} PipeRead(b: string, i: nat) returns (p: PipeS)
    requires Line(b) && i <= |b| && PipeAt(b, i).Ok?
    ensures GoodPipe(p) && Toks(b, i) == PipeToks(p) + Toks(b, PipeAt(b, i).pos)
    decreases |b| - i, 2
  {
    hide PeekAt, SkipWhite, Toks, TokenAt, ExecAt, ExecToks;
    var e := ExecRead(b, i);
    var j := ExecAt(b, i).pos;
    Peeks(b, j, ['|']);
    FirstTok(b, j);
    if PeekAt(b, j, ['|']) {
      var p1 := PipeRead(b, TokenAt(b, j).next);
      p := Bar(e, p1);
    } else {
      p := One(e);
      SkipToks(b, j);
    }
  }

  lemma {:induction false} BacksRead(b: string, i: nat, c: Cmd) returns (n: nat)
    requires Line(b) && i <= |b| && GoodCmd(b, c)
    ensures Toks(b, i) == Amps(n) + Toks(b, BacksAt(b, i, c).pos)
    decreases |b| - i
  {
    hide PeekAt, SkipWhite, Toks, TokenAt;
    Peeks(b, i, ['&']);
    FirstTok(b, i);
    if PeekAt(b, i, ['&']) {
      var m := BacksRead(b, TokenAt(b, i).next, Back(c));
      n := m + 1;
    } else {
      n := 0;
      SkipToks(b, i);
    }
  }

  lemma {:induction false} LineRead(b: string, i: nat) returns (l: LineS)
    requires Line(b) && i <= |b| && LineAt(b, i).Ok?
    ensures GoodLine(l) && Toks(b, i) == LineToks(l) + Toks(b, LineAt(b, i).pos)
    decreases |b| - i, 3
  {
    hide PeekAt, SkipWhite, Toks, TokenAt, PipeAt, BacksAt, PipeToks;
    var p := PipeRead(b, i);
    var c := PipeAt(b, i);
    var n := BacksRead(b, c.pos, c.cmd);
    var j := BacksAt(b, c.pos, c.cmd).pos;
    Peeks(b, j, [';']);
    FirstTok(b, j);
    if PeekAt(b, j, [';']) {
      var l1 := LineRead(b, TokenAt(b, j).next);
      l := LineS(p, n, Then(l1));
    } else {
      l := LineS(p, n, End);
      SkipToks(b, j);
    }
  }

  // ---------- the language of the shell ----------

  /** l is the line b, as a sentence of the grammar. */
  ghost predicate Derives(b: string, l: LineS)
    requires Line(b)
  {
    GoodLine(l) && Toks(b, 0) == LineToks(l)
  }

  /** Nothing is left when the tokens are. */
  lemma NoneLeft(b: string, j: nat)
    requires Line(b) && j <= |b|
    ensures SkipWhite(b, j) == |b| <==> Toks(b, j) == []
  {
    hide WordEnd, SkipWhite;
  }

  lemma DerivedParses(b: string, l: LineS)
    requires Line(b) && Derives(b, l)
    ensures CmdOf(b).Ok? && TreeOf(b, CmdOf(b).cmd) == LineTree(l)
  {
    hide Toks, LineAt, LineToks, LineTree, GoodLine;
    assert LineToks(l) + [] == LineToks(l);
    LineMeans(b, 0, l, []);
    NoneLeft(b, LineAt(b, 0).pos);
  }

  /** The parser accepts exactly the lines of the grammar, and gives each of them its meaning. */
  lemma ParserIsGrammar(b: string)
    requires Line(b)
    ensures CmdOf(b).Ok? <==> exists l :: Derives(b, l)
    ensures forall l :: Derives(b, l) ==> CmdOf(b).Ok? && TreeOf(b, CmdOf(b).cmd) == LineTree(l)
  {
    hide Toks, LineAt, LineToks, LineTree, GoodLine;
    if CmdOf(b).Ok? {
      var l := LineRead(b, 0);
      NoneLeft(b, LineAt(b, 0).pos);
      assert Derives(b, l);
    }
    forall l | Derives(b, l) ensures CmdOf(b).Ok? && TreeOf(b, CmdOf(b).cmd) == LineTree(l) {
      DerivedParses(b, l);
    }
  }
}
