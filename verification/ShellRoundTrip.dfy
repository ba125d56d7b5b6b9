/** A sentence of the shell's grammar, in any layout, parses as what it means; a command tree printed with as few
    parentheses as the grammar allows parses back to the tree. */
module ShellRoundTrip {
  import opened Grammar
  import opened Shell
  import opened ShellSyntax

  // ---------- tokens as text ----------

  predicate IsWord(w: string)
  {
    |w| > 0 && forall k :: 0 <= k < |w| ==> Wordy(w[k])
  }

  predicate GoodTok(t: Tok)
  {
    match t
    case Sym(c) => c in ['|', '(', ')', ';', '&', '<', '>', '+']
    case Word(w) => IsWord(w)
  }

  predicate GoodToks(ts: seq<Tok>)
  {
    forall k :: 0 <= k < |ts| ==> GoodTok(ts[k])
  }

  predicate Blank(g: string)
  {
    forall k :: 0 <= k < |g| ==> White(g[k])
  }

  function TokText(t: Tok): string
  {
    match t
    case Sym(c) => if c == '+' then ">>" else [c]
    case Word(w) => w
  }

  /** Two words, or a ">" before another, would run together. */
  predicate RunOn(t: Tok, u: Tok)
  {
    (t.Word? && u.Word?) || (t == Sym('>') && (u == Sym('>') || u == Sym('+')))
  }

  /** White space before, between and after the tokens: any, but some where two would run together. */
  predicate Layout(ts: seq<Tok>, gaps: seq<string>)
  {
    && |gaps| == |ts| + 1
    && (forall k :: 0 <= k < |gaps| ==> Blank(gaps[k]))
    && forall k :: 0 < k < |ts| && RunOn(ts[k - 1], ts[k]) ==> gaps[k] != ""
  }

  function Spell(ts: seq<Tok>, gaps: seq<string>): string
    requires |gaps| == |ts| + 1
  {
    if ts == [] then gaps[0] else gaps[0] + (TokText(ts[0]) + Spell(ts[1..], gaps[1..]))
  }

  lemma LayoutTail(ts: seq<Tok>, gaps: seq<string>)
    requires ts != [] && Layout(ts, gaps)
    ensures Layout(ts[1..], gaps[1..])
  {
    hide Blank, RunOn;
    forall k | 0 < k < |ts[1..]| && RunOn(ts[1..][k - 1], ts[1..][k]) ensures gaps[1..][k] != "" {
      assert ts[1..][k - 1] == ts[k + 1 - 1] && ts[1..][k] == ts[k + 1] && gaps[1..][k] == gaps[k + 1];
    }
  }

  /** No character of what follows a token can join it. */
  predicate Parted(t: Tok, tail: string)
  {
    tail != "" ==> (t.Word? ==> !Wordy(tail[0])) && (t == Sym('>') ==> tail[0] != '>')
  }

  lemma TailParted(ts: seq<Tok>, gaps: seq<string>)
    requires ts != [] && Layout(ts, gaps) && GoodToks(ts)
    ensures Parted(ts[0], Spell(ts[1..], gaps[1..]))
  {
    hide Blank, IsWord;
    var tail := Spell(ts[1..], gaps[1..]);
    assert Blank(gaps[1]);
    if gaps[1] != "" {
      assert tail[0] == gaps[1][0];
      BlankFirst(gaps[1]);
    } else if |ts| > 1 {
      assert !RunOn(ts[1 - 1], ts[1]) && GoodTok(ts[1]);
      TextFirst(ts[1]);
      assert tail[0] == TokText(ts[1])[0];
    }
  }

  lemma BlankFirst(g: string)
    requires Blank(g) && g != ""
    ensures White(g[0])
  {
  }

  lemma TextFirst(t: Tok)
    requires GoodTok(t)
    ensures TokText(t) != "" && !White(TokText(t)[0]) && (t.Word? <==> Wordy(TokText(t)[0]))
    ensures TokText(t)[0] == '>' <==> t == Sym('>') || t == Sym('+')
  {
  }

  // ---------- reading it ----------

  lemma {:induction false} SkipBlank(b: string, i: nat, g: string)
    requires i + |g| <= |b| && b[i..i + |g|] == g && Blank(g) && (i + |g| < |b| ==> !White(b[i + |g|]))
    ensures SkipWhite(b, i) == i + |g|
    decreases |g|
  {
    if g != "" {
      assert b[i] == b[i..i + |g|][0] == g[0];
      assert b[i + 1..i + 1 + |g[1..]|] == b[i..i + |g|][1..];
      SkipBlank(b, i + 1, g[1..]);
    }
  }

  lemma {:induction false} WordEndIs(b: string, i: nat, e: nat)
    requires i <= e <= |b| && (forall k :: i <= k < e ==> Wordy(b[k])) && (e < |b| ==> White(b[e]) || Symbol(b[e]))
    ensures WordEnd(b, i) == e
    decreases e - i
  {
    if i < e {
      WordEndIs(b, i + 1, e);
    }
  }

  /** The token at q, where one is spelled. */
  lemma TokenIs(b: string, q: nat, t: Tok, tail: string)
    requires Line(b) && q <= |b| && b[q..] == TokText(t) + tail && GoodTok(t) && Parted(t, tail)
    ensures q + |TokText(t)| <= |b| && b[q + |TokText(t)|..] == tail
    ensures var k := TokenAt(b, q);
      k.kind != NUL && k.eq == q + |TokText(t)| && k.next == SkipWhite(b, k.eq) && TokOf(b, k) == t
  {
    hide TokenAt, Wordy, Symbol, White, SkipWhite, Line;
    var e := q + |TokText(t)|;
    TextFirst(t);
    assert |b[q..]| == |TokText(t)| + |tail|;
    assert b[e..] == b[q..][|TokText(t)|..] == tail;
    assert b[q..e] == b[q..][..|TokText(t)|] == TokText(t);
    assert e < |b| ==> b[e] == tail[0];
    if t.Word? { WordIs(b, q, e, t.w); } else { SymbolIs(b, q, e, t.c); }
  }

  lemma WordIs(b: string, q: nat, e: nat, w: string)
    requires Line(b) && q <= e <= |b| && b[q..e] == w && IsWord(w) && (e < |b| ==> !Wordy(b[e]))
    ensures var k := TokenAt(b, q); k == Token('a', q, e, SkipWhite(b, e)) && TokOf(b, k) == Word(w)
  {
    forall k | q <= k < e ensures Wordy(b[k]) { assert b[k] == b[q..e][k - q]; }
    assert SkipWhite(b, q) == q;
    WordEndIs(b, q, e);
  }

  lemma SymbolAt(b: string, q: nat)
    requires Line(b) && q < |b| && Symbol(b[q])
    ensures b[q] != '>' ==> TokenAt(b, q) == Token(b[q], q, q + 1, SkipWhite(b, q + 1))
    ensures b[q] == '>' && At(b, q + 1) != '>' ==> TokenAt(b, q) == Token('>', q, q + 1, SkipWhite(b, q + 1))
    ensures b[q] == '>' && q + 1 < |b| && b[q + 1] == '>' ==> TokenAt(b, q) == Token('+', q, q + 2, SkipWhite(b, q + 2))
  {
    hide WordEnd, Line;
    assert SkipWhite(b, q) == q;
  }

  lemma SymbolIs(b: string, q: nat, e: nat, c: char)
    requires Line(b) && q <= e <= |b| && b[q..e] == TokText(Sym(c)) && GoodTok(Sym(c))
    requires c == '>' && e < |b| ==> b[e] != '>'
    ensures var k := TokenAt(b, q); k == Token(c, q, e, SkipWhite(b, e)) && TokOf(b, k) == Sym(c)
  {
    hide TokenAt, SkipWhite, Line, IsWord;
    assert b[q] == b[q..e][0];
    assert c == '+' ==> b[q + 1] == b[q..e][1];
    SymbolAt(b, q);
  }

  /** The tokens of a spelling are the tokens spelled. */
  lemma {:induction false} SpelledToks(b: string, i: nat, ts: seq<Tok>, gaps: seq<string>)
    requires Line(b) && i <= |b| && GoodToks(ts) && Layout(ts, gaps) && b[i..] == Spell(ts, gaps)
    ensures Toks(b, i) == ts
    decreases |ts|
  {
    hide TokenAt, SkipWhite, Blank, GoodTok, RunOn, TokText, Parted, Line, Toks, TokOf;
    var q := i + |gaps[0]|;
    AfterGap(b, i, ts, gaps);
    SkipToks(b, i);
    FirstTok(b, q);
    if ts == [] {
      AtEnd(b, q);
    } else {
      var tail := Spell(ts[1..], gaps[1..]);
      TailParted(ts, gaps);
      TokenIs(b, q, ts[0], tail);
      var e := q + |TokText(ts[0])|;
      LayoutTail(ts, gaps);
      SpelledToks(b, e, ts[1..], gaps[1..]);
      SkipToks(b, e);
      assert ts == [ts[0]] + ts[1..];
    }
  }

  lemma AtEnd(b: string, q: nat)
    requires Line(b) && q == |b|
    ensures TokenAt(b, q).kind == NUL
  {
  }

  lemma AfterGap(b: string, i: nat, ts: seq<Tok>, gaps: seq<string>)
    requires i <= |b| && GoodToks(ts) && Layout(ts, gaps) && b[i..] == Spell(ts, gaps)
    ensures i + |gaps[0]| <= |b| && SkipWhite(b, i) == i + |gaps[0]|
    ensures b[i + |gaps[0]|..] == if ts == [] then "" else TokText(ts[0]) + Spell(ts[1..], gaps[1..])
  {
    hide Blank, GoodTok, TokText, SkipWhite, White;
    var g := gaps[0];
    var after := if ts == [] then "" else TokText(ts[0]) + Spell(ts[1..], gaps[1..]);
    assert b[i..] == g + after;
    assert |b[i..]| == |g| + |after|;
    assert b[i + |g|..] == b[i..][|g|..] == after;
    assert b[i..i + |g|] == b[i..][..|g|] == g;
    if ts != [] {
      assert GoodTok(ts[0]);
      TextFirst(ts[0]);
      assert b[i + |g|] == b[i + |g|..][0] == TokText(ts[0])[0];
    }
    SkipBlank(b, i, g);
  }

  lemma {:induction false} SpellIsLine(ts: seq<Tok>, gaps: seq<string>)
    requires GoodToks(ts) && Layout(ts, gaps)
    ensures Line(Spell(ts, gaps))
    decreases |ts|
  {
    hide Line, GoodTok, Blank, TokText;
    assert Blank(gaps[0]);
    BlankIsLine(gaps[0]);
    if ts != [] {
      assert GoodTok(ts[0]);
      TextIsLine(ts[0]);
      LayoutTail(ts, gaps);
      SpellIsLine(ts[1..], gaps[1..]);
      LinesJoin(TokText(ts[0]), Spell(ts[1..], gaps[1..]));
      LinesJoin(gaps[0], TokText(ts[0]) + Spell(ts[1..], gaps[1..]));
    }
  }

  lemma BlankIsLine(g: string)
    requires Blank(g)
    ensures Line(g)
  {
    forall k | 0 <= k < |g| ensures g[k] != NUL { assert White(g[k]); }
  }

  lemma TextIsLine(t: Tok)
    requires GoodTok(t)
    ensures Line(TokText(t))
  {
    if t.Word? {
      forall k | 0 <= k < |t.w| ensures t.w[k] != NUL { assert Wordy(t.w[k]); }
    }
  }

  lemma LinesJoin(a: string, b: string)
    requires Line(a) && Line(b)
    ensures Line(a + b)
  {
  }

  /** A sentence of the grammar, in any layout, parses as what it means. */
  lemma SentenceParses(l: LineS, gaps: seq<string>)
    requires GoodLine(l) && GoodToks(LineToks(l)) && Layout(LineToks(l), gaps)
    ensures var b := Spell(LineToks(l), gaps);
      Line(b) && Derives(b, l) && CmdOf(b).Ok? && TreeOf(b, CmdOf(b).cmd) == LineTree(l)
  {
    hide LineToks, LineTree, GoodLine, GoodToks, Blank, RunOn, Spell, CmdOf, TreeOf;
    var ts := LineToks(l);
    SpellIsLine(ts, gaps);
    var b := Spell(ts, gaps);
    assert b[0..] == b;
    SpelledToks(b, 0, ts, gaps);
    DerivedParses(b, l);
  }

  // ---------- as few parentheses as possible ----------

  /** Words are nonempty and free of white space and symbols; a command has at most nine. */
  predicate Printable(t: Tree)
  {
    match t
    case Run(args) => |args| < MAXARGS && forall k :: 0 <= k < |args| ==> IsWord(args[k])
    case Into(t1, red) => Printable(t1) && PrintableRed(red)
    case Piped(l, r) => Printable(l) && Printable(r)
    case Listed(l, r) => Printable(l) && Printable(r)
    case InBack(t1) => Printable(t1)
  }

  /** Input is read by descriptor 0, output created and written by descriptor 1. */
  predicate PrintableRed(red: Red)
  {
    IsWord(red.file) && red.fd == if red.mode == RDONLY then 0 else 1
  }

  function Size(t: Tree): nat
  {
    match t
    case Run(_) => 0
    case Into(t1, _) => Size(t1) + 1
    case Piped(l, r) => Size(l) + Size(r) + 1
    case Listed(l, r) => Size(l) + Size(r) + 1
    case InBack(t1) => Size(t1) + 1
  }

  /** The command under the "&" marks, and their number. */
  function Unmarked(t: Tree): (r: Tree)
    ensures Size(r) <= Size(t) && !r.InBack? && (t.InBack? ==> Size(r) < Size(t))
    ensures BackN(r, Marks(t)) == t
    ensures Printable(t) ==> Printable(r)
  {
    if t.InBack? then Unmarked(t.cmd) else t
  }

  function Marks(t: Tree): nat
  {
    if t.InBack? then Marks(t.cmd) + 1 else 0
  }

  /** The command under the redirections. */
  function Inner(t: Tree): (r: Tree)
    ensures Size(r) <= Size(t) && !r.Into? && (t.Into? ==> Size(r) < Size(t))
    ensures Printable(t) ==> Printable(r)
  {
    if t.Into? then Inner(t.cmd) else t
  }

  function Rds(t: Tree): seq<Rd>
  {
    if t.Into? then Rds(t.cmd) + [Rd(if t.red.mode == RDONLY then '<' else '>', t.red.file)] else []
  }

  /** A simple command with its redirections after its words. */
  function Plain(words: seq<string>, rds: seq<Rd>): ExecS
  {
    if words == [] then Simple(rds, [])
    else Simple([], seq(|words|, k requires 0 <= k < |words| => Item(words[k], if k == |words| - 1 then rds else [])))
  }

  function MinLine(t: Tree): LineS
    decreases Size(t), 2
  {
    if t.Listed? then LineS(MinPipe(Unmarked(t.left)), Marks(t.left), Then(MinLine(t.right)))
    else LineS(MinPipe(Unmarked(t)), Marks(t), End)
  }

  function MinPipe(t: Tree): PipeS
    decreases Size(t), if t.Listed? || t.InBack? then 4 else 1
  {
    if t.Piped? then Bar(MinExec(t.left), MinPipe(t.right)) else One(MinExec(t))
  }

  /** A block only around what is neither a simple command nor a redirected one. */
  function MinExec(t: Tree): ExecS
    decreases Size(t), if t.Run? || t.Into? then 0 else 3
  {
    var t1 := Inner(t);
    if t1.Run? then Plain(t1.args, Rds(t)) else Block(MinLine(t1), Rds(t))
  }

  lemma {:induction false} RedsJoin(rs: seq<Rd>, r: Rd)
    ensures Reds(rs + [r]) == Reds(rs) + [RedOf(r)]
  {
    if rs != [] {
      assert (rs + [r])[1..] == rs[1..] + [r];
      RedsJoin(rs[1..], r);
    }
  }

  lemma {:induction false} InnerIs(t: Tree)
    requires Printable(t)
    ensures Around(Inner(t), Reds(Rds(t))) == t && GoodRds(Rds(t))
  {
    if t.Into? {
      InnerIs(t.cmd);
      var r := Rd(if t.red.mode == RDONLY then '<' else '>', t.red.file);
      RedsJoin(Rds(t.cmd), r);
      assert RedOf(r) == t.red;
      assert Reds(Rds(t))[..|Reds(Rds(t))| - 1] == Reds(Rds(t.cmd));
    }
  }

  lemma {:induction false} PlainItems(words: seq<string>, rds: seq<Rd>, items: seq<Item>)
    requires |items| == |words| > 0
    requires forall k :: 0 <= k < |words| ==> items[k] == Item(words[k], if k == |words| - 1 then rds else [])
    ensures ItemWords(items) == words && ItemReds(items) == Reds(rds)
    decreases |words|
  {
    assert words == [words[0]] + words[1..];
    if |words| == 1 {
      assert items[1..] == [];
      assert Reds(rds) + [] == Reds(rds);
    } else {
      PlainItems(words[1..], rds, items[1..]);
      assert [] + Reds(rds) == Reds(rds);
    }
  }

  lemma PlainIs(words: seq<string>, rds: seq<Rd>)
    requires |words| < MAXARGS && GoodRds(rds)
    ensures GoodExec(Plain(words, rds)) && ExecTree(Plain(words, rds)) == Around(Run(words), Reds(rds))
  {
    if words == [] {
      assert Reds(rds) + [] == Reds(rds);
    } else {
      PlainItems(words, rds, Plain(words, rds).items);
      assert [] + Reds(rds) == Reds(rds);
    }
  }

  lemma {:induction false} MinLineIs(t: Tree)
    requires Printable(t)
    ensures GoodLine(MinLine(t)) && LineTree(MinLine(t)) == t
    decreases Size(t), 2
  {
    hide Around, Inner, Rds, BackN;
    if t.Listed? {
      MinPipeIs(Unmarked(t.left));
      MinLineIs(t.right);
    } else {
      MinPipeIs(Unmarked(t));
    }
  }

  lemma {:induction false} MinPipeIs(t: Tree)
    requires Printable(t)
    ensures GoodPipe(MinPipe(t)) && PipeTree(MinPipe(t)) == t
    decreases Size(t), if t.Listed? || t.InBack? then 4 else 1
  {
    if t.Piped? {
      MinExecIs(t.left);
      MinPipeIs(t.right);
    } else {
      MinExecIs(t);
    }
  }

  lemma {:induction false} MinExecIs(t: Tree)
    requires Printable(t)
    ensures GoodExec(MinExec(t)) && ExecTree(MinExec(t)) == t
    decreases Size(t), if t.Run? || t.Into? then 0 else 3
  {
    var t1 := Inner(t);
    InnerIs(t);
    if t1.Run? {
      PlainIs(t1.args, Rds(t));
    } else {
      MinLineIs(t1);
    }
  }

  lemma GoodJoin(ts: seq<Tok>, us: seq<Tok>)
    requires GoodToks(ts) && GoodToks(us)
    ensures GoodToks(ts + us)
  {
  }

  lemma {:induction false} RdsGood(t: Tree)
    requires Printable(t)
    ensures GoodToks(RdToks(Rds(t)))
  {
    if t.Into? {
      RdsGood(t.cmd);
      var r := Rd(if t.red.mode == RDONLY then '<' else '>', t.red.file);
      RdToksJoin(Rds(t.cmd), r);
      assert GoodToks([Sym(r.op), Word(r.file)]);
      GoodJoin(RdToks(Rds(t.cmd)), [Sym(r.op), Word(r.file)]);
    }
  }

  lemma {:induction false} RdToksJoin(rs: seq<Rd>, r: Rd)
    ensures RdToks(rs + [r]) == RdToks(rs) + [Sym(r.op), Word(r.file)]
  {
    if rs != [] {
      assert (rs + [r])[1..] == rs[1..] + [r];
      RdToksJoin(rs[1..], r);
    }
  }

  lemma {:induction false} ItemsGood(items: seq<Item>)
    requires forall k :: 0 <= k < |items| ==> IsWord(items[k].word) && GoodToks(RdToks(items[k].rds))
    ensures GoodToks(ItemToks(items))
    decreases |items|
  {
    hide IsWord, RdToks;
    if items != [] {
      var more := items[1..];
      ItemsGood(more);
      assert GoodToks([Word(items[0].word)]);
      GoodJoin(RdToks(items[0].rds), ItemToks(more));
      GoodJoin([Word(items[0].word)], RdToks(items[0].rds) + ItemToks(more));
    }
  }

  lemma {:induction false} MinLineGood(t: Tree)
    requires Printable(t)
    ensures GoodToks(LineToks(MinLine(t)))
    decreases Size(t), 2
  {
    hide GoodToks, Printable, BackN;
    PartsPrintable(t);
    var l := MinLine(t);
    if t.Listed? {
      MinPipeGood(Unmarked(t.left));
      MinLineGood(t.right);
      SymGood(';');
      GoodJoin([Sym(';')], LineToks(l.rest.line));
    } else {
      MinPipeGood(Unmarked(t));
    }
    var tail := match l.rest case End => [] case Then(l1) => [Sym(';')] + LineToks(l1);
    AmpsGood(l.backs);
    NoToksGood();
    GoodJoin(Amps(l.backs), tail);
    GoodJoin(PipeToks(l.pipe), Amps(l.backs) + tail);
  }

  lemma PartsPrintable(t: Tree)
    requires Printable(t)
    ensures (t.Piped? || t.Listed? ==> Printable(t.left) && Printable(t.right))
  {
  }

  lemma SymGood(c: char)
    requires GoodTok(Sym(c))
    ensures GoodToks([Sym(c)])
  {
  }

  lemma NoToksGood()
    ensures GoodToks([])
  {
  }

  lemma {:induction false} AmpsGood(n: nat)
    ensures GoodToks(Amps(n))
  {
    if n > 0 {
      AmpsGood(n - 1);
      GoodJoin([Sym('&')], Amps(n - 1));
    }
  }

  lemma {:induction false} MinPipeGood(t: Tree)
    requires Printable(t)
    ensures GoodToks(PipeToks(MinPipe(t)))
    decreases Size(t), if t.Listed? || t.InBack? then 4 else 1
  {
    hide GoodToks, Printable;
    PartsPrintable(t);
    if t.Piped? {
      MinExecGood(t.left);
      MinPipeGood(t.right);
      SymGood('|');
      GoodJoin([Sym('|')], PipeToks(MinPipe(t.right)));
      GoodJoin(ExecToks(MinExec(t.left)), [Sym('|')] + PipeToks(MinPipe(t.right)));
    } else {
      MinExecGood(t);
    }
  }

  lemma {:induction false} MinExecGood(t: Tree)
    requires Printable(t)
    ensures GoodToks(ExecToks(MinExec(t)))
    decreases Size(t), if t.Run? || t.Into? then 0 else 3
  {
    hide GoodToks, RdToks, ItemToks;
    var t1, rds := Inner(t), Rds(t);
    RdsGood(t);
    if t1.Run? {
      PlainGood(t1.args, rds);
    } else {
      MinLineGood(t1);
      SymGood('(');
      SymGood(')');
      GoodJoin([Sym(')')], RdToks(rds));
      GoodJoin(LineToks(MinLine(t1)), [Sym(')')] + RdToks(rds));
      GoodJoin([Sym('(')], LineToks(MinLine(t1)) + ([Sym(')')] + RdToks(rds)));
    }
  }

  lemma PlainGood(words: seq<string>, rds: seq<Rd>)
    requires (forall k :: 0 <= k < |words| ==> IsWord(words[k])) && GoodToks(RdToks(rds))
    ensures GoodToks(ExecToks(Plain(words, rds)))
  {
    var e := Plain(words, rds);
    assert RdToks([]) == [];
    ItemsGood(e.items);
    GoodJoin(RdToks(e.pre), ItemToks(e.items));
  }

  // ---------- the round trip ----------

  /** A space only where two words would run together. */
  function Gaps(ts: seq<Tok>): (gaps: seq<string>)
  {
    seq(|ts| + 1, k requires 0 <= k <= |ts| => if 0 < k < |ts| && RunOn(ts[k - 1], ts[k]) then " " else "")
  }

  function Print(t: Tree): string
  {
    var ts := LineToks(MinLine(t));
    Spell(ts, Gaps(ts))
  }

  /** For every printable tree: parsing its printing consumes it all and gives the tree back. */
  lemma RoundTrip(t: Tree)
    requires Printable(t)
    ensures Line(Print(t)) && CmdOf(Print(t)).Ok? && TreeOf(Print(t), CmdOf(Print(t)).cmd) == t
  {
    hide MinLine, Printable, TreeOf, CmdOf, LineToks, LineTree, Spell, GoodToks;
    MinLineIs(t);
    MinLineGood(t);
    var ts := LineToks(MinLine(t));
    SentenceParses(MinLine(t), Gaps(ts));
  }

  /** The number of parenthesised blocks. */
  function Blocks(l: LineS): nat
  {
    PipeBlocks(l.pipe) + match l.rest case End => 0 case Then(l1) => Blocks(l1)
  }

  function PipeBlocks(p: PipeS): nat
  {
    match p
    case One(e) => ExecBlocks(e)
    case Bar(e, p1) => ExecBlocks(e) + PipeBlocks(p1)
  }

  function ExecBlocks(e: ExecS): nat
  {
    match e
    case Simple(_, _) => 0
    case Block(l, _) => Blocks(l) + 1
  }

  /** A tree needs no more blocks as a line than as a pipeline, and no more as that than as a command. */
  lemma {:induction false} BlocksGrow(t: Tree)
    ensures Blocks(MinLine(t)) <= PipeBlocks(MinPipe(t)) <= ExecBlocks(MinExec(t))
    ensures PipeBlocks(MinPipe(Unmarked(t))) <= PipeBlocks(MinPipe(t))
  {
    if t.InBack? {
      assert Inner(t) == t;
      assert MinPipe(t) == One(MinExec(t)) && MinExec(t) == Block(MinLine(t), Rds(t));
    } else {
      assert Unmarked(t) == t && Marks(t) == 0;
    }
  }

  lemma {:induction false} InnerAround(t: Tree, reds: seq<Red>)
    ensures Inner(Around(t, reds)) == Inner(t)
    decreases |reds|
  {
    if reds != [] {
      InnerAround(t, reds[..|reds| - 1]);
    }
  }

  lemma {:induction false} UnmarkedBack(t: Tree, n: nat)
    ensures Unmarked(BackN(t, n)) == Unmarked(t)
  {
    if n > 0 {
      UnmarkedBack(t, n - 1);
    }
  }

  lemma {:induction false} FewestInExec(e: ExecS)
    ensures ExecBlocks(MinExec(ExecTree(e))) <= ExecBlocks(e)
    decreases e
  {
    hide Unmarked, Marks, MinLine, MinPipe, Around;
    match e
    case Simple(pre, items) => InnerAround(Run(ItemWords(items)), Reds(pre) + ItemReds(items));
    case Block(l, rds) =>
      FewestBlocks(l);
      InnerAround(LineTree(l), Reds(rds));
      InnerFewer(LineTree(l));
  }

  /** The block around a redirected command can take its redirections too. */
  lemma InnerFewer(t: Tree)
    ensures !Inner(t).Run? ==> Blocks(MinLine(Inner(t))) <= Blocks(MinLine(t))
  {
    if t.Into? && !Inner(t).Run? {
      var e := MinExec(t);
      assert e == Block(MinLine(Inner(t)), Rds(t));
      assert MinLine(t) == LineS(One(e), 0, End);
      assert PipeBlocks(One(e)) == Blocks(MinLine(Inner(t))) + 1;
    }
  }

  lemma {:induction false} FewestInPipe(p: PipeS)
    ensures PipeBlocks(MinPipe(PipeTree(p))) <= PipeBlocks(p)
    decreases p
  {
    FewestInExec(p.e);
    match p
    case One(e) => BlocksGrow(ExecTree(e));
    case Bar(_, p1) => FewestInPipe(p1);
  }

  /** No sentence with the same meaning has fewer blocks. */
  lemma {:induction false} FewestBlocks(l: LineS)
    ensures Blocks(MinLine(LineTree(l))) <= Blocks(l)
    decreases l
  {
    hide MinPipe, MinExec, Inner;
    var t := PipeTree(l.pipe);
    FewestInPipe(l.pipe);
    BlocksGrow(t);
    UnmarkedBack(t, l.backs);
    match l.rest
    case End => BlocksGrow(BackN(t, l.backs));
    case Then(l1) => FewestBlocks(l1);
  }

  /** The same tree, its words read through pointers from the buffer that nulterminate leaves. */
  function PointerTree(buf: string, c: Cmd): Tree
  {
    match c
    case Exec(args) => Run(seq(|args|, i requires 0 <= i < |args| => CString(buf, args[i].q)))
    case Redir(c1, file, mode, fd) => Into(PointerTree(buf, c1), Red(CString(buf, file.q), mode, fd))
    case Pipe(l, r) => Piped(PointerTree(buf, l), PointerTree(buf, r))
    case List(l, r) => Listed(PointerTree(buf, l), PointerTree(buf, r))
    case Back(c1) => InBack(PointerTree(buf, c1))
  }

  lemma {:induction false} PointersRead(b: string, whole: Cmd, c: Cmd, buf: string)
    requires Line(b) && GoodCmd(b, whole) && GoodCmd(b, c) && Ends(c) <= Ends(whole) && Terminated(b, buf, Ends(whole))
    ensures PointerTree(buf, c) == TreeOf(b, c)
    decreases c
  {
    hide GoodSpan, Terminated, CString;
    match c
    case Exec(args) =>
      forall i | 0 <= i < |args| ensures GoodSpan(b, args[i]) && CString(buf, args[i].q) == Words(b, args)[i] {
        assert args[i].eq in Ends(c);
        WordReadsBack(b, whole, buf, args[i]);
      }
    case Redir(c1, file, _, _) =>
      PointersRead(b, whole, c1, buf);
      assert file.eq in Ends(c);
      WordReadsBack(b, whole, buf, file);
    case Pipe(l, r) => PointersRead(b, whole, l, buf); PointersRead(b, whole, r, buf);
    case List(l, r) => PointersRead(b, whole, l, buf); PointersRead(b, whole, r, buf);
    case Back(c1) => PointersRead(b, whole, c1, buf);
  }

  /** Applied to the printing of a tree, parsecmd succeeds and its pointers read the tree. */
  method ParsePrinted(t: Tree) returns (c: Cmd, buf: string)
    requires Printable(t)
    ensures PointerTree(buf, c) == t
  {
    RoundTrip(t);
    var p := new Parser(Print(t));
    var r := p.ParseCmd();
    c, buf := r.cmd, p.buf[..];
    PointersRead(Print(t), c, c, buf);
  }
}
