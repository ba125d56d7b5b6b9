/** The shell's grammar (sh.c) as functions of a line and a position in it. */
module Grammar {

  const MAXARGS := 10
  const NUL := '\0'

  predicate White(c: char) { c in [' ', '\t', '\r', '\n', '\U{0B}'] }

  predicate Symbol(c: char) { c in ['<', '|', '>', '&', ';', '(', ')'] }

  /** A character of a word. */
  predicate Wordy(c: char) { !White(c) && !Symbol(c) && c != NUL }

  /** A word of the line, from q up to eq. */
  datatype Span = Span(q: nat, eq: nat)

  datatype Mode = RDONLY | WRONLY_CREATE

  datatype Cmd =
    | Exec(args: seq<Span>)
    | Redir(cmd: Cmd, file: Span, mode: Mode, fd: int)
    | Pipe(left: Cmd, right: Cmd)
    | List(left: Cmd, right: Cmd)
    | Back(cmd: Cmd)

  datatype Error = MissingFile | NoBlock | MissingParen | Syntax | TooManyArgs | Leftovers

  /** A parser's outcome: a command and the cursor after it, or the panic it ends in. */
  datatype Parse = Ok(cmd: Cmd, pos: nat) | Panic(error: Error)

  // ---------- tokens ----------

  /** A line holds no NUL: its end is the first one. */
  predicate Line(b: string)
  {
    forall k :: 0 <= k < |b| ==> b[k] != NUL
  }

  /** The character at i; the line is followed by a NUL. */
  function At(b: string, i: nat): char
  {
    if i < |b| then b[i] else NUL
  }

  function SkipWhite(b: string, i: nat): (r: nat)
    requires i <= |b|
    ensures i <= r <= |b|
    ensures r < |b| ==> !White(b[r])
    decreases |b| - i
  {
    if i < |b| && White(b[i]) then SkipWhite(b, i + 1) else i
  }

  function WordEnd(b: string, i: nat): (r: nat)
    requires i <= |b|
    ensures i <= r <= |b|
    ensures r < |b| ==> White(b[r]) || Symbol(b[r])
    ensures forall k :: i <= k < r ==> !White(b[k]) && !Symbol(b[k])
    decreases |b| - i
  {
    if i < |b| && !White(b[i]) && !Symbol(b[i]) then WordEnd(b, i + 1) else i
  }

  /** kind is 'a' for a word, '+' for ">>", NUL at the end, and the symbol itself otherwise. */
  datatype Token = Token(kind: char, q: nat, eq: nat, next: nat)

  function TokenAt(b: string, i: nat): (t: Token)
    requires Line(b) && i <= |b|
    ensures i <= t.q <= t.eq <= t.next <= |b|
    ensures t.kind == NUL <==> t.q == |b|
    ensures t.kind != NUL ==> t.eq > t.q
    ensures t.kind == 'a' ==> GoodSpan(b, Span(t.q, t.eq))
  {
    var q := SkipWhite(b, i);
    var c := At(b, q);
    if c == NUL then Token(NUL, q, q, SkipWhite(b, q))
    else if c in ['|', '(', ')', ';', '&', '<'] then Token(c, q, q + 1, SkipWhite(b, q + 1))
    else if c == '>' then
      if At(b, q + 1) == '>' then Token('+', q, q + 2, SkipWhite(b, q + 2))
      else Token('>', q, q + 1, SkipWhite(b, q + 1))
    else
      var e := WordEnd(b, q);
      Token('a', q, e, SkipWhite(b, e))
  }

  predicate PeekAt(b: string, i: nat, toks: seq<char>)
    requires i <= |b|
  {
    var s := SkipWhite(b, i);
    s < |b| && b[s] in toks
  }

  // ---------- spans ----------

  /** A nonempty run of word characters that ends where the word ends. */
  predicate GoodSpan(b: string, s: Span)
  {
    && s.q < s.eq <= |b|
    && (forall k :: s.q <= k < s.eq ==> Wordy(b[k]))
    && (s.eq < |b| ==> !Wordy(b[s.eq]))
  }

  predicate GoodSpans(b: string, ss: seq<Span>)
  {
    forall i :: 0 <= i < |ss| ==> GoodSpan(b, ss[i])
  }

  predicate GoodCmd(b: string, c: Cmd)
  {
    match c
    case Exec(args) => |args| < MAXARGS && GoodSpans(b, args)
    case Redir(c1, file, _, _) => GoodCmd(b, c1) && GoodSpan(b, file)
    case Pipe(l, r) => GoodCmd(b, l) && GoodCmd(b, r)
    case List(l, r) => GoodCmd(b, l) && GoodCmd(b, r)
    case Back(c1) => GoodCmd(b, c1)
  }

  // ---------- the grammar ----------

  datatype Redirection = Redirection(file: Span, mode: Mode, fd: int)

  datatype Redirs = Redirs(rs: seq<Redirection>, pos: nat) | Bad(error: Error)

  predicate GoodFiles(b: string, rs: seq<Redirection>)
  {
    forall k :: 0 <= k < |rs| ==> GoodSpan(b, rs[k].file)
  }

  /** ">" and ">>" both create and write from the start. */
  function RedirOf(tok: char, file: Span): Redirection
  {
    if tok == '<' then Redirection(file, RDONLY, 0) else Redirection(file, WRONLY_CREATE, 1)
  }

  /** `parseredirs`, after the redirections rs. */
  function RedirsAt(b: string, i: nat, rs: seq<Redirection>): (r: Redirs)
    requires Line(b) && i <= |b| && GoodFiles(b, rs)
    ensures r.Redirs? ==> i <= r.pos <= |b| && GoodFiles(b, r.rs)
    decreases |b| - i
  {
    if PeekAt(b, i, ['<', '>']) then
      var t := TokenAt(b, i);
      var f := TokenAt(b, t.next);
      if f.kind != 'a' then Bad(MissingFile) else RedirsAt(b, f.next, rs + [RedirOf(t.kind, Span(f.q, f.eq))])
    else Redirs(rs, SkipWhite(b, i))
  }

  /** The redirections wrapped around a command, the last outermost. */
  function Wrap(c: Cmd, rs: seq<Redirection>): Cmd
  {
    if rs == [] then c
    else
      var m := rs[|rs| - 1];
      Redir(Wrap(c, rs[..|rs| - 1]), m.file, m.mode, m.fd)
  }

  /** The loop of `parseexec`: arguments, each followed by redirections. */
  function ArgsAt(b: string, i: nat, args: seq<Span>, rs: seq<Redirection>): (r: Parse)
    requires Line(b) && i <= |b| && |args| < MAXARGS && GoodSpans(b, args)
    requires GoodFiles(b, rs)
    ensures r.Ok? ==> i <= r.pos <= |b| && GoodCmd(b, r.cmd)
    decreases |b| - i
  {
    if PeekAt(b, i, ['|', ')', '&', ';']) then WrapGood(b, Exec(args), rs); Ok(Wrap(Exec(args), rs), SkipWhite(b, i))
    else
      var t := TokenAt(b, i);
      if t.kind == NUL then WrapGood(b, Exec(args), rs); Ok(Wrap(Exec(args), rs), t.next)
      else if t.kind != 'a' then Panic(Syntax)
      else if |args| + 1 >= MAXARGS then Panic(TooManyArgs)
      else
        match RedirsAt(b, t.next, rs)
        case Bad(e) => Panic(e)
        case Redirs(rs', j) => ArgsAt(b, j, args + [Span(t.q, t.eq)], rs')
  }

  lemma {:induction false} WrapGood(b: string, c: Cmd, rs: seq<Redirection>)
    requires GoodCmd(b, c) && GoodFiles(b, rs)
    ensures GoodCmd(b, Wrap(c, rs))
  {
    if rs != [] {
      WrapGood(b, c, rs[..|rs| - 1]);
    }
  }

  function ExecAt(b: string, i: nat): (r: Parse)
    requires Line(b) && i <= |b|
    ensures r.Ok? ==> i <= r.pos <= |b| && GoodCmd(b, r.cmd)
    decreases |b| - i, 1
  {
    if PeekAt(b, i, ['(']) then BlockAt(b, i)
    else
      match RedirsAt(b, i, [])
      case Bad(e) => Panic(e)
      case Redirs(rs, j) => ArgsAt(b, j, [], rs)
  }

  function BlockAt(b: string, i: nat): (r: Parse)
    requires Line(b) && i <= |b|
    ensures r.Ok? ==> i <= r.pos <= |b| && GoodCmd(b, r.cmd)
    decreases |b| - i, 0
  {
    if !PeekAt(b, i, ['(']) then Panic(NoBlock)
    else
      match LineAt(b, TokenAt(b, i).next)
      case Panic(e) => Panic(e)
      case Ok(c, j) =>
        if !PeekAt(b, j, [')']) then Panic(MissingParen)
        else
          match RedirsAt(b, TokenAt(b, j).next, [])
          case Bad(e) => Panic(e)
          case Redirs(rs, k) => WrapGood(b, c, rs); Ok(Wrap(c, rs), k)
  }

  function PipeAt(b: string, i: nat): (r: Parse)
    requires Line(b) && i <= |b|
    ensures r.Ok? ==> i <= r.pos <= |b| && GoodCmd(b, r.cmd)
    decreases |b| - i, 2
  {
    match ExecAt(b, i)
    case Panic(e) => Panic(e)
    case Ok(l, j) =>
      if PeekAt(b, j, ['|']) then
        match PipeAt(b, TokenAt(b, j).next)
        case Panic(e) => Panic(e)
        case Ok(r, k) => Ok(Pipe(l, r), k)
      else Ok(l, SkipWhite(b, j))
  }

  /** The "&" loop of `parseline`. */
  function BacksAt(b: string, i: nat, c: Cmd): (r: Parse)
    requires Line(b) && i <= |b| && GoodCmd(b, c)
    ensures r.Ok? && i <= r.pos <= |b| && GoodCmd(b, r.cmd)
    decreases |b| - i
  {
    if PeekAt(b, i, ['&']) then BacksAt(b, TokenAt(b, i).next, Back(c)) else Ok(c, SkipWhite(b, i))
  }

  function LineAt(b: string, i: nat): (r: Parse)
    requires Line(b) && i <= |b|
    ensures r.Ok? ==> i <= r.pos <= |b| && GoodCmd(b, r.cmd)
    decreases |b| - i, 3
  {
    match PipeAt(b, i)
    case Panic(e) => Panic(e)
    case Ok(p, j) =>
      var backs := BacksAt(b, j, p);
      if PeekAt(b, backs.pos, [';']) then
        match LineAt(b, TokenAt(b, backs.pos).next)
        case Panic(e) => Panic(e)
        case Ok(r, k) => Ok(List(backs.cmd, r), k)
      else Ok(backs.cmd, SkipWhite(b, backs.pos))
  }

  /** `parsecmd`: the whole line must be consumed. */
  function CmdOf(b: string): (r: Parse)
    requires Line(b)
    ensures r.Ok? ==> r.pos == |b| && GoodCmd(b, r.cmd)
  {
    match LineAt(b, 0)
    case Panic(e) => Panic(e)
    case Ok(c, j) => if SkipWhite(b, j) != |b| then Panic(Leftovers) else Ok(c, |b|)
  }
}
