/** The shell's parser (sh.c): a cursor over a line of text, mutually recursive parsers, and the
    pass that NUL-terminates the words in place. */
module Shell {
  import opened Grammar

  /** The text at q up to the first NUL: what a char pointer to q reads. */
  function CString(b: string, q: nat): string
    decreases |b| - q
  {
    if q < |b| && b[q] != NUL then [b[q]] + CString(b, q + 1) else []
  }

  /** buf holds the line and its NUL; s is the cursor the parsers advance. */
  class Parser {
    const buf: array<char>
    var s: nat

    ghost function Text(): string
      reads buf
    {
      if buf.Length == 0 then [] else buf[..buf.Length - 1]
    }

    ghost predicate Valid()
      reads this, buf
    {
      buf.Length > 0 && buf[buf.Length - 1] == NUL && Line(Text()) && s <= |Text()|
    }

    constructor (line: string)
      requires Line(line)
      ensures Valid() && Text() == line && s == 0 && fresh(buf)
    {
      buf := new char[|line| + 1](i => if 0 <= i < |line| then line[i] else NUL);
      s := 0;
      new;
      assert Text() == line;
    }

    /** Moves the cursor over white space. */
    method Skip(from: nat) returns (r: nat)
      requires Valid() && from <= |Text()|
      ensures r == SkipWhite(Text(), from)
    {
      r := from;
      while r < buf.Length - 1 && White(buf[r])
        invariant from <= r <= |Text()|
        invariant SkipWhite(Text(), from) == SkipWhite(Text(), r)
      {
        r := r + 1;
      }
    }

    /** Moves the cursor over a word. */
    method Word(from: nat) returns (r: nat)
      requires Valid() && from <= |Text()|
      ensures r == WordEnd(Text(), from)
    {
      r := from;
      while r < buf.Length - 1 && !White(buf[r]) && !Symbol(buf[r])
        invariant from <= r <= |Text()|
        invariant WordEnd(Text(), from) == WordEnd(Text(), r)
      {
        r := r + 1;
      }
    }

    method GetToken() returns (kind: char, q: nat, eq: nat)
      requires Valid()
      modifies this`s
      ensures Valid()
      ensures Token(kind, q, eq, s) == TokenAt(Text(), old(s))
    {
      hide White, Symbol, SkipWhite, WordEnd, GoodSpan;
      q := Skip(s);
      eq := q;
      kind := buf[q];
      assert kind == At(Text(), q);
      if kind == NUL {
      } else if kind in ['|', '(', ')', ';', '&', '<'] {
        eq := q + 1;
      } else if kind == '>' {
        eq := q + 1;
        assert buf[eq] == At(Text(), eq);
        if buf[eq] == '>' {
          kind := '+';
          eq := eq + 1;
        }
      } else {
        kind := 'a';
        eq := Word(q);
      }
      s := Skip(eq);
    }

    method Peek(toks: seq<char>) returns (r: bool)
      requires Valid()
      modifies this`s
      ensures Valid() && s == SkipWhite(Text(), old(s))
      ensures r == PeekAt(Text(), old(s), toks) && (r ==> s < |Text()|)
    {
      s := Skip(s);
      r := buf[s] != NUL && buf[s] in toks;
    }
  
    /** `parseredirs`; the caller wraps its command in what is returned. */
    method ParseRedirs(before: seq<Redirection>) returns (r: Redirs)
      requires Valid() && GoodFiles(Text(), before)
      modifies this`s
      ensures Valid() && r == RedirsAt(Text(), old(s), before)
      ensures r.Redirs? ==> s == r.pos
    {
      hide TokenAt, SkipWhite, PeekAt, GoodSpan;
      var rs := before;
      ghost var b := Text();
      while true
        invariant Valid() && Text() == b && GoodFiles(b, rs)
        invariant RedirsAt(b, old(s), before) == RedirsAt(b, s, rs)
        decreases |b| - s
      {
        ghost var i := s;
        var more := Peek(['<', '>']);
        SkipTwice(b, i);
        if !more { return Redirs(rs, s); }
        var tok, _, _ := GetToken();
        var kind, q, eq := GetToken();
        if kind != 'a' { return Bad(MissingFile); }
        rs := rs + [RedirOf(tok, Span(q, eq))];
      }
    }

    /** `parseexec`. */
    method ParseExec() returns (r: Parse)
      requires Valid()
      modifies this`s
      ensures Valid() && r == ExecAt(Text(), old(s))
      ensures r.Ok? ==> s == r.pos
      decreases buf.Length - s, 1
    {
      hide TokenAt, SkipWhite, PeekAt, GoodSpan, RedirsAt, ArgsAt, BlockAt;
      ghost var b, i := Text(), s;
      var block := Peek(['(']);
      SkipTwice(b, i);
      BlockSkip(b, i);
      RedirsSkip(b, i, []);
      if block {
        r := ParseBlock();
        return;
      }
      var rs := ParseRedirs([]);
      if rs.Bad? { return Panic(rs.error); }
      r := ParseArgs(rs.rs);
    }

    /** The loop of `parseexec`. */
    method ParseArgs(before: seq<Redirection>) returns (r: Parse)
      requires Valid() && GoodFiles(Text(), before)
      modifies this`s
      ensures Valid() && r == ArgsAt(Text(), old(s), [], before)
      ensures r.Ok? ==> s == r.pos
    {
      hide TokenAt, SkipWhite, PeekAt, GoodSpan, RedirsAt, Wrap;
      var args: seq<Span>, rs := [], before;
      ghost var b := Text();
      while true
        invariant Valid() && Text() == b && GoodFiles(b, rs) && |args| < MAXARGS && GoodSpans(b, args)
        invariant ArgsAt(b, old(s), [], before) == ArgsAt(b, s, args, rs)
        decreases |b| - s
      {
        ghost var i := s;
        var stop := Peek(['|', ')', '&', ';']);
        SkipTwice(b, i);
        if stop { return Ok(Wrap(Exec(args), rs), s); }
        var kind, q, eq := GetToken();
        if kind == NUL { return Ok(Wrap(Exec(args), rs), s); }
        if kind != 'a' { return Panic(Syntax); }
        if |args| + 1 >= MAXARGS { return Panic(TooManyArgs); }
        var m := ParseRedirs(rs);
        if m.Bad? { return Panic(m.error); }
        args, rs := args + [Span(q, eq)], m.rs;
      }
    }

    /** `parseblock`. */
    method ParseBlock() returns (r: Parse)
      requires Valid()
      modifies this`s
      ensures Valid() && r == BlockAt(Text(), old(s))
      ensures r.Ok? ==> s == r.pos
      decreases buf.Length - s, 0
    {
      hide TokenAt, SkipWhite, PeekAt, GoodSpan, RedirsAt, LineAt, Wrap;
      ghost var b, i := Text(), s;
      var block := Peek(['(']);
      SkipTwice(b, i);
      if !block { return Panic(NoBlock); }
      var _, _, _ := GetToken();
      r := ParseLine();
      if r.Panic? { return; }
      i := s;
      var close := Peek([')']);
      SkipTwice(b, i);
      if !close { return Panic(MissingParen); }
      var _, _, _ := GetToken();
      var rs := ParseRedirs([]);
      if rs.Bad? { return Panic(rs.error); }
      r := Ok(Wrap(r.cmd, rs.rs), rs.pos);
    }

    /** `parsepipe`. */
    method ParsePipe() returns (r: Parse)
      requires Valid()
      modifies this`s
      ensures Valid() && r == PipeAt(Text(), old(s))
      ensures r.Ok? ==> s == r.pos
      decreases buf.Length - s, 2
    {
      hide TokenAt, SkipWhite, PeekAt, GoodSpan, ExecAt;
      ghost var b := Text();
      r := ParseExec();
      if r.Panic? { return; }
      var left, at := r.cmd, s;
      var pipe := Peek(['|']);
      SkipTwice(b, at);
      if !pipe { return Ok(left, s); }
      var _, _, _ := GetToken();
      r := ParsePipe();
      if r.Panic? { return; }
      r := Ok(Pipe(left, r.cmd), r.pos);
    }

    /** The "&" loop of `parseline`. */
    method ParseBacks(c: Cmd) returns (r: Parse)
      requires Valid() && GoodCmd(Text(), c)
      modifies this`s
      ensures Valid() && r == BacksAt(Text(), old(s), c)
      ensures s == r.pos
    {
      hide TokenAt, SkipWhite, PeekAt, GoodSpan, GoodSpans;
      var cmd := c;
      ghost var b := Text();
      while true
        invariant Valid() && Text() == b && GoodCmd(b, cmd)
        invariant BacksAt(b, old(s), c) == BacksAt(b, s, cmd)
        decreases |b| - s
      {
        ghost var i := s;
        var more := Peek(['&']);
        SkipTwice(b, i);
        if !more { return Ok(cmd, s); }
        var _, _, _ := GetToken();
        cmd := Back(cmd);
      }
    }

    /** `parseline`. */
    method ParseLine() returns (r: Parse)
      requires Valid()
      modifies this`s
      ensures Valid() && r == LineAt(Text(), old(s))
      ensures r.Ok? ==> s == r.pos
      decreases buf.Length - s, 3
    {
      hide TokenAt, SkipWhite, PeekAt, GoodSpan, PipeAt, BacksAt;
      ghost var b := Text();
      r := ParsePipe();
      if r.Panic? { return; }
      r := ParseBacks(r.cmd);
      var left, at := r.cmd, s;
      var more := Peek([';']);
      SkipTwice(b, at);
      if !more { return Ok(left, s); }
      var _, _, _ := GetToken();
      r := ParseLine();
      if r.Panic? { return; }
      r := Ok(List(left, r.cmd), r.pos);
    }

    /** `parsecmd`: after it, every word of the command reads back from its start. */
    method ParseCmd() returns (r: Parse)
      requires Valid() && s == 0
      modifies this`s, buf
      ensures r == CmdOf(old(Text()))
      ensures r.Ok? ==> Terminated(old(Text()), buf[..], Ends(r.cmd))
      ensures r.Panic? ==> Text() == old(Text())
    {
      hide LineAt, TokenAt, PeekAt, SkipWhite, GoodCmd, GoodSpan, Ends;
      ghost var b := Text();
      r := ParseLine();
      if r.Panic? { return; }
      var _ := Peek([]);
      if s != buf.Length - 1 { return Panic(Leftovers); }
      r := Ok(r.cmd, s);
      assert buf[..] == b + [NUL];
      NulTerminate(r.cmd, b);
    }

    /** `nulterminate`. */
    method NulTerminate(c: Cmd, ghost b: string)
      requires buf.Length == |b| + 1 && GoodCmd(b, c)
      modifies buf
      ensures forall k :: 0 <= k < buf.Length ==> buf[k] == if k in Ends(c) then NUL else old(buf[k])
      decreases c
    {
      match c
      case Exec(args) =>
        for i := 0 to |args|
          invariant forall k :: 0 <= k < buf.Length ==> buf[k] == if k in SpanEnds(args[..i]) then NUL else old(buf[k])
        {
          assert GoodSpan(b, args[i]);
          assert args[..i + 1] == args[..i] + [args[i]];
          SpanEndsAppend(args[..i], args[i]);
          buf[args[i].eq] := NUL;
        }
        assert args[..|args|] == args;
      case Redir(c1, file, _, _) =>
        NulTerminate(c1, b);
        buf[file.eq] := NUL;
      case Pipe(l, r) =>
        NulTerminate(l, b);
        NulTerminate(r, b);
      case List(l, r) =>
        NulTerminate(l, b);
        NulTerminate(r, b);
      case Back(c1) =>
        NulTerminate(c1, b);
    }
  }

  // ---------- reading the words back ----------

  function SpanEnds(ss: seq<Span>): set<nat>
  {
    set i | 0 <= i < |ss| :: ss[i].eq
  }

  lemma SpanEndsAppend(ss: seq<Span>, s: Span)
    ensures SpanEnds(ss + [s]) == SpanEnds(ss) + {s.eq}
  {
    assert (ss + [s])[|ss|] == s;
    forall i | 0 <= i < |ss| ensures ss[i].eq in SpanEnds(ss + [s]) { assert (ss + [s])[i] == ss[i]; }
  }

  /** Where nulterminate writes. */
  function Ends(c: Cmd): set<nat>
  {
    match c
    case Exec(args) => SpanEnds(args)
    case Redir(c1, file, _, _) => Ends(c1) + {file.eq}
    case Pipe(l, r) => Ends(l) + Ends(r)
    case List(l, r) => Ends(l) + Ends(r)
    case Back(c1) => Ends(c1)
  }

  /** The line with a NUL written at each end. */
  predicate Terminated(b: string, buf: string, ends: set<nat>)
  {
    |buf| == |b| + 1 && forall k :: 0 <= k < |buf| ==> buf[k] == if k in ends || k == |b| then NUL else b[k]
  }

  /** Every end of a word lies outside every word. */
  lemma {:induction false} EndsOutside(b: string, c: Cmd, k: nat)
    requires GoodCmd(b, c) && k in Ends(c)
    ensures k <= |b| && (k < |b| ==> !Wordy(b[k]))
  {
    match c
    case Exec(args) =>
      var i :| 0 <= i < |args| && args[i].eq == k;
      assert GoodSpan(b, args[i]);
    case Redir(c1, file, _, _) => if k != file.eq { EndsOutside(b, c1, k); }
    case Pipe(l, r) => if k in Ends(l) { EndsOutside(b, l, k); } else { EndsOutside(b, r, k); }
    case List(l, r) => if k in Ends(l) { EndsOutside(b, l, k); } else { EndsOutside(b, r, k); }
    case Back(c1) => EndsOutside(b, c1, k);
  }

  lemma {:induction false} CStringIs(buf: string, q: nat, e: nat)
    requires q <= e < |buf| && buf[e] == NUL && forall k :: q <= k < e ==> buf[k] != NUL
    ensures CString(buf, q) == buf[q..e]
    decreases e - q
  {
    if q < e {
      CStringIs(buf, q + 1, e);
    }
  }

  /** After nulterminate, a pointer to the start of any of the command's words reads exactly the word. */
  lemma WordReadsBack(b: string, c: Cmd, buf: string, s: Span)
    requires Line(b) && GoodCmd(b, c) && Terminated(b, buf, Ends(c)) && GoodSpan(b, s)
      && (s.eq in Ends(c) || s.eq == |b|)
    ensures CString(buf, s.q) == b[s.q..s.eq]
  {
    forall k | s.q <= k < s.eq ensures buf[k] == b[k] {
      if k in Ends(c) { EndsOutside(b, c, k); }
    }
    CStringIs(buf, s.q, s.eq);
    assert buf[s.q..s.eq] == b[s.q..s.eq];
  }

  /** A parser that starts by peeking or taking a token skips white space first. */
  lemma SkipTwice(b: string, i: nat)
    requires Line(b) && i <= |b|
    ensures SkipWhite(b, SkipWhite(b, i)) == SkipWhite(b, i)
    ensures TokenAt(b, SkipWhite(b, i)) == TokenAt(b, i)
    ensures SkipWhite(b, i) < |b| ==> TokenAt(b, i).next > SkipWhite(b, i)
  {
  }

  lemma RedirsSkip(b: string, i: nat, rs: seq<Redirection>)
    requires Line(b) && i <= |b| && GoodFiles(b, rs)
    ensures RedirsAt(b, SkipWhite(b, i), rs) == RedirsAt(b, i, rs)
  {
    hide TokenAt;
    SkipTwice(b, i);
  }

  lemma BlockSkip(b: string, i: nat)
    requires Line(b) && i <= |b|
    ensures BlockAt(b, SkipWhite(b, i)) == BlockAt(b, i)
  {
    hide TokenAt, LineAt, RedirsAt, Wrap;
    SkipTwice(b, i);
  }
}
