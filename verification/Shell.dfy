/**
 The lexer, parser and NUL-termination of user/sh.c over the bytes of a line. The parser moves a cursor
 through the line; recorded words are slices of it. A panic of the source is the result None.
 */
module Shell {
  import opened Options
  import opened CString
  import opened ShellGrammar
  import opened ShellRules

  /** A word as the source records it: from `start` up to `end`. */
  datatype Span = Span(start: nat, end: nat)

  const A: Byte := 'a' as int      // the lexer's code for a word

  predicate IsSpace(b: Byte) {
    b == ' ' as int || b == '\t' as int || b == '\r' as int || b == '\n' as int || b == 11
  }

  predicate IsSymbol(b: Byte) {
    b == LESS || b == BAR || b == GREATER || b == AMP || b == SEMI || b == OPEN || b == CLOSE
  }

  predicate IsWordByte(b: Byte) {
    b != 0 && !IsSpace(b) && !IsSymbol(b)
  }

  // ----- the tokens of a line

  ghost function SkipSpace(buf: CString, s: nat): (r: nat)
    requires s <= |buf|
    ensures s <= r <= |buf| && (r < |buf| ==> !IsSpace(buf[r])) && forall i | s <= i < r :: IsSpace(buf[i])
    decreases |buf| - s
  {
    if s < |buf| && IsSpace(buf[s]) then SkipSpace(buf, s + 1) else s
  }

  ghost function WordEnd(buf: CString, s: nat): (r: nat)
    requires s <= |buf|
    ensures s <= r <= |buf| && (r < |buf| ==> !IsWordByte(buf[r])) && forall i | s <= i < r :: IsWordByte(buf[i])
    decreases |buf| - s
  {
    if s < |buf| && IsWordByte(buf[s]) then WordEnd(buf, s + 1) else s
  }

  /** The token at a byte that is no space, and where it ends. */
  ghost function TokenAt(buf: CString, p: nat): (r: (Token<Span>, nat))
    requires p < |buf| && !IsSpace(buf[p])
    ensures p < r.1 <= |buf|
    ensures r.0.Word? ==> r.0.w == Span(p, r.1)
  {
    if buf[p] == GREATER && p + 1 < |buf| && buf[p + 1] == GREATER then (Sym(PLUS), p + 2)
    else if IsSymbol(buf[p]) then (Sym(buf[p]), p + 1)
    else (Word(Span(p, WordEnd(buf, p + 1))), WordEnd(buf, p + 1))
  }

  /** The tokens from `s` to the end of the line. */
  ghost function Lex(buf: CString, s: nat): seq<Token<Span>>
    requires s <= |buf|
    decreases |buf| - s
  {
    var p := SkipSpace(buf, s);
    if p == |buf| then [] else [TokenAt(buf, p).0] + Lex(buf, TokenAt(buf, p).1)
  }

  lemma {:induction false} LexSkip(buf: CString, s: nat)
    requires s <= |buf|
    ensures SkipSpace(buf, SkipSpace(buf, s)) == SkipSpace(buf, s) && Lex(buf, SkipSpace(buf, s)) == Lex(buf, s)
  {
  }

  // ----- what the tokens of a line are, apart from the lexer

  /** The token stands on these bytes, which are all that it can take. */
  ghost predicate TokenOn(buf: CString, t: Token<Span>, on: Span) {
    && on.start < on.end <= |buf|
    && match t
       case Word(w) =>
         && w == on && (forall i | on.start <= i < on.end :: IsWordByte(buf[i]))
         && (on.end < |buf| ==> !IsWordByte(buf[on.end]))
       case Sym(c) =>
         if c == PLUS then on.end == on.start + 2 && buf[on.start] == buf[on.start + 1] == '>' as int
         else
           && on.end == on.start + 1 && buf[on.start] == c && IsSymbol(c)
           && !(c == '>' as int && on.end < |buf| && buf[on.end] == c)
  }

  ghost predicate Covered(spans: seq<Span>, x: nat) {
    exists i :: 0 <= i < |spans| && spans[i].start <= x < spans[i].end
  }

  /** The tokens stand one behind the other from `s` on, and what they leave is space. */
  ghost predicate Tokenized(buf: CString, s: nat, ts: seq<Token<Span>>, spans: seq<Span>) {
    && |ts| == |spans| && (forall i | 0 <= i < |ts| :: TokenOn(buf, ts[i], spans[i]))
    && (forall i | 0 <= i < |spans| :: s <= spans[i].start)
    && (forall i, j | 0 <= i < j < |spans| :: spans[i].end <= spans[j].start)
    && forall x: nat | s <= x < |buf| && !Covered(spans, x) :: IsSpace(buf[x])
  }

  lemma CoveredCons(on: Span, spans: seq<Span>, x: nat)
    ensures Covered([on] + spans, x) <==> on.start <= x < on.end || Covered(spans, x)
  {
    var all := [on] + spans;
    if i :| 0 <= i < |spans| && spans[i].start <= x < spans[i].end {
      assert all[i + 1] == spans[i];
    }
    if on.start <= x < on.end {
      assert all[0] == on;
    }
  }

  /** The first token, behind space, and the tokens behind it. */
  lemma TokenizedCons(buf: CString, s: nat, t: Token<Span>, on: Span, ts: seq<Token<Span>>, spans: seq<Span>)
    requires TokenOn(buf, t, on) && s <= |buf|
    ensures Tokenized(buf, s, [t] + ts, [on] + spans) <==>
      s <= on.start && SkipSpace(buf, s) == on.start && Tokenized(buf, on.end, ts, spans)
  {
    TokenIs(buf, t, on);
    TokenRange(buf, t, on);
    hide TokenOn, TokenAt, Covered, IsSpace;
    forall x: nat ensures Covered([on] + spans, x) <==> on.start <= x < on.end || Covered(spans, x) {
      CoveredCons(on, spans, x);
    }
    if Tokenized(buf, s, [t] + ts, [on] + spans) {
      TailTokenized(buf, s, t, on, ts, spans);
      SpacesSkipped(buf, s, on.start);
    }
    if s <= on.start && SkipSpace(buf, s) == on.start && Tokenized(buf, on.end, ts, spans) {
      HeadTokenized(buf, s, t, on, ts, spans);
    }
  }

  lemma SpacesSkipped(buf: CString, s: nat, p: nat)
    requires s <= p < |buf| && !IsSpace(buf[p]) && forall x | s <= x < p :: IsSpace(buf[x])
    ensures SkipSpace(buf, s) == p
  {
  }

  lemma TailTokenized(buf: CString, s: nat, t: Token<Span>, on: Span, ts: seq<Token<Span>>, spans: seq<Span>)
    requires Tokenized(buf, s, [t] + ts, [on] + spans) && on.start < on.end <= |buf|
    requires forall x: nat :: Covered([on] + spans, x) <==> on.start <= x < on.end || Covered(spans, x)
    ensures s <= on.start && Tokenized(buf, on.end, ts, spans) && forall x | s <= x < on.start :: IsSpace(buf[x])
  {
    hide TokenOn, IsSpace;
    var all, tokens := [on] + spans, [t] + ts;
    assert |ts| == |spans| && all[0] == on;
    forall i | 0 <= i < |ts| ensures TokenOn(buf, ts[i], spans[i]) && on.end <= spans[i].start {
      assert tokens[i + 1] == ts[i] && all[i + 1] == spans[i];
    }
    forall i, j | 0 <= i < j < |spans| ensures spans[i].end <= spans[j].start {
      assert all[i + 1] == spans[i] && all[j + 1] == spans[j];
    }
    forall x: nat | s <= x < on.start ensures IsSpace(buf[x]) {
      assert !Covered(spans, x);
    }
  }

  lemma HeadTokenized(buf: CString, s: nat, t: Token<Span>, on: Span, ts: seq<Token<Span>>, spans: seq<Span>)
    requires Tokenized(buf, on.end, ts, spans) && TokenOn(buf, t, on) && s <= on.start < on.end <= |buf|
    requires SkipSpace(buf, s) == on.start
    requires forall x: nat :: Covered([on] + spans, x) <==> on.start <= x < on.end || Covered(spans, x)
    ensures Tokenized(buf, s, [t] + ts, [on] + spans)
  {
    hide TokenOn, IsSpace, Covered;
    var all, tokens := [on] + spans, [t] + ts;
    forall i | 0 <= i < |tokens| ensures TokenOn(buf, tokens[i], all[i]) && s <= all[i].start {
      assert i > 0 ==> tokens[i] == ts[i - 1] && all[i] == spans[i - 1];
    }
    forall i, j | 0 <= i < j < |all| ensures all[i].end <= all[j].start {
      assert all[j] == spans[j - 1] && (i > 0 ==> all[i] == spans[i - 1]);
    }
  }

  lemma {:induction false} LexTokenized(buf: CString, s: nat) returns (spans: seq<Span>)
    requires s <= |buf|
    ensures Tokenized(buf, s, Lex(buf, s), spans)
    decreases |buf| - s
  {
    var p := SkipSpace(buf, s);
    if p == |buf| {
      spans := [];
    } else {
      hide Tokenized, TokenOn, TokenAt;
      var t := TokenAt(buf, p);
      TokenFits(buf, p);
      var rest := LexTokenized(buf, t.1);
      spans := [Span(p, t.1)] + rest;
      TokenizedCons(buf, s, t.0, Span(p, t.1), Lex(buf, t.1), rest);
    }
  }

  lemma TokenFits(buf: CString, p: nat)
    requires p < |buf| && !IsSpace(buf[p])
    ensures TokenOn(buf, TokenAt(buf, p).0, Span(p, TokenAt(buf, p).1))
  {
  }

  lemma TokenIs(buf: CString, t: Token<Span>, on: Span)
    requires TokenOn(buf, t, on)
    ensures !IsSpace(buf[on.start]) && TokenAt(buf, on.start) == (t, on.end)
  {
    if t.Word? {
      WordEndIs(buf, on.start + 1, on.end);
    }
  }

  lemma {:induction false} TokenizedIsLex(buf: CString, s: nat, ts: seq<Token<Span>>, spans: seq<Span>)
    requires s <= |buf| && Tokenized(buf, s, ts, spans)
    ensures ts == Lex(buf, s)
    decreases |ts|
  {
    hide TokenOn, TokenAt;
    if ts == [] {
      var p := SkipSpace(buf, s);
      assert p < |buf| ==> !Covered(spans, p);
    } else {
      var on := spans[0];
      TokenIs(buf, ts[0], on);
      TokenRange(buf, ts[0], on);
      hide Tokenized;
      assert ts == [ts[0]] + ts[1..] && spans == [on] + spans[1..];
      TokenizedCons(buf, s, ts[0], on, ts[1..], spans[1..]);
      TokenizedIsLex(buf, on.end, ts[1..], spans[1..]);
    }
  }

  lemma TokenRange(buf: CString, t: Token<Span>, on: Span)
    requires TokenOn(buf, t, on)
    ensures on.start < on.end <= |buf|
  {
  }

  /** The lexer finds the only tokens that cover the line save for space, each as long as it can be. */
  lemma LexExactly(buf: CString, ts: seq<Token<Span>>)
    ensures ts == Lex(buf, 0) <==> exists spans :: Tokenized(buf, 0, ts, spans)
  {
    hide Tokenized, Lex;
    var spans := LexTokenized(buf, 0);
    if spans :| Tokenized(buf, 0, ts, spans) {
      TokenizedIsLex(buf, 0, ts, spans);
    }
  }

  // ----- the parser

  class Parser {
    const buf: CString
    var s: nat

    constructor (line: CString)
      ensures buf == line && s == 0
    {
      buf := line;
      s := 0;
    }

    /** The tokens still to read. */
    ghost function Rest(): seq<Token<Span>>
      reads this
      requires s <= |buf|
    {
      Lex(buf, s)
    }

    method Skip()
      requires s <= |buf|
      modifies this
      ensures s == SkipSpace(buf, old(s)) && Rest() == old(Rest())
    {
      LexSkip(buf, s);
      ghost var to := SkipSpace(buf, s);
      while s < |buf| && IsSpace(buf[s])
        invariant s <= |buf| && SkipSpace(buf, s) == to
        decreases |buf| - s
      {
        s := s + 1;
      }
    }

    /** The next token's code, and its extent if it is a word; 0 at the end of the line. */
    method GetToken() returns (ret: Byte, q: nat, eq: nat)
      requires s <= |buf|
      modifies this
      ensures old(s) <= s <= |buf|
      ensures old(Rest()) == [] ==> ret == 0 && Rest() == []
      ensures old(Rest()) != [] ==>
              && old(s) < s && Rest() == old(Rest())[1..]
              && match old(Rest())[0] {
                   case Word(w) => ret == A && w == Span(q, eq)
                   case Sym(c) => ret == c && c != 0 && c != A
                 }
    {
      ghost var ts := Rest();
      Skip();
      q := s;
      ret := At(buf, s);
      ghost var p := s;
      if ret == 0 {
      } else if ret == BAR || ret == OPEN || ret == CLOSE || ret == SEMI || ret == AMP || ret == LESS {
        s := s + 1;
      } else if ret == GREATER {
        s := s + 1;
        if At(buf, s) == GREATER {
          ret := PLUS;
          s := s + 1;
        }
      } else {
        ret := A;
        ghost var to := WordEnd(buf, s);
        while s < |buf| && !IsSpace(buf[s]) && !IsSymbol(buf[s])
          invariant p <= s <= |buf| && WordEnd(buf, s) == to
          decreases |buf| - s
        {
          s := s + 1;
        }
        assert s == to == WordEnd(buf, p + 1);
      }
      eq := s;
      assert p < |buf| ==> s == TokenAt(buf, p).1 && ts == [TokenAt(buf, p).0] + Rest();
      Skip();
    }

    /** Does the next token start with one of these symbols? */
    method Peek(toks: seq<Byte>) returns (r: bool)
      requires s <= |buf| && forall i | 0 <= i < |toks| :: IsSymbol(toks[i])
      modifies this
      ensures old(s) <= s <= |buf| && Rest() == old(Rest()) && SkipSpace(buf, s) == s
      ensures r <==> Rest() != [] && Rest()[0].Sym? && Lead(Rest()[0].c) in toks
    {
      LexSkip(buf, s);
      Skip();
      r := At(buf, s) != 0 && At(buf, s) in toks;
    }

    method ParseRedirs(found: seq<Target<Span>>) returns (r: Option<seq<Target<Span>>>)
      requires s <= |buf|
      modifies this
      ensures old(s) <= s <= |buf|
      ensures match Redirs(found, old(Rest())) {
        case NoFile => r == None
        case Found(rs, rest) => r == Some(rs) && Rest() == rest
      }
    {
      hide Lex;
      var rs := found;
      while true
        invariant old(s) <= s <= |buf| && Redirs(rs, Rest()) == Redirs(found, old(Rest()))
        decreases |buf| - s
      {
        ghost var ts := Rest();
        var more := Peek([LESS, GREATER]);
        if !more {
          return Some(rs);
        }
        var tok, _, _ := GetToken();
        var ret, q, eq := GetToken();
        if ret != A {
          return None;
        }
        assert ts[2..] == ts[1..][1..];
        rs := rs + [Target(Span(q, eq), tok != LESS)];
      }
    }

    method ParseSimple() returns (r: Option<Cmd<Span>>)
      requires s <= |buf| && !Starts(Rest(), OPEN)
      modifies this
      ensures old(s) <= s <= |buf| && Agrees(r, ParseExec(old(Rest())))
    {
      hide Lex, Wrap, Redirs;
      var args: seq<Span> := [];
      ghost var all := Rest();
      var found := ParseRedirs([]);
      if found == None {
        return None;
      }
      var rs := found.value;
      while true
        invariant old(s) <= s <= |buf| && |args| < MAX_ARGS && Args(args, rs, Rest()) == ParseExec(all)
        decreases |buf| - s
      {
        ghost var ts := Rest();
        var stop := Peek([BAR, CLOSE, AMP, SEMI]);
        if stop {
          return Some(Wrap(Exec(args), rs));
        }
        var tok, q, eq := GetToken();
        if tok == 0 {
          return Some(Wrap(Exec(args), rs));
        }
        if tok != A {
          return None;
        }
        args := args + [Span(q, eq)];
        if |args| >= MAX_ARGS {
          return None;
        }
        found := ParseRedirs(rs);
        if found == None {
          return None;
        }
        rs := found.value;
      }
    }

    method ParseExecCmd() returns (r: Option<Cmd<Span>>)
      requires s <= |buf|
      modifies this
      ensures old(s) <= s <= |buf| && Agrees(r, ParseExec(old(Rest())))
      decreases |buf| - s, 1
    {
      hide Lex, Wrap, Redirs, Args;
      var block := Peek([OPEN]);
      if block {
        r := ParseBlockCmd();
      } else {
        r := ParseSimple();
      }
    }

    method ParseBlockCmd() returns (r: Option<Cmd<Span>>)
      requires s <= |buf| && Starts(Rest(), OPEN)
      modifies this
      ensures old(s) <= s <= |buf| && Agrees(r, ParseBlock(old(Rest())))
      decreases |buf| - s, 0
    {
      hide Lex, Wrap, Redirs;
      var _, _, _ := GetToken();
      var inner := ParseLineCmd();
      if inner == None {
        return None;
      }
      var closed := Peek([CLOSE]);
      if !closed {
        return None;
      }
      var _, _, _ := GetToken();
      var rs := ParseRedirs([]);
      if rs == None {
        return None;
      }
      return Some(Wrap(inner.value, rs.value));
    }

    method ParsePipeCmd() returns (r: Option<Cmd<Span>>)
      requires s <= |buf|
      modifies this
      ensures old(s) <= s <= |buf| && Agrees(r, ParsePipe(old(Rest())))
      decreases |buf| - s, 2
    {
      hide Lex, ParseExec;
      r := ParseExecCmd();
      if r == None {
        return;
      }
      var piped := Peek([BAR]);
      if piped {
        var _, _, _ := GetToken();
        var right := ParsePipeCmd();
        if right == None {
          return None;
        }
        r := Some(Pipe(r.value, right.value));
      }
    }

    method ParseLineCmd() returns (r: Option<Cmd<Span>>)
      requires s <= |buf|
      modifies this
      ensures old(s) <= s <= |buf| && Agrees(r, ParseLine(old(Rest())))
      decreases |buf| - s, 3
    {
      hide Lex, ParsePipe;
      ghost var all := Rest();
      r := ParsePipeCmd();
      if r == None {
        return;
      }
      ghost var behind := Backs(r.value, Rest());
      var cmd := r.value;
      while true
        invariant old(s) <= s <= |buf| && Backs(cmd, Rest()) == behind
        decreases |buf| - s
      {
        var back := Peek([AMP]);
        if !back {
          break;
        }
        var _, _, _ := GetToken();
        cmd := Back(cmd);
      }
      assert behind == Ok(cmd, Rest());
      r := Some(cmd);
      var more := Peek([SEMI]);
      if more {
        var _, _, _ := GetToken();
        var right := ParseLineCmd();
        if right == None {
          return None;
        }
        r := Some(List(cmd, right.value));
      }
    }

    /** What a method returned, and the tokens it left, are what the grammar says. */
    ghost predicate Agrees(r: Option<Cmd<Span>>, p: Parsed<Span>)
      reads this
      requires s <= |buf|
    {
      match p
      case Panic => r == None
      case Ok(c, rest) => r == Some(c) && Rest() == rest
    }
  }

  /** The byte a symbol token starts with. */
  ghost function Lead(c: Byte): Byte {
    if c == PLUS then GREATER else c
  }

  // ----- where recorded words lie

  /** A span is a whole word: word bytes only, and no word byte behind it. */
  ghost predicate IsWord(buf: CString, w: Span) {
    && w.start < w.end <= |buf| && (forall i | w.start <= i < w.end :: IsWordByte(buf[i]))
    && (w.end < |buf| ==> !IsWordByte(buf[w.end]))
  }

  ghost function Text(buf: seq<Byte>, w: Span): seq<Byte> {
    if w.start <= w.end <= |buf| then buf[w.start..w.end] else []
  }

  ghost function WordsOf(c: Cmd<Span>): set<Span> {
    match c
    case Exec(args) => set i | 0 <= i < |args| :: args[i]
    case Redir(d, file, _) => WordsOf(d) + {file}
    case Pipe(l, r) => WordsOf(l) + WordsOf(r)
    case List(l, r) => WordsOf(l) + WordsOf(r)
    case Back(d) => WordsOf(d)
  }

  lemma {:induction false} LexWords(buf: CString, s: nat)
    requires s <= |buf|
    ensures forall i | 0 <= i < |Lex(buf, s)| :: Lex(buf, s)[i].Word? ==> IsWord(buf, Lex(buf, s)[i].w)
    decreases |buf| - s
  {
    var p := SkipSpace(buf, s);
    if p < |buf| {
      var t := TokenAt(buf, p);
      LexWords(buf, t.1);
      var rest := Lex(buf, t.1);
      assert forall i | 1 <= i < |Lex(buf, s)| :: Lex(buf, s)[i] == rest[i - 1];
    }
  }

  lemma {:induction false} FixedWords(f: Span -> Span, c: Cmd<Span>, w: Span)
    requires MapCmd(f, c) == c && w in WordsOf(c)
    ensures f(w) == w
  {
    match c
    case Exec(args) =>
      var i :| 0 <= i < |args| && args[i] == w;
      assert MapWords(f, args)[i] == f(w);
    case Redir(d, file, out) =>
      if w in WordsOf(d) {
        FixedWords(f, d, w);
      }
    case Pipe(l, r) =>
      if w in WordsOf(l) {
        FixedWords(f, l, w);
      } else {
        FixedWords(f, r, w);
      }
    case List(l, r) =>
      if w in WordsOf(l) {
        FixedWords(f, l, w);
      } else {
        FixedWords(f, r, w);
      }
    case Back(d) => FixedWords(f, d, w);
  }

  /** Every word of a parsed command is a whole word of the line: the parser cannot make words up. */
  lemma ParsedWords(buf: CString, w: Span)
    requires ParseLine(Lex(buf, 0)).Ok? && w in WordsOf(ParseLine(Lex(buf, 0)).cmd)
    ensures IsWord(buf, w)
  {
    hide ParseLine, Lex, WordsOf;
    var ts := Lex(buf, 0);
    var f := (v: Span) => if IsWord(buf, v) then v else Span(v.start, v.end + 1);
    LexWords(buf, 0);
    assert MapTokens(f, ts) == ts;
    LineMap(f, ts);
    FixedWords(f, ParseLine(ts).cmd, w);
  }

  // ----- NUL termination

  ghost function WordEnds(c: Cmd<Span>): set<nat> {
    set w | w in WordsOf(c) :: w.end
  }

  method NulTerminate(a: array<Byte>, c: Cmd<Span>)
    requires forall w | w in WordsOf(c) :: w.end < a.Length
    modifies a
    ensures forall i | 0 <= i < a.Length :: a[i] == if i in WordEnds(c) then 0 else old(a[i])
    decreases c
  {
    match c
    case Exec(args) =>
      var i := 0;
      while i < |args|
        invariant 0 <= i <= |args|
        invariant forall j | 0 <= j < a.Length :: a[j] == if j in EndsTo(args, i) then 0 else old(a[j])
      {
        assert args[i] in WordsOf(c);
        EndsNext(args, i);
        a[args[i].end] := 0;
        i := i + 1;
      }
      EndsAll(args);
    case Redir(d, file, out) =>
      NulTerminate(a, d);
      a[file.end] := 0;
      assert WordEnds(c) == WordEnds(d) + {file.end};
    case Pipe(l, r) =>
      NulTerminate(a, l);
      NulTerminate(a, r);
      assert WordEnds(c) == WordEnds(l) + WordEnds(r);
    case List(l, r) =>
      NulTerminate(a, l);
      NulTerminate(a, r);
      assert WordEnds(c) == WordEnds(l) + WordEnds(r);
    case Back(d) =>
      NulTerminate(a, d);
  }

  ghost function EndsTo(args: seq<Span>, k: nat): set<nat>
    requires k <= |args|
  {
    set i | 0 <= i < k :: args[i].end
  }

  lemma EndsNext(args: seq<Span>, k: nat)
    requires k < |args|
    ensures EndsTo(args, k + 1) == EndsTo(args, k) + {args[k].end}
  {
  }

  lemma EndsAll(args: seq<Span>)
    ensures EndsTo(args, |args|) == WordEnds(Exec(args))
  {
    forall e | e in EndsTo(args, |args|) ensures e in WordEnds(Exec(args)) {
      var i :| 0 <= i < |args| && args[i].end == e;
      assert args[i] in WordsOf(Exec(args));
    }
  }

  /** The C string that starts at `s`: the bytes before the next NUL. */
  ghost function StringAt(a: seq<Byte>, s: nat): seq<Byte>
    decreases |a| - s
  {
    if s >= |a| || a[s] == 0 then [] else [a[s]] + StringAt(a, s + 1)
  }

  lemma {:induction false} StringEnds(a: seq<Byte>, s: nat, e: nat)
    requires s <= e < |a| && a[e] == 0 && forall i | s <= i < e :: a[i] != 0
    ensures StringAt(a, s) == a[s..e]
    decreases e - s
  {
    if s < e {
      StringEnds(a, s + 1, e);
    }
  }

  /** After termination every word of the command reads as its own text. */
  lemma WordsSurvive(buf: CString, c: Cmd<Span>, a: seq<Byte>, w: Span)
    requires |a| > |buf| && (forall v | v in WordsOf(c) :: IsWord(buf, v)) && w in WordsOf(c)
    requires forall i | 0 <= i < |buf| :: a[i] == if i in WordEnds(c) then 0 else buf[i]
    requires a[|buf|] == 0
    ensures StringAt(a, w.start) == Text(buf, w)
  {
    assert w.end in WordEnds(c);
    forall i | w.start <= i < w.end ensures a[i] == buf[i] != 0 {
      forall v | v in WordsOf(c) ensures v.end != i {
        assert IsWord(buf, v) && IsWord(buf, w);
      }
    }
    assert IsWord(buf, w);
    StringEnds(a, w.start, w.end);
    assert a[w.start..w.end] == buf[w.start..w.end];
  }

  method StrLen(a: array<Byte>) returns (n: nat)
    requires exists i :: 0 <= i < a.Length && a[i] == 0
    ensures n < a.Length && a[n] == 0 && forall i | 0 <= i < n :: a[i] != 0
  {
    n := 0;
    while a[n] != 0
      invariant n < a.Length && forall i | 0 <= i < n :: a[i] != 0
      decreases a.Length - n
    {
      n := n + 1;
    }
  }

  /** Parse the line in `a`; on success terminate its words in place. */
  method ParseCmd(a: array<Byte>) returns (r: Option<Cmd<Span>>, ghost buf: CString)
    requires exists i :: 0 <= i < a.Length && a[i] == 0
    modifies a
    ensures |buf| < a.Length && old(a[..])[..|buf|] == buf && old(a[..])[|buf|] == 0
    ensures match ParseLine(Lex(buf, 0)) {
      case Panic => r == None
      case Ok(c, rest) => r == if rest == [] then Some(c) else None
    }
    ensures forall c :: r == Some(c) <==> Derives(Lex(buf, 0), c)
    ensures r == None ==> a[..] == old(a[..])
    ensures r.Some? ==> forall w | w in WordsOf(r.value) :: IsWord(buf, w) && StringAt(a[..], w.start) == Text(buf, w)
  {
    hide Lex, ParseLine, WordsOf, StringAt, IsWord, WordEnds, Text, Derives;
    var n := StrLen(a);
    var line: CString := a[..n];
    buf := line;
    var p := new Parser(line);
    forall d ensures ParseLine(Lex(buf, 0)) == Ok(d, []) <==> Derives(Lex(buf, 0), d) {
      LinesExactly(Lex(buf, 0), d);
    }
    r := p.ParseLineCmd();
    if r == None {
      return;
    }
    var _ := p.Peek([]);
    LineEmpty(line, p.s);
    if p.s != n {
      return None, buf;
    }
    ghost var c := r.value;
    forall w | w in WordsOf(c) ensures IsWord(buf, w) && w.end <= n {
      ParsedWords(buf, w);
      WordInLine(buf, w);
    }
    NulTerminate(a, r.value);
    forall w | w in WordsOf(c) ensures StringAt(a[..], w.start) == Text(buf, w) {
      WordsSurvive(buf, c, a[..], w);
    }
  }

  lemma WordInLine(buf: CString, w: Span)
    requires IsWord(buf, w)
    ensures w.start <= w.end <= |buf|
  {
  }

  lemma LineEmpty(buf: CString, s: nat)
    requires s <= |buf|
    ensures SkipSpace(buf, s) == s ==> (Lex(buf, s) == [] <==> s == |buf|)
  {
  }

  // ----- printing a line and parsing it back

  ghost predicate GoodWord(w: seq<Byte>) {
    w != [] && forall i | 0 <= i < |w| :: IsWordByte(w[i])
  }

  ghost predicate GoodToken(t: Token<seq<Byte>>) {
    if t.Word? then GoodWord(t.w) else IsSymbol(t.c)
  }

  ghost predicate GoodTokens(ts: seq<Token<seq<Byte>>>) {
    forall i | 0 <= i < |ts| :: GoodToken(ts[i])
  }

  ghost predicate GoodCmd(c: Cmd<seq<Byte>>) {
    match c
    case Exec(args) => forall i | 0 <= i < |args| :: GoodWord(args[i])
    case Redir(d, file, _) => GoodCmd(d) && GoodWord(file)
    case Pipe(l, r) => GoodCmd(l) && GoodCmd(r)
    case List(l, r) => GoodCmd(l) && GoodCmd(r)
    case Back(d) => GoodCmd(d)
  }

  ghost function Spelled(t: Token<seq<Byte>>): seq<Byte> {
    if t.Word? then t.w else [t.c]
  }

  /** Each token and one space. */
  ghost function Render(ts: seq<Token<seq<Byte>>>): seq<Byte> {
    if ts == [] then [] else Spelled(ts[0]) + [32] + Render(ts[1..])
  }

  lemma {:induction false} RenderNoNul(ts: seq<Token<seq<Byte>>>)
    requires GoodTokens(ts)
    ensures forall i | 0 <= i < |Render(ts)| :: Render(ts)[i] != 0
  {
    if ts != [] {
      assert GoodToken(ts[0]);
      RenderNoNul(ts[1..]);
    }
  }

  lemma {:induction false} WordEndIs(buf: CString, s: nat, to: nat)
    requires s <= to <= |buf| && (forall i | s <= i < to :: IsWordByte(buf[i])) && (to < |buf| ==> !IsWordByte(buf[to]))
    ensures WordEnd(buf, s) == to
  {
  }

  /** The token spelled at `p`, a space behind it, is the token the lexer finds there. */
  lemma TokenSpelled(buf: CString, p: nat, t: Token<seq<Byte>>)
    requires GoodToken(t) && p + |Spelled(t)| < |buf| && buf[p..p + |Spelled(t)|] == Spelled(t)
    requires buf[p + |Spelled(t)|] == 32
    ensures p < |buf| && !IsSpace(buf[p]) && TokenAt(buf, p).1 == p + |Spelled(t)|
    ensures MapToken(v => Text(buf, v), TokenAt(buf, p).0) == t
  {
    var sp, e := Spelled(t), p + |Spelled(t)|;
    forall i | 0 <= i < |sp| ensures buf[p + i] == sp[i] {
      assert buf[p..e][i] == sp[i];
    }
    assert buf[p] == sp[0] && buf[e] == 32;
    if t.Word? {
      forall i | p <= i < e ensures IsWordByte(buf[i]) {
        assert buf[p + (i - p)] == t.w[i - p];
      }
      WordEndIs(buf, p + 1, e);
    }
  }

  lemma {:induction false} LexRendered(pre: seq<Byte>, ts: seq<Token<seq<Byte>>>, buf: CString)
    requires GoodTokens(ts) && buf == pre + Render(ts)
    ensures MapTokens(v => Text(buf, v), Lex(buf, |pre|)) == ts
    decreases |ts|
  {
    hide Lex, MapTokens, MapToken, Text, TokenAt, Spelled, GoodToken;
    var s := |pre|;
    var f := v => Text(buf, v);
    if ts == [] {
      assert buf == pre;
      LexEnd(buf, f);
    } else {
      var t := ts[0];
      var pre' := pre + Spelled(t) + [32];
      var e := s + |Spelled(t)|;
      assert buf == pre' + Render(ts[1..]);
      assert buf[s..e] == Spelled(t) && buf[e] == 32;
      TokenSpelled(buf, s, t);
      LexStep(buf, s, e);
      assert |pre'| == e + 1;
      LexRendered(pre', ts[1..], buf);
      MapCons(f, TokenAt(buf, s).0, Lex(buf, e + 1));
    }
  }

  lemma LexEnd(buf: CString, f: Span -> seq<Byte>)
    ensures MapTokens(f, Lex(buf, |buf|)) == []
  {
  }

  lemma LexStep(buf: CString, s: nat, e: nat)
    requires s < |buf| && !IsSpace(buf[s]) && TokenAt(buf, s).1 == e < |buf| && buf[e] == 32
    ensures Lex(buf, s) == [TokenAt(buf, s).0] + Lex(buf, e + 1)
  {
    assert SkipSpace(buf, e) == SkipSpace(buf, e + 1);
  }

  lemma MapCons(f: Span -> seq<Byte>, t: Token<Span>, ts: seq<Token<Span>>)
    ensures MapTokens(f, [t] + ts) == [MapToken(f, t)] + MapTokens(f, ts)
  {
  }

  lemma {:induction false} WordsGood(args: seq<seq<Byte>>)
    requires forall i | 0 <= i < |args| :: GoodWord(args[i])
    ensures GoodTokens(Words(args))
  {
    if args != [] {
      WordsGood(args[1..]);
    }
  }

  lemma {:induction false} RedirsGood(rs: seq<Target<seq<Byte>>>)
    requires forall i | 0 <= i < |rs| :: GoodWord(rs[i].file)
    ensures GoodTokens(PrintRedirs(rs))
  {
    if rs != [] {
      RedirsGood(rs[1..]);
    }
  }

  lemma {:induction false} CoreGood(c: Cmd<seq<Byte>>)
    requires GoodCmd(c)
    ensures GoodCmd(Core(c)) && forall i | 0 <= i < |RedirsOf(c)| :: GoodWord(RedirsOf(c)[i].file)
  {
    if c.Redir? {
      CoreGood(c.cmd);
    }
  }

  lemma {:induction false} ExecGood(c: Cmd<seq<Byte>>)
    requires GoodCmd(c)
    ensures GoodTokens(PrintExec(c))
    decreases c, 1
  {
    hide PrintInner, PrintRedirs;
    CoreGood(c);
    RedirsGood(RedirsOf(c));
    var core := Core(c);
    if core.Exec? {
      WordsGood(core.args);
    } else {
      InnerGood(core);
    }
  }

  lemma {:induction false} InnerGood(c: Cmd<seq<Byte>>)
    requires GoodCmd(c) && (c.Pipe? || c.List? || c.Back?)
    ensures GoodTokens(PrintInner(c))
    decreases c, 0
  {
    match c
    case Pipe(l, r) =>
      ExecGood(l);
      LineGood(r);
    case List(l, r) =>
      LineGood(l);
      LineGood(r);
    case Back(d) =>
      LineGood(d);
  }

  /** At whatever precedence a command is printed, it spells good tokens. */
  lemma {:induction false} LineGood(c: Cmd<seq<Byte>>)
    requires GoodCmd(c)
    ensures GoodTokens(PrintPipe(c)) && GoodTokens(PrintBacks(c)) && GoodTokens(PrintLine(c))
    decreases c, 2
  {
    ExecGood(c);
    if c.Pipe? || c.List? || c.Back? {
      InnerGood(c);
    }
  }

  /** Parsing the printed text of any command gives that command back. */
  lemma RoundTrip(c: Cmd<seq<Byte>>)
    requires Fits(c) && GoodCmd(c)
    ensures var text := Render(PrintLine(c));
      && (forall i | 0 <= i < |text| :: text[i] != 0)
      && var p := ParseLine(Lex(text, 0));
      p.Ok? && p.rest == [] && MapCmd(v => Text(text, v), p.cmd) == c
  {
    hide PrintLine, Render, Lex, ParseLine, MapCmd;
    var ts := PrintLine(c);
    LineGood(c);
    RenderNoNul(ts);
    var text: CString := Render(ts);
    var f := v => Text(text, v);
    assert text == [] + Render(ts);
    LexRendered([], ts, text);
    LineMap(f, Lex(text, 0));
    LineParsed(c, []);
    assert ts + [] == ts;
  }
}
