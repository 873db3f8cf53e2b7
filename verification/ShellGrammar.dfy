/**
 The command grammar of user/sh.c over tokens: the recursive-descent parser as functions of the tokens
 still to read, and a printer that puts parentheses only where precedence needs them. Words are opaque,
 so that they may be slices of the line or their text.
 */
module ShellGrammar {

  import opened CString

  const BAR: Byte := '|' as int
  const AMP: Byte := '&' as int
  const SEMI: Byte := ';' as int
  const OPEN: Byte := '(' as int
  const CLOSE: Byte := ')' as int
  const LESS: Byte := '<' as int
  const GREATER: Byte := '>' as int
  const PLUS: Byte := '+' as int      // the lexer's code for two greater signs
  const MAX_ARGS := 10

  datatype Token<W> = Word(w: W) | Sym(c: Byte)

  /** In a redirection, `out` is writing on descriptor 1 to a file made if it is missing; else reading on 0. */
  datatype Cmd<W> =
    | Exec(args: seq<W>)
    | Redir(cmd: Cmd<W>, file: W, out: bool)
    | Pipe(left: Cmd<W>, right: Cmd<W>)
    | List(left: Cmd<W>, right: Cmd<W>)
    | Back(cmd: Cmd<W>)

  /** A command and the tokens behind it, or the parser's panic. */
  datatype Parsed<W> = Ok(cmd: Cmd<W>, rest: seq<Token<W>>) | Panic

  /** One redirection: its file and whether it is output. */
  datatype Target<W> = Target(file: W, out: bool)

  datatype Targets<W> = Found(targets: seq<Target<W>>, rest: seq<Token<W>>) | NoFile

  predicate Starts<W(==)>(ts: seq<Token<W>>, c: Byte) {
    ts != [] && ts[0] == Sym(c)
  }

  predicate StartsRedir<W>(ts: seq<Token<W>>) {
    ts != [] && ts[0].Sym? && (ts[0].c == LESS || ts[0].c == GREATER || ts[0].c == PLUS)
  }

  /** The tokens that end a simple command. */
  predicate Stops<W>(ts: seq<Token<W>>) {
    ts == [] || (ts[0].Sym? && (ts[0].c == BAR || ts[0].c == CLOSE || ts[0].c == AMP || ts[0].c == SEMI))
  }

  function Wrap<W>(c: Cmd<W>, rs: seq<Target<W>>): Cmd<W> {
    if rs == [] then c else Redir(Wrap(c, rs[..|rs| - 1]), rs[|rs| - 1].file, rs[|rs| - 1].out)
  }

  // ----- the parser

  function Redirs<W>(rs: seq<Target<W>>, ts: seq<Token<W>>): (r: Targets<W>)
    ensures r.Found? ==> |r.rest| <= |ts|
    decreases |ts|
  {
    if !StartsRedir(ts) then Found(rs, ts)
    else if |ts| >= 2 && ts[1].Word? then Redirs(rs + [Target(ts[1].w, ts[0].c != LESS)], ts[2..])
    else NoFile
  }

  function Args<W>(args: seq<W>, rs: seq<Target<W>>, ts: seq<Token<W>>): (r: Parsed<W>)
    ensures r.Ok? ==> |r.rest| <= |ts|
    decreases |ts|
  {
    if Stops(ts) then Ok(Wrap(Exec(args), rs), ts)
    else if ts[0].Word? && |args| + 1 < MAX_ARGS then
      match Redirs(rs, ts[1..])
      case NoFile => Panic
      case Found(rs', ts') => Args(args + [ts[0].w], rs', ts')
    else Panic
  }

  function ParseExec<W(==)>(ts: seq<Token<W>>): (r: Parsed<W>)
    ensures r.Ok? ==> |r.rest| <= |ts|
    decreases |ts|, 1
  {
    if Starts(ts, OPEN) then ParseBlock(ts)
    else
      match Redirs([], ts)
      case NoFile => Panic
      case Found(rs, ts') => Args([], rs, ts')
  }

  function ParseBlock<W(==)>(ts: seq<Token<W>>): (r: Parsed<W>)
    requires Starts(ts, OPEN)
    ensures r.Ok? ==> |r.rest| <= |ts|
    decreases |ts|, 0
  {
    match ParseLine(ts[1..])
    case Panic => Panic
    case Ok(c, rest) =>
      if !Starts(rest, CLOSE) then Panic
      else
        match Redirs([], rest[1..])
        case NoFile => Panic
        case Found(rs, rest') => Ok(Wrap(c, rs), rest')
  }

  function ParsePipe<W(==)>(ts: seq<Token<W>>): (r: Parsed<W>)
    ensures r.Ok? ==> |r.rest| <= |ts|
    decreases |ts|, 2
  {
    match ParseExec(ts)
    case Panic => Panic
    case Ok(c, rest) =>
      if !Starts(rest, BAR) then Ok(c, rest)
      else
        match ParsePipe(rest[1..])
        case Panic => Panic
        case Ok(d, rest') => Ok(Pipe(c, d), rest')
  }

  /** Ampersands behind a command. */
  function Backs<W(==)>(c: Cmd<W>, ts: seq<Token<W>>): (r: Parsed<W>)
    ensures r.Ok? && |r.rest| <= |ts|
    decreases |ts|
  {
    if Starts(ts, AMP) then Backs(Back(c), ts[1..]) else Ok(c, ts)
  }

  function ParseLine<W(==)>(ts: seq<Token<W>>): (r: Parsed<W>)
    ensures r.Ok? ==> |r.rest| <= |ts|
    decreases |ts|, 3
  {
    match ParsePipe(ts)
    case Panic => Panic
    case Ok(c, rest) =>
      var b := Backs(c, rest);
      if !Starts(b.rest, SEMI) then b
      else
        match ParseLine(b.rest[1..])
        case Panic => Panic
        case Ok(d, rest') => Ok(List(b.cmd, d), rest')
  }

  // ----- the printer

  /** Every simple command has fewer words than the parser's limit. */
  ghost predicate Fits<W>(c: Cmd<W>) {
    match c
    case Exec(args) => |args| < MAX_ARGS
    case Redir(d, _, _) => Fits(d)
    case Pipe(l, r) => Fits(l) && Fits(r)
    case List(l, r) => Fits(l) && Fits(r)
    case Back(d) => Fits(d)
  }

  function Core<W>(c: Cmd<W>): (r: Cmd<W>)
    ensures !r.Redir? && (r == c || r < c)
  {
    if c.Redir? then Core(c.cmd) else c
  }

  function RedirsOf<W>(c: Cmd<W>): seq<Target<W>> {
    if c.Redir? then RedirsOf(c.cmd) + [Target(c.file, c.out)] else []
  }

  function Words<W>(args: seq<W>): seq<Token<W>> {
    if args == [] then [] else [Word(args[0])] + Words(args[1..])
  }

  function PrintRedirs<W>(rs: seq<Target<W>>): seq<Token<W>> {
    if rs == [] then [] else [Sym(if rs[0].out then GREATER else LESS), Word(rs[0].file)] + PrintRedirs(rs[1..])
  }

  function PrintLine<W>(c: Cmd<W>): seq<Token<W>>
    decreases c, 4
  {
    if c.List? then PrintInner(c) else PrintBacks(c)
  }

  function PrintBacks<W>(c: Cmd<W>): seq<Token<W>>
    decreases c, 3
  {
    if c.Back? then PrintInner(c) else PrintPipe(c)
  }

  function PrintPipe<W>(c: Cmd<W>): seq<Token<W>>
    decreases c, 2
  {
    if c.Pipe? then PrintInner(c) else PrintExec(c)
  }

  function PrintExec<W>(c: Cmd<W>): seq<Token<W>>
    decreases c, 1
  {
    var core := Core(c);
    (if core.Exec? then Words(core.args) else [Sym(OPEN)] + PrintInner(core) + [Sym(CLOSE)]) + PrintRedirs(RedirsOf(c))
  }

  /** A pipeline, a list or a background command, its parts at the precedence the grammar gives them. */
  function PrintInner<W>(c: Cmd<W>): seq<Token<W>>
    requires c.Pipe? || c.List? || c.Back?
    decreases c, 0
  {
    match c
    case Pipe(l, r) => PrintExec(l) + [Sym(BAR)] + PrintPipe(r)
    case List(l, r) => PrintBacks(l) + [Sym(SEMI)] + PrintLine(r)
    case Back(d) => PrintBacks(d) + [Sym(AMP)]
  }

  // ----- the parser undoes the printer

  lemma {:induction false} WrapCore<W>(c: Cmd<W>)
    ensures Wrap(Core(c), RedirsOf(c)) == c
  {
    if c.Redir? {
      WrapCore(c.cmd);
      var rs := RedirsOf(c);
      assert rs[..|rs| - 1] == RedirsOf(c.cmd);
    }
  }

  lemma {:induction false} RedirsPrinted<W>(done: seq<Target<W>>, rs: seq<Target<W>>, rest: seq<Token<W>>)
    requires !StartsRedir(rest)
    ensures Redirs(done, PrintRedirs(rs) + rest) == Found(done + rs, rest)
    decreases |rs|
  {
    var ts := PrintRedirs(rs) + rest;
    if rs == [] {
      assert ts == rest && done + rs == done;
    } else {
      assert ts[2..] == PrintRedirs(rs[1..]) + rest;
      RedirsPrinted(done + [rs[0]], rs[1..], rest);
      assert done + [rs[0]] + rs[1..] == done + rs;
    }
  }

  lemma {:induction false} ArgsPrinted<W>(done: seq<W>, args: seq<W>, rs: seq<Target<W>>, after: seq<Token<W>>,
                                          rest: seq<Token<W>>)
    requires Redirs([], after) == Found(rs, rest) && Stops(rest) && |done| + |args| < MAX_ARGS && args != []
    ensures Args(done, [], Words(args) + after) == Ok(Wrap(Exec(done + args), rs), rest)
    decreases |args|
  {
    hide Redirs, Args, Wrap, Words;
    var ts, tail := Words(args) + after, Words(args[1..]) + after;
    WordsFirst(args, after);
    if |args| == 1 {
      NoWords(args[1..], after);
      ArgsStep(done, [], ts, rs, rest);
      ArgsStop(done + [args[0]], rs, rest);
      assert done + [args[0]] == done + args;
    } else {
      WordsFirst(args[1..], after);
      RedirsNone([], tail);
      ArgsStep(done, [], ts, [], tail);
      ArgsPrinted(done + [args[0]], args[1..], rs, after, rest);
      assert done + [args[0]] + args[1..] == done + args;
    }
  }

  lemma WordsFirst<W>(args: seq<W>, after: seq<Token<W>>)
    requires args != []
    ensures var ts := Words(args) + after; ts != [] && ts[0] == Word(args[0]) && ts[1..] == Words(args[1..]) + after
  {
    assert Words(args) + after == [Word(args[0])] + (Words(args[1..]) + after);
  }

  lemma NoWords<W>(args: seq<W>, after: seq<Token<W>>)
    requires args == []
    ensures Words(args) + after == after
  {
  }

  lemma ArgsStep<W>(done: seq<W>, rs: seq<Target<W>>, ts: seq<Token<W>>, rs': seq<Target<W>>, ts': seq<Token<W>>)
    requires ts != [] && ts[0].Word? && |done| + 1 < MAX_ARGS && Redirs(rs, ts[1..]) == Found(rs', ts')
    ensures Args(done, rs, ts) == Args(done + [ts[0].w], rs', ts')
  {
    hide Redirs;
  }

  lemma {:induction false} ExecParsed<W>(c: Cmd<W>, rest: seq<Token<W>>)
    requires Fits(c) && Stops(rest)
    ensures ParseExec(PrintExec(c) + rest) == Ok(c, rest)
    decreases c, 1
  {
    hide ParseLine, ParsePipe, ParseExec, Redirs, Wrap, PrintInner, PrintRedirs, Words;
    WrapCore(c);
    FitsCore(c);
    var core, rs := Core(c), RedirsOf(c);
    var ts := PrintExec(c) + rest;
    if core.Exec? {
      SimpleParsed(core.args, rs, rest);
      assert ts == Words(core.args) + PrintRedirs(rs) + rest;
    } else {
      var behind := PrintRedirs(rs) + rest;
      var closed := [Sym(CLOSE)] + behind;
      assert ts == [Sym(OPEN)] + PrintInner(core) + [Sym(CLOSE)] + PrintRedirs(rs) + rest;
      assert ts[1..] == PrintInner(core) + closed;
      InnerParsed(core, closed);
      assert closed[1..] == behind;
      RedirsPrinted([], rs, rest);
      assert [] + rs == rs;
      BlockStep(ts, core, closed, rs, rest);
    }
  }

  lemma BlockStep<W>(ts: seq<Token<W>>, c: Cmd<W>, closed: seq<Token<W>>, rs: seq<Target<W>>, rest: seq<Token<W>>)
    requires Starts(ts, OPEN) && ParseLine(ts[1..]) == Ok(c, closed) && Starts(closed, CLOSE)
    requires Redirs([], closed[1..]) == Found(rs, rest)
    ensures ParseExec(ts) == Ok(Wrap(c, rs), rest)
  {
    hide ParseLine, Redirs, Wrap;
  }

  lemma SimpleParsed<W>(args: seq<W>, rs: seq<Target<W>>, rest: seq<Token<W>>)
    requires Stops(rest) && |args| < MAX_ARGS
    ensures ParseExec(Words(args) + PrintRedirs(rs) + rest) == Ok(Wrap(Exec(args), rs), rest)
  {
    hide Redirs, Args, ParseExec, Wrap;
    var ts, after := Words(args) + PrintRedirs(rs) + rest, PrintRedirs(rs) + rest;
    assert ts == Words(args) + after;
    RedirsPrinted([], rs, rest);
    assert [] + rs == rs;
    if args == [] {
      assert ts == after;
      SimpleStep(ts, rs, rest);
      ArgsStop(args, rs, rest);
    } else {
      assert ts[0] == Word(args[0]);
      RedirsNone([], ts);
      SimpleStep(ts, [], ts);
      ArgsPrinted([], args, rs, after, rest);
      assert [] + args == args;
    }
  }

  lemma SimpleStep<W>(ts: seq<Token<W>>, rs: seq<Target<W>>, ts': seq<Token<W>>)
    requires !Starts(ts, OPEN) && Redirs([], ts) == Found(rs, ts')
    ensures ParseExec(ts) == Args([], rs, ts')
  {
    hide Redirs, Args;
  }

  lemma ArgsStop<W>(args: seq<W>, rs: seq<Target<W>>, ts: seq<Token<W>>)
    requires Stops(ts)
    ensures Args(args, rs, ts) == Ok(Wrap(Exec(args), rs), ts)
  {
  }

  lemma RedirsNone<W>(rs: seq<Target<W>>, ts: seq<Token<W>>)
    requires !StartsRedir(ts)
    ensures Redirs(rs, ts) == Found(rs, ts)
  {
  }

  lemma PipeStep<W>(ts: seq<Token<W>>, c: Cmd<W>, tail: seq<Token<W>>, d: Cmd<W>, rest: seq<Token<W>>)
    requires ParseExec(ts) == Ok(c, tail) && Starts(tail, BAR) && ParsePipe(tail[1..]) == Ok(d, rest)
    ensures ParsePipe(ts) == Ok(Pipe(c, d), rest)
  {
    hide ParseExec;
  }

  lemma LineStep<W>(ts: seq<Token<W>>, c: Cmd<W>, tail: seq<Token<W>>, d: Cmd<W>, rest: seq<Token<W>>)
    requires ParseBacks(ts) == Ok(c, tail) && Starts(tail, SEMI) && ParseLine(tail[1..]) == Ok(d, rest)
    ensures ParseLine(ts) == Ok(List(c, d), rest)
  {
    hide ParsePipe, Backs;
  }

  lemma LineEnds<W>(ts: seq<Token<W>>, c: Cmd<W>, rest: seq<Token<W>>)
    requires ParseBacks(ts) == Ok(c, rest) && !Starts(rest, SEMI)
    ensures ParseLine(ts) == Ok(c, rest)
  {
    hide ParsePipe, Backs;
  }

  lemma {:induction false} FitsCore<W>(c: Cmd<W>)
    requires Fits(c)
    ensures Fits(Core(c))
  {
    if c.Redir? {
      FitsCore(c.cmd);
    }
  }

  lemma {:induction false} PipeParsed<W>(c: Cmd<W>, rest: seq<Token<W>>)
    requires Fits(c) && Stops(rest) && !Starts(rest, BAR)
    ensures ParsePipe(PrintPipe(c) + rest) == Ok(c, rest)
    decreases c, 2
  {
    hide ParseExec, PrintExec;
    if c.Pipe? {
      var tail := [Sym(BAR)] + (PrintPipe(c.right) + rest);
      assert PrintPipe(c) + rest == PrintExec(c.left) + tail;
      ExecParsed(c.left, tail);
      assert tail[1..] == PrintPipe(c.right) + rest;
      PipeParsed(c.right, rest);
      PipeStep(PrintPipe(c) + rest, c.left, tail, c.right, rest);
    } else {
      ExecParsed(c, rest);
    }
  }

  /** The first half of a line: a pipeline and the ampersands behind it. */
  function ParseBacks<W(==)>(ts: seq<Token<W>>): Parsed<W> {
    match ParsePipe(ts)
    case Panic => Panic
    case Ok(c, rest) => Backs(c, rest)
  }

  lemma {:induction false} BacksParsed<W>(c: Cmd<W>, rest: seq<Token<W>>)
    requires Fits(c) && Stops(rest) && !Starts(rest, BAR)
    ensures ParseBacks(PrintBacks(c) + rest) == Backs(c, rest)
    decreases c, 3
  {
    hide ParsePipe, PrintPipe;
    if c.Back? {
      var tail := [Sym(AMP)] + rest;
      assert PrintBacks(c) + rest == PrintBacks(c.cmd) + tail;
      BacksParsed(c.cmd, tail);
      assert tail[1..] == rest;
    } else {
      PipeParsed(c, rest);
    }
  }

  lemma {:induction false} LineParsed<W>(c: Cmd<W>, rest: seq<Token<W>>)
    requires Fits(c) && (rest == [] || Starts(rest, CLOSE))
    ensures ParseLine(PrintLine(c) + rest) == Ok(c, rest)
    decreases c, 4
  {
    hide ParseBacks, PrintBacks, ParseLine;
    var ts := PrintLine(c) + rest;
    if c.List? {
      var tail := [Sym(SEMI)] + (PrintLine(c.right) + rest);
      assert PrintLine(c) == PrintInner(c);
      assert ts == PrintBacks(c.left) + tail;
      BacksParsed(c.left, tail);
      assert tail[1..] == PrintLine(c.right) + rest;
      LineParsed(c.right, rest);
      LineStep(ts, c.left, tail, c.right, rest);
    } else {
      BacksParsed(c, rest);
      LineEnds(ts, c, rest);
    }
  }

  lemma {:induction false} InnerParsed<W>(c: Cmd<W>, rest: seq<Token<W>>)
    requires Fits(c) && (c.Pipe? || c.List? || c.Back?) && Starts(rest, CLOSE)
    ensures ParseLine(PrintInner(c) + rest) == Ok(c, rest)
    decreases c, 0
  {
    hide ParseLine, ParsePipe, ParseExec, PrintExec, PrintPipe, PrintLine, PrintBacks;
    var ts := PrintInner(c) + rest;
    match c
    case Pipe(l, r) =>
      var tail := [Sym(BAR)] + (PrintPipe(r) + rest);
      assert ts == PrintExec(l) + tail;
      ExecParsed(l, tail);
      assert tail[1..] == PrintPipe(r) + rest;
      PipeParsed(r, rest);
      PipeStep(ts, l, tail, r, rest);
      LineEnds(ts, c, rest);
    case List(l, r) =>
      var tail := [Sym(SEMI)] + (PrintLine(r) + rest);
      assert ts == PrintBacks(l) + tail;
      BacksParsed(l, tail);
      assert tail[1..] == PrintLine(r) + rest;
      LineParsed(r, rest);
      LineStep(ts, l, tail, r, rest);
    case Back(d) =>
      var tail := [Sym(AMP)] + rest;
      assert ts == PrintBacks(d) + tail;
      BacksParsed(d, tail);
      assert tail[1..] == rest;
      LineEnds(ts, c, rest);
  }

  // ----- what the parser builds fits, so printing it loses nothing

  lemma {:induction false} WrapFits<W>(c: Cmd<W>, rs: seq<Target<W>>)
    requires Fits(c)
    ensures Fits(Wrap(c, rs))
  {
    if rs != [] {
      WrapFits(c, rs[..|rs| - 1]);
    }
  }

  lemma {:induction false} ArgsFit<W>(args: seq<W>, rs: seq<Target<W>>, ts: seq<Token<W>>)
    requires |args| < MAX_ARGS && Args(args, rs, ts).Ok?
    ensures Fits(Args(args, rs, ts).cmd) && Stops(Args(args, rs, ts).rest)
    decreases |ts|
  {
    if Stops(ts) {
      WrapFits(Exec(args), rs);
    } else {
      var f := Redirs(rs, ts[1..]);
      ArgsFit(args + [ts[0].w], f.targets, f.rest);
    }
  }

  lemma {:induction false} BacksFit<W>(c: Cmd<W>, ts: seq<Token<W>>)
    requires Fits(c)
    ensures Fits(Backs(c, ts).cmd)
    decreases |ts|
  {
    if Starts(ts, AMP) {
      BacksFit(Back(c), ts[1..]);
    }
  }

  lemma {:induction false} ExecFits<W>(ts: seq<Token<W>>)
    ensures ParseExec(ts).Ok? ==> Fits(ParseExec(ts).cmd)
    decreases |ts|, 1
  {
    if ParseExec(ts).Ok? {
      if Starts(ts, OPEN) {
        LineFits(ts[1..]);
        assert ParseExec(ts) == ParseBlock(ts);
        var inner := ParseLine(ts[1..]);
        WrapFits(inner.cmd, Redirs([], inner.rest[1..]).targets);
      } else {
        var f := Redirs([], ts);
        ArgsFit([], f.targets, f.rest);
      }
    }
  }

  lemma {:induction false} PipeFits<W>(ts: seq<Token<W>>)
    ensures ParsePipe(ts).Ok? ==> Fits(ParsePipe(ts).cmd)
    decreases |ts|, 2
  {
    ExecFits(ts);
    if ParsePipe(ts).Ok? && Starts(ParseExec(ts).rest, BAR) {
      PipeFits(ParseExec(ts).rest[1..]);
    }
  }

  lemma {:induction false} LineFits<W>(ts: seq<Token<W>>)
    ensures ParseLine(ts).Ok? ==> Fits(ParseLine(ts).cmd)
    decreases |ts|, 3
  {
    PipeFits(ts);
    if ParseLine(ts).Ok? {
      var p := ParsePipe(ts);
      BacksFit(p.cmd, p.rest);
      var b := Backs(p.cmd, p.rest);
      if Starts(b.rest, SEMI) {
        LineFits(b.rest[1..]);
      }
    }
  }

  /** Printing what was parsed and parsing that again gives the same command. */
  lemma ReprintStable<W>(ts: seq<Token<W>>)
    requires ParseLine(ts).Ok?
    ensures ParseLine(PrintLine(ParseLine(ts).cmd)) == Ok(ParseLine(ts).cmd, [])
  {
    hide ParseLine, PrintLine;
    var c := ParseLine(ts).cmd;
    LineFits(ts);
    LineParsed(c, []);
    assert PrintLine(c) + [] == PrintLine(c);
  }

  // ----- the parser does not look into words

  function MapToken<W, V>(f: W -> V, t: Token<W>): Token<V> {
    match t
    case Word(w) => Word(f(w))
    case Sym(c) => Sym(c)
  }

  function MapTokens<W, V>(f: W -> V, ts: seq<Token<W>>): (r: seq<Token<V>>)
    ensures |r| == |ts| && forall i | 0 <= i < |ts| :: r[i] == MapToken(f, ts[i])
  {
    seq(|ts|, i requires 0 <= i < |ts| => MapToken(f, ts[i]))
  }

  function MapCmd<W, V>(f: W -> V, c: Cmd<W>): Cmd<V> {
    match c
    case Exec(args) => Exec(MapWords(f, args))
    case Redir(d, file, out) => Redir(MapCmd(f, d), f(file), out)
    case Pipe(l, r) => Pipe(MapCmd(f, l), MapCmd(f, r))
    case List(l, r) => List(MapCmd(f, l), MapCmd(f, r))
    case Back(d) => Back(MapCmd(f, d))
  }

  function MapWords<W, V>(f: W -> V, ws: seq<W>): (r: seq<V>)
    ensures |r| == |ws| && forall i | 0 <= i < |ws| :: r[i] == f(ws[i])
  {
    seq(|ws|, i requires 0 <= i < |ws| => f(ws[i]))
  }

  function MapTargets<W, V>(f: W -> V, rs: seq<Target<W>>): (r: seq<Target<V>>)
    ensures |r| == |rs| && forall i | 0 <= i < |rs| :: r[i] == Target(f(rs[i].file), rs[i].out)
  {
    seq(|rs|, i requires 0 <= i < |rs| => Target(f(rs[i].file), rs[i].out))
  }

  function MapParsed<W, V>(f: W -> V, p: Parsed<W>): Parsed<V> {
    match p
    case Panic => Panic
    case Ok(c, rest) => Ok(MapCmd(f, c), MapTokens(f, rest))
  }

  lemma MapDrop<W, V>(f: W -> V, ts: seq<Token<W>>, k: nat)
    requires k <= |ts|
    ensures MapTokens(f, ts)[k..] == MapTokens(f, ts[k..])
  {
  }

  lemma {:induction false} WrapMap<W, V>(f: W -> V, c: Cmd<W>, rs: seq<Target<W>>)
    ensures MapCmd(f, Wrap(c, rs)) == Wrap(MapCmd(f, c), MapTargets(f, rs))
  {
    if rs != [] {
      var last := |rs| - 1;
      assert MapTargets(f, rs)[..last] == MapTargets(f, rs[..last]);
      WrapMap(f, c, rs[..last]);
    }
  }

  lemma {:induction false} RedirsMap<W, V>(f: W -> V, rs: seq<Target<W>>, ts: seq<Token<W>>)
    ensures var r, r' := Redirs(rs, ts), Redirs(MapTargets(f, rs), MapTokens(f, ts));
      if r.NoFile? then r'.NoFile? else r' == Found(MapTargets(f, r.targets), MapTokens(f, r.rest))
    decreases |ts|
  {
    if StartsRedir(ts) && |ts| >= 2 && ts[1].Word? {
      var rs' := rs + [Target(ts[1].w, ts[0].c != LESS)];
      MapDrop(f, ts, 2);
      assert MapTargets(f, rs') == MapTargets(f, rs) + [Target(f(ts[1].w), ts[0].c != LESS)];
      RedirsMap(f, rs', ts[2..]);
    }
  }

  lemma {:induction false} ArgsMap<W, V>(f: W -> V, args: seq<W>, rs: seq<Target<W>>, ts: seq<Token<W>>)
    ensures MapParsed(f, Args(args, rs, ts)) == Args(MapWords(f, args), MapTargets(f, rs), MapTokens(f, ts))
    decreases |ts|
  {
    hide Redirs, Wrap;
    if Stops(ts) {
      WrapMap(f, Exec(args), rs);
      ArgsStop(MapWords(f, args), MapTargets(f, rs), MapTokens(f, ts));
    } else if ts[0].Word? && |args| + 1 < MAX_ARGS {
      MapDrop(f, ts, 1);
      RedirsMap(f, rs, ts[1..]);
      var r := Redirs(rs, ts[1..]);
      if r.Found? {
        ArgsMap(f, args + [ts[0].w], r.targets, r.rest);
        assert MapWords(f, args + [ts[0].w]) == MapWords(f, args) + [f(ts[0].w)];
      }
    }
  }

  lemma {:induction false} BacksMap<W, V>(f: W -> V, c: Cmd<W>, ts: seq<Token<W>>)
    ensures MapParsed(f, Backs(c, ts)) == Backs(MapCmd(f, c), MapTokens(f, ts))
    decreases |ts|
  {
    if Starts(ts, AMP) {
      MapDrop(f, ts, 1);
      BacksMap(f, Back(c), ts[1..]);
    }
  }

  lemma {:induction false} BlockMap<W, V>(f: W -> V, ts: seq<Token<W>>)
    requires Starts(ts, OPEN)
    ensures MapParsed(f, ParseBlock(ts)) == ParseBlock(MapTokens(f, ts))
    decreases |ts|, 0
  {
    hide Redirs, Wrap;
    MapDrop(f, ts, 1);
    LineMap(f, ts[1..]);
    var p := ParseLine(ts[1..]);
    if p.Ok? && Starts(p.rest, CLOSE) {
      MapDrop(f, p.rest, 1);
      assert MapTargets(f, []) == [];
      RedirsMap(f, [], p.rest[1..]);
      var r := Redirs([], p.rest[1..]);
      if r.Found? {
        WrapMap(f, p.cmd, r.targets);
      }
    }
  }

  lemma {:induction false} ExecMap<W, V>(f: W -> V, ts: seq<Token<W>>)
    ensures MapParsed(f, ParseExec(ts)) == ParseExec(MapTokens(f, ts))
    decreases |ts|, 1
  {
    hide Redirs, Args, ParseBlock;
    if Starts(ts, OPEN) {
      BlockMap(f, ts);
    } else {
      assert MapTargets(f, []) == [] && MapWords(f, []) == [];
      RedirsMap(f, [], ts);
      var r := Redirs([], ts);
      if r.Found? {
        ArgsMap(f, [], r.targets, r.rest);
      }
    }
  }

  lemma {:induction false} PipeMap<W, V>(f: W -> V, ts: seq<Token<W>>)
    ensures MapParsed(f, ParsePipe(ts)) == ParsePipe(MapTokens(f, ts))
    decreases |ts|, 2
  {
    hide ParseExec;
    ExecMap(f, ts);
    var p := ParseExec(ts);
    if p.Ok? && Starts(p.rest, BAR) {
      MapDrop(f, p.rest, 1);
      PipeMap(f, p.rest[1..]);
    }
  }

  lemma {:induction false} LineMap<W, V>(f: W -> V, ts: seq<Token<W>>)
    ensures MapParsed(f, ParseLine(ts)) == ParseLine(MapTokens(f, ts))
    decreases |ts|, 3
  {
    hide ParsePipe, Backs;
    PipeMap(f, ts);
    var p := ParsePipe(ts);
    if p.Ok? {
      BacksMap(f, p.cmd, p.rest);
      var b := Backs(p.cmd, p.rest);
      if Starts(b.rest, SEMI) {
        MapDrop(f, b.rest, 1);
        LineMap(f, b.rest[1..]);
      }
    }
  }
}
