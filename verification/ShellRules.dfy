/**
 The command language of user/sh.c as grammar rules over tokens, apart from any parser, and the theorem that
 the parser of `ShellGrammar` reads exactly this language.
 */
module ShellRules {
  import opened CString
  import opened ShellGrammar

  // ----- the rules

  /** What a reading ends with: a simple command, a block with its redirections, or an ampersand. */
  datatype End = Open | Shut | Cut

  /** `< file` reads from the file; `> file` and `>> file` write to it. */
  ghost predicate RedirRule<W(!new)>(op: Token<W>, file: Token<W>, r: Target<W>) {
    && file == Word(r.file)
    && if r.out then op == Sym('>' as int) || op == Sym(PLUS) else op == Sym('<' as int)
  }

  /** Words and redirections in any order: each word is an argument, each redirection a target. */
  ghost predicate Parts<W(!new)>(p: seq<Token<W>>, args: seq<W>, rs: seq<Target<W>>)
    decreases |p|
  {
    var n, a, r := |p|, |args|, |rs|;
    || (n == a == r == 0)
    || (n >= 1 && a >= 1 && p[n - 1] == Word(args[a - 1]) && Parts(p[..n - 1], args[..a - 1], rs))
    || (n >= 2 && r >= 1 && RedirRule(p[n - 2], p[n - 1], rs[r - 1]) && Parts(p[..n - 2], args, rs[..r - 1]))
  }

  /** A command inside its redirections, the last one outermost. */
  ghost predicate Around<W(!new)>(c: Cmd<W>, core: Cmd<W>, rs: seq<Target<W>>)
    decreases |rs|
  {
    if rs == [] then c == core
    else c.Redir? && Target(c.file, c.out) == rs[|rs| - 1] && Around(c.cmd, core, rs[..|rs| - 1])
  }

  /** Fewer than ten words. */
  ghost predicate SimpleRule<W(!new)>(p: seq<Token<W>>, c: Cmd<W>) {
    exists args, rs :: Parts(p, args, rs) && |args| < 10 && Around(c, Exec(args), rs)
  }

  /** A line in parentheses, and redirections behind it. */
  ghost predicate BlockRule<W(!new)>(p: seq<Token<W>>, c: Cmd<W>)
    decreases |p|, 0
  {
    var n := |p|;
    || (n >= 2 && p[0] == Sym('(' as int) && p[n - 1] == Sym(')' as int) && Derives(p[1..n - 1], c))
    || (n >= 2 && c.Redir? && RedirRule(p[n - 2], p[n - 1], Target(c.file, c.out)) && BlockRule(p[..n - 2], c.cmd))
  }

  ghost predicate ExecRule<W(!new)>(p: seq<Token<W>>, c: Cmd<W>, e: End)
    decreases |p|, 1
  {
    (e == Open && SimpleRule(p, c)) || (e == Shut && BlockRule(p, c))
  }

  /** Commands joined by bars, to the right. */
  ghost predicate PipeRule<W(!new)>(p: seq<Token<W>>, c: Cmd<W>, e: End)
    decreases |p|, 2
  {
    || ExecRule(p, c, e)
    || (c.Pipe? && exists i, f ::
          0 <= i < |p| && p[i] == Sym('|' as int) && ExecRule(p[..i], c.left, f) && PipeRule(p[i + 1..], c.right, e))
  }

  /** A pipeline, and an ampersand for each time it is put in the background. */
  ghost predicate BackRule<W(!new)>(p: seq<Token<W>>, c: Cmd<W>, e: End)
    decreases |p|, 3
  {
    var n := |p|;
    || PipeRule(p, c, e)
    || (n >= 1 && c.Back? && e == Cut && p[n - 1] == Sym('&' as int) && BackSome(p[..n - 1], c.cmd))
  }

  ghost predicate BackSome<W(!new)>(p: seq<Token<W>>, c: Cmd<W>)
    decreases |p|, 4
  {
    BackRule(p, c, Open) || BackRule(p, c, Shut) || BackRule(p, c, Cut)
  }

  /** Such commands with semicolons between them, to the right. */
  ghost predicate LineRule<W(!new)>(p: seq<Token<W>>, c: Cmd<W>, e: End)
    decreases |p|, 5
  {
    || BackRule(p, c, e)
    || (c.List? && exists i, f ::
          0 <= i < |p| && p[i] == Sym(';' as int) && BackRule(p[..i], c.left, f) && LineRule(p[i + 1..], c.right, e))
  }

  /** The tokens are a line that means the command. */
  ghost predicate Derives<W(!new)>(p: seq<Token<W>>, c: Cmd<W>)
    decreases |p|, 6
  {
    LineRule(p, c, Open) || LineRule(p, c, Shut) || LineRule(p, c, Cut)
  }

  /** What follows does not go on with the line: behind a simple command, only a closing parenthesis. */
  ghost predicate Ends<W(!new)>(e: End, rest: seq<Token<W>>) {
    rest == [] ||
    match e
    case Open => rest[0] == Sym(')' as int)
    case Shut =>
      && rest[0] != Sym('<' as int) && rest[0] != Sym('>' as int) && rest[0] != Sym(PLUS)
      && rest[0] != Sym('|' as int) && rest[0] != Sym('&' as int) && rest[0] != Sym(';' as int)
    case Cut => rest[0] != Sym('&' as int) && rest[0] != Sym(';' as int)
  }

  lemma DerivesEnd<W(!new)>(p: seq<Token<W>>, c: Cmd<W>) returns (e: End)
    requires Derives(p, c)
    ensures LineRule(p, c, e)
  {
    hide BackRule;
    e := if LineRule(p, c, Open) then Open else if LineRule(p, c, Shut) then Shut else Cut;
  }

  lemma EndDerives<W(!new)>(p: seq<Token<W>>, c: Cmd<W>, e: End)
    requires LineRule(p, c, e)
    ensures Derives(p, c)
  {
    hide BackRule;
  }

  lemma EndsEmpty<W(!new)>(e: End)
    ensures Ends<W>(e, [])
  {
  }

  // ----- where the parser's levels stop

  ghost predicate ExecHalts<W(!new)>(e: End, rest: seq<Token<W>>) {
    match e
    case Open => Stops(rest)
    case Shut => !StartsRedir(rest)
    case Cut => true
  }

  ghost predicate PipeHalts<W(!new)>(e: End, rest: seq<Token<W>>) {
    e == Cut || (ExecHalts(e, rest) && !Starts(rest, BAR))
  }

  lemma EndsMeans<W(!new)>(e: End, rest: seq<Token<W>>)
    ensures Ends(e, rest) <==> PipeHalts(e, rest) && !Starts(rest, AMP) && !Starts(rest, SEMI)
  {
  }

  // ----- simple commands

  lemma {:induction false} WrapIsAround<W(!new)>(core: Cmd<W>, rs: seq<Target<W>>, c: Cmd<W>)
    ensures Around(c, core, rs) <==> c == Wrap(core, rs)
    decreases |rs|
  {
    if rs != [] {
      if c.Redir? {
        WrapIsAround(core, rs[..|rs| - 1], c.cmd);
      }
    }
  }

  /** Reading goes on: redirections, then words. */
  ghost function Cont<W(!new)>(args: seq<W>, rs: seq<Target<W>>, ts: seq<Token<W>>): Parsed<W> {
    match Redirs(rs, ts)
    case NoFile => Panic
    case Found(rs', ts') => Args(args, rs', ts')
  }

  lemma ContRedir<W(!new)>(args: seq<W>, rs: seq<Target<W>>, op: Token<W>, file: Token<W>, r: Target<W>,
                             ts: seq<Token<W>>)
    requires RedirRule(op, file, r)
    ensures Redirs(rs, [op, file] + ts) == Redirs(rs + [r], ts)
    ensures Cont(args, rs, [op, file] + ts) == Cont(args, rs + [r], ts)
  {
    var all := [op, file] + ts;
    assert all[2..] == ts && Target(all[1].w, all[0].c != LESS) == r;
  }

  lemma ContWord<W(!new)>(args: seq<W>, rs: seq<Target<W>>, w: W, ts: seq<Token<W>>)
    requires |args| + 1 < MAX_ARGS
    ensures Cont(args, rs, [Word(w)] + ts) == Cont(args + [w], rs, ts)
  {
    hide Redirs;
    var all := [Word(w)] + ts;
    assert all[1..] == ts;
    RedirsNone(rs, all);
  }

  /** What was read so far is all that the rest of the reading depends on. */
  lemma {:induction false} PartsRead<W(!new)>(p: seq<Token<W>>, args: seq<W>, rs: seq<Target<W>>, ts: seq<Token<W>>)
    requires Parts(p, args, rs) && |args| < MAX_ARGS
    ensures Cont([], [], p + ts) == Cont(args, rs, ts)
    decreases |p|
  {
    hide Cont;
    var n, a, r := |p|, |args|, |rs|;
    if n == a == r == 0 {
      assert p + ts == ts && args == [] && rs == [];
    } else if n >= 1 && a >= 1 && p[n - 1] == Word(args[a - 1]) && Parts(p[..n - 1], args[..a - 1], rs) {
      var w := args[a - 1];
      assert p + ts == p[..n - 1] + ([Word(w)] + ts) && args == args[..a - 1] + [w];
      PartsRead(p[..n - 1], args[..a - 1], rs, [Word(w)] + ts);
      ContWord(args[..a - 1], rs, w, ts);
    } else {
      assert p + ts == p[..n - 2] + ([p[n - 2], p[n - 1]] + ts) && rs == rs[..r - 1] + [rs[r - 1]];
      PartsRead(p[..n - 2], args, rs[..r - 1], [p[n - 2], p[n - 1]] + ts);
      ContRedir(args, rs[..r - 1], p[n - 2], p[n - 1], rs[r - 1], ts);
    }
  }

  lemma {:induction false} PartsHead<W(!new)>(p: seq<Token<W>>, args: seq<W>, rs: seq<Target<W>>)
    requires Parts(p, args, rs) && p != []
    ensures p[0].Word? || StartsRedir(p)
    decreases |p|
  {
    var n, a, r := |p|, |args|, |rs|;
    if n >= 1 && a >= 1 && p[n - 1] == Word(args[a - 1]) && Parts(p[..n - 1], args[..a - 1], rs) {
      if n > 1 {
        PartsHead(p[..n - 1], args[..a - 1], rs);
      }
    } else if n > 2 {
      PartsHead(p[..n - 2], args, rs[..r - 1]);
    }
  }

  lemma SimpleRead<W(!new)>(p: seq<Token<W>>, c: Cmd<W>, rest: seq<Token<W>>)
    requires SimpleRule(p, c) && Stops(rest)
    ensures ParseExec(p + rest) == Ok(c, rest)
  {
    hide Parts, Around, Redirs, Args, Wrap, ParseExec;
    var args, rs :| Parts(p, args, rs) && |args| < 10 && Around(c, Exec(args), rs);
    WrapIsAround(Exec(args), rs, c);
    PartsRead(p, args, rs, rest);
    if p != [] {
      PartsHead(p, args, rs);
    }
    ExecIsCont(p + rest);
    RedirsNone(rs, rest);
    ArgsStop(args, rs, rest);
  }

  lemma ExecIsCont<W(!new)>(ts: seq<Token<W>>)
    requires !Starts(ts, OPEN)
    ensures ParseExec(ts) == Cont([], [], ts)
  {
    hide Redirs, Args;
  }

  lemma PartsRedir<W(!new)>(p: seq<Token<W>>, args: seq<W>, rs: seq<Target<W>>, op: Token<W>, file: Token<W>,
                              r: Target<W>)
    requires Parts(p, args, rs) && RedirRule(op, file, r)
    ensures Parts(p + [op, file], args, rs + [r])
  {
    var p', rs' := p + [op, file], rs + [r];
    assert p'[..|p'| - 2] == p && rs'[..|rs'| - 1] == rs;
  }

  lemma PartsWord<W(!new)>(p: seq<Token<W>>, args: seq<W>, rs: seq<Target<W>>, w: W)
    requires Parts(p, args, rs)
    ensures Parts(p + [Word(w)], args + [w], rs)
  {
    var p', args' := p + [Word(w)], args + [w];
    assert p'[..|p'| - 1] == p && args'[..|args'| - 1] == args;
  }

  /** The redirections the parser collects, behind what it has read. */
  lemma {:induction false} RedirsRead<W(!new)>(p: seq<Token<W>>, args: seq<W>, rs: seq<Target<W>>, ts: seq<Token<W>>)
    returns (k: nat)
    requires Parts(p, args, rs) && Redirs(rs, ts).Found?
    ensures k <= |ts| && Redirs(rs, ts).rest == ts[k..] && !StartsRedir(ts[k..])
    ensures Parts(p + ts[..k], args, Redirs(rs, ts).targets)
    decreases |ts|
  {
    hide Parts, Redirs, RedirRule;
    if StartsRedir(ts) {
      var r := RedirsUnfold(rs, ts);
      PartsRedir(p, args, rs, ts[0], ts[1], r);
      var h := RedirsRead(p + [ts[0], ts[1]], args, rs + [r], ts[2..]);
      k := h + 2;
      JoinTwo(p, ts, h);
    } else {
      RedirsNone(rs, ts);
      k := 0;
      assert p + ts[..0] == p;
    }
  }

  lemma RedirsUnfold<W(!new)>(rs: seq<Target<W>>, ts: seq<Token<W>>) returns (r: Target<W>)
    requires StartsRedir(ts) && Redirs(rs, ts).Found?
    ensures |ts| >= 2 && RedirRule(ts[0], ts[1], r) && Redirs(rs, ts) == Redirs(rs + [r], ts[2..])
  {
    r := Target(ts[1].w, ts[0].c != LESS);
  }

  lemma JoinTwo<T>(p: seq<T>, ts: seq<T>, h: nat)
    requires h + 2 <= |ts|
    ensures p + [ts[0], ts[1]] + ts[2..][..h] == p + ts[..h + 2] && ts[2..][h..] == ts[h + 2..]
  {
  }

  lemma {:induction false} ArgsRead<W(!new)>(p: seq<Token<W>>, args: seq<W>, rs: seq<Target<W>>, ts: seq<Token<W>>)
    returns (k: nat)
    requires Parts(p, args, rs) && |args| < MAX_ARGS && Args(args, rs, ts).Ok?
    ensures k <= |ts| && Args(args, rs, ts).rest == ts[k..] && Stops(ts[k..])
    ensures SimpleRule(p + ts[..k], Args(args, rs, ts).cmd)
    decreases |ts|
  {
    hide Parts, Redirs, Wrap, Around, SimpleRule, Args;
    ArgsUnfold(args, rs, ts);
    if Stops(ts) {
      k := 0;
      assert p + ts[..0] == p;
      PartsSimple(p, args, rs);
    } else {
      var w := ts[0].w;
      PartsWord(p, args, rs, w);
      var h := RedirsRead(p + [Word(w)], args + [w], rs, ts[1..]);
      var f := Redirs(rs, ts[1..]);
      var g := ArgsRead(p + [Word(w)] + ts[1..][..h], args + [w], f.targets, f.rest);
      k := 1 + h + g;
      Regroup(p, Word(w), ts, h, g);
    }
  }

  lemma ArgsUnfold<W(!new)>(args: seq<W>, rs: seq<Target<W>>, ts: seq<Token<W>>)
    requires Args(args, rs, ts).Ok?
    ensures if Stops(ts) then Args(args, rs, ts) == Ok(Wrap(Exec(args), rs), ts)
            else
              && ts[0].Word? && |args| + 1 < MAX_ARGS && Redirs(rs, ts[1..]).Found?
              && Args(args, rs, ts) == Args(args + [ts[0].w], Redirs(rs, ts[1..]).targets, Redirs(rs, ts[1..]).rest)
  {
    hide Redirs, Wrap;
  }

  lemma PartsSimple<W(!new)>(p: seq<Token<W>>, args: seq<W>, rs: seq<Target<W>>)
    requires Parts(p, args, rs) && |args| < MAX_ARGS
    ensures SimpleRule(p, Wrap(Exec(args), rs))
  {
    hide Parts, Around;
    WrapIsAround(Exec(args), rs, Wrap(Exec(args), rs));
  }

  lemma Regroup<T>(p: seq<T>, first: T, ts: seq<T>, h: nat, g: nat)
    requires 1 + h + g <= |ts| && first == ts[0]
    ensures p + [first] + ts[1..][..h] + ts[1..][h..][..g] == p + ts[..1 + h + g]
    ensures ts[1..][h..][g..] == ts[1 + h + g..]
  {
    assert ts[1..][..h] == ts[1..1 + h] && ts[1..][h..][..g] == ts[1 + h..1 + h + g];
  }

  lemma Behind<T>(ts: seq<T>, m: nat)
    requires m < |ts|
    ensures ts[m..][1..] == ts[m + 1..] && ts[m..][0] == ts[m]
  {
  }

  lemma Join<T>(ts: seq<T>, i: nat, j: nat)
    requires i + j <= |ts|
    ensures ts[..i] + ts[i..][..j] == ts[..i + j] && ts[i..][j..] == ts[i + j..]
  {
  }

  // ----- blocks, pipes and lines: what the rules allow is read

  /** A block is read up to its redirections. */
  lemma {:induction false} BlockRead<W(!new)>(p: seq<Token<W>>, c: Cmd<W>) returns (core: Cmd<W>, rs: seq<Target<W>>)
    requires BlockRule(p, c)
    ensures p != [] && p[0] == Sym(OPEN) && c == Wrap(core, rs)
    ensures forall ts :: BlockCont(core, rs, ts) == ParseBlock(p + ts)
    decreases |p|, 0
  {
    hide ParseLine, Redirs, Wrap, LineRule, ParseBlock;
    var n := |p|;
    if p[0] == Sym(OPEN) && p[n - 1] == Sym(CLOSE) && Derives(p[1..n - 1], c) {
      core, rs := c, [];
      var e := DerivesEnd(p[1..n - 1], c);
      forall ts ensures BlockCont(core, rs, ts) == ParseBlock(p + ts) {
        var closed := [Sym(CLOSE)] + ts;
        LineRead(p[1..n - 1], c, e, closed);
        assert (p + ts)[1..] == p[1..n - 1] + closed && closed[1..] == ts;
        BlockIsCont(p + ts, c, closed);
      }
      WrapNone(c);
    } else {
      var r := Target(c.file, c.out);
      var rs';
      core, rs' := BlockRead(p[..n - 2], c.cmd);
      rs := rs' + [r];
      WrapMore(core, rs', r);
      forall ts ensures BlockCont(core, rs, ts) == ParseBlock(p + ts) {
        var more := [p[n - 2], p[n - 1]] + ts;
        assert p + ts == p[..n - 2] + more;
        assert BlockCont(core, rs', more) == ParseBlock(p[..n - 2] + more);
        ContRedir([], rs', p[n - 2], p[n - 1], r, ts);
      }
    }
  }

  /** The redirections behind a block. */
  ghost function BlockCont<W(!new)>(core: Cmd<W>, rs: seq<Target<W>>, ts: seq<Token<W>>): Parsed<W> {
    match Redirs(rs, ts)
    case NoFile => Panic
    case Found(rs', rest) => Ok(Wrap(core, rs'), rest)
  }

  lemma BlockIsCont<W(!new)>(ts: seq<Token<W>>, c: Cmd<W>, closed: seq<Token<W>>)
    requires Starts(ts, OPEN) && ParseLine(ts[1..]) == Ok(c, closed) && Starts(closed, CLOSE)
    ensures ParseBlock(ts) == BlockCont(c, [], closed[1..])
  {
    hide ParseLine, Redirs, Wrap;
  }

  lemma WrapNone<W(!new)>(c: Cmd<W>)
    ensures Wrap(c, []) == c
  {
  }

  lemma WrapMore<W(!new)>(c: Cmd<W>, rs: seq<Target<W>>, r: Target<W>)
    ensures Wrap(c, rs + [r]) == Redir(Wrap(c, rs), r.file, r.out)
  {
    assert (rs + [r])[..|rs|] == rs;
  }

  lemma {:induction false} ExecRead<W(!new)>(p: seq<Token<W>>, c: Cmd<W>, e: End, rest: seq<Token<W>>)
    requires ExecRule(p, c, e) && ExecHalts(e, rest)
    ensures e != Cut && ParseExec(p + rest) == Ok(c, rest)
    decreases |p|, 1
  {
    hide BlockRule, SimpleRule, ParseBlock, Redirs, Wrap, Args;
    if e == Open {
      SimpleRead(p, c, rest);
    } else {
      var core, rs := BlockRead(p, c);
      RedirsNone(rs, rest);
      assert BlockCont(core, rs, rest) == ParseBlock(p + rest);
    }
  }

  lemma {:induction false} PipeRead<W(!new)>(p: seq<Token<W>>, c: Cmd<W>, e: End, rest: seq<Token<W>>)
    requires PipeRule(p, c, e) && PipeHalts(e, rest)
    ensures e != Cut && ParsePipe(p + rest) == Ok(c, rest)
    decreases |p|, 2
  {
    hide ExecRule, ParseExec;
    if ExecRule(p, c, e) {
      ExecRead(p, c, e, rest);
    } else {
      var i, f :|
        0 <= i < |p| && p[i] == Sym(BAR) && ExecRule(p[..i], c.left, f) && PipeRule(p[i + 1..], c.right, e);
      var tail := [Sym(BAR)] + (p[i + 1..] + rest);
      assert p + rest == p[..i] + tail && tail[1..] == p[i + 1..] + rest;
      ExecRead(p[..i], c.left, f, tail);
      PipeRead(p[i + 1..], c.right, e, rest);
      PipeStep(p + rest, c.left, tail, c.right, rest);
    }
  }

  lemma {:induction false} BackRead<W(!new)>(p: seq<Token<W>>, c: Cmd<W>, e: End, rest: seq<Token<W>>)
    requires BackRule(p, c, e) && PipeHalts(e, rest)
    ensures ParseBacks(p + rest) == Backs(c, rest)
    decreases |p|, 3
  {
    hide PipeRule, ParsePipe;
    if PipeRule(p, c, e) {
      PipeRead(p, c, e, rest);
    } else {
      var n := |p|;
      var f :| f in {Open, Shut, Cut} && BackRule(p[..n - 1], c.cmd, f);
      var tail := [Sym(AMP)] + rest;
      assert p + rest == p[..n - 1] + tail && tail[1..] == rest;
      BackRead(p[..n - 1], c.cmd, f, tail);
    }
  }

  lemma {:induction false} LineRead<W(!new)>(p: seq<Token<W>>, c: Cmd<W>, e: End, rest: seq<Token<W>>)
    requires LineRule(p, c, e) && Ends(e, rest)
    ensures ParseLine(p + rest) == Ok(c, rest)
    decreases |p|, 4
  {
    hide BackRule, ParseBacks, ParseLine;
    EndsMeans(e, rest);
    if BackRule(p, c, e) {
      BackRead(p, c, e, rest);
      LineEnds(p + rest, c, rest);
    } else {
      var i, f :|
        0 <= i < |p| && p[i] == Sym(SEMI) && BackRule(p[..i], c.left, f) && LineRule(p[i + 1..], c.right, e);
      var tail := [Sym(SEMI)] + (p[i + 1..] + rest);
      assert p + rest == p[..i] + tail && tail[1..] == p[i + 1..] + rest;
      BackRead(p[..i], c.left, f, tail);
      LineRead(p[i + 1..], c.right, e, rest);
      LineStep(p + rest, c.left, tail, c.right, rest);
    }
  }

  // ----- what is read, the rules allow

  lemma {:induction false} BlockTail<W(!new)>(p: seq<Token<W>>, core: Cmd<W>, rs: seq<Target<W>>, ts: seq<Token<W>>)
    returns (k: nat)
    requires BlockRule(p, Wrap(core, rs)) && Redirs(rs, ts).Found?
    ensures k <= |ts| && Redirs(rs, ts).rest == ts[k..] && !StartsRedir(ts[k..])
    ensures BlockRule(p + ts[..k], Wrap(core, Redirs(rs, ts).targets))
    decreases |ts|
  {
    hide BlockRule, Wrap, Redirs, RedirRule;
    if StartsRedir(ts) {
      var r := RedirsUnfold(rs, ts);
      BlockMore(p, Wrap(core, rs), ts[0], ts[1], r);
      WrapMore(core, rs, r);
      var h := BlockTail(p + [ts[0], ts[1]], core, rs + [r], ts[2..]);
      k := h + 2;
      JoinTwo(p, ts, h);
    } else {
      RedirsNone(rs, ts);
      k := 0;
      assert p + ts[..0] == p;
    }
  }

  lemma BlockMore<W(!new)>(p: seq<Token<W>>, c: Cmd<W>, op: Token<W>, file: Token<W>, r: Target<W>)
    requires BlockRule(p, c) && RedirRule(op, file, r)
    ensures BlockRule(p + [op, file], Redir(c, r.file, r.out))
  {
    var p' := p + [op, file];
    assert p'[..|p'| - 2] == p;
  }

  lemma {:induction false} ExecSound<W(!new)>(ts: seq<Token<W>>) returns (k: nat, e: End)
    requires ParseExec(ts).Ok?
    ensures k <= |ts| && ParseExec(ts).rest == ts[k..] && ExecRule(ts[..k], ParseExec(ts).cmd, e)
    ensures ExecHalts(e, ts[k..]) && e != Cut
    decreases |ts|, 1
  {
    hide Redirs, Args, Wrap, ParseLine, SimpleRule, BlockRule, Parts;
    if Starts(ts, OPEN) {
      e := Shut;
      var i, f := LineSound(ts[1..]);
      k := BlockSound(ts, i, f);
    } else {
      e := Open;
      NoParts<W>();
      var h := RedirsRead([], [], [], ts);
      assert [] + ts[..h] == ts[..h];
      var f := Redirs([], ts);
      var g := ArgsRead(ts[..h], [], f.targets, f.rest);
      k := h + g;
      Join(ts, h, g);
    }
  }

  lemma BlockSound<W(!new)>(ts: seq<Token<W>>, i: nat, f: End) returns (k: nat)
    requires Starts(ts, OPEN) && ParseExec(ts).Ok? && i <= |ts| - 1
    requires ParseLine(ts[1..]).Ok? && ParseLine(ts[1..]).rest == ts[1..][i..]
    requires LineRule(ts[1..][..i], ParseLine(ts[1..]).cmd, f)
    ensures k <= |ts| && ParseExec(ts).rest == ts[k..] && BlockRule(ts[..k], ParseExec(ts).cmd)
    ensures !StartsRedir(ts[k..])
  {
    hide Redirs, Wrap, ParseLine, BlockRule, LineRule;
    var inner := ParseLine(ts[1..]);
    assert ParseExec(ts) == ParseBlock(ts);
    assert inner.rest == ts[i + 1..] && inner.rest[1..] == ts[i + 2..];
    BlockPlain(ts, i, inner.cmd, f);
    WrapNone(inner.cmd);
    var h := BlockTail(ts[..i + 2], inner.cmd, [], ts[i + 2..]);
    k := i + 2 + h;
    Join(ts, i + 2, h);
  }

  lemma NoParts<W(!new)>()
    ensures Parts<W>([], [], [])
  {
  }

  lemma BlockPlain<W(!new)>(ts: seq<Token<W>>, i: nat, c: Cmd<W>, f: End)
    requires Starts(ts, OPEN) && i + 1 < |ts| && LineRule(ts[1..][..i], c, f) && ts[i + 1] == Sym(CLOSE)
    ensures BlockRule(ts[..i + 2], c)
  {
    hide LineRule;
    var p := ts[..i + 2];
    assert p[1..|p| - 1] == ts[1..][..i];
  }

  lemma {:induction false} PipeSound<W(!new)>(ts: seq<Token<W>>) returns (k: nat, e: End)
    requires ParsePipe(ts).Ok?
    ensures k <= |ts| && ParsePipe(ts).rest == ts[k..] && PipeRule(ts[..k], ParsePipe(ts).cmd, e)
    ensures PipeHalts(e, ts[k..]) && e != Cut
    decreases |ts|, 2
  {
    hide ParseExec, ExecRule;
    k, e := ExecSound(ts);
    var c, i := ParseExec(ts).cmd, k;
    if Starts(ts[i..], BAR) {
      var right := ParsePipe(ts[i + 1..]);
      assert ts[i..][1..] == ts[i + 1..];
      var f := e;
      var h;
      h, e := PipeSound(ts[i + 1..]);
      k := i + 1 + h;
      var p := ts[..k];
      assert p[..i] == ts[..i] && p[i] == Sym(BAR) && p[i + 1..] == ts[i + 1..][..h] && ts[i + 1..][h..] == ts[k..];
      assert ExecRule(p[..i], c, f) && PipeRule(p[i + 1..], right.cmd, e);
    }
  }

  lemma {:induction false} BacksSound<W(!new)>(p: seq<Token<W>>, c: Cmd<W>, e: End, ts: seq<Token<W>>)
    returns (k: nat, f: End)
    requires BackRule(p, c, e)
    ensures k <= |ts| && Backs(c, ts).rest == ts[k..] && BackRule(p + ts[..k], Backs(c, ts).cmd, f)
    ensures !Starts(ts[k..], AMP) && f == if k == 0 then e else Cut
    decreases |ts|
  {
    hide BackRule;
    if Starts(ts, AMP) {
      var p' := p + [ts[0]];
      BackMore(p, c, e);
      var h;
      h, f := BacksSound(p', Back(c), Cut, ts[1..]);
      k := h + 1;
      assert p' + ts[1..][..h] == p + ts[..k] && ts[1..][h..] == ts[k..];
    } else {
      k, f := 0, e;
      assert p + ts[..0] == p;
    }
  }

  lemma BackMore<W(!new)>(p: seq<Token<W>>, c: Cmd<W>, e: End)
    requires BackRule(p, c, e)
    ensures BackRule(p + [Sym(AMP)], Back(c), Cut)
  {
    hide PipeRule;
    var p' := p + [Sym(AMP)];
    assert p'[..|p'| - 1] == p;
  }

  lemma {:induction false} LineSound<W(!new)>(ts: seq<Token<W>>) returns (k: nat, e: End)
    requires ParseLine(ts).Ok?
    ensures k <= |ts| && ParseLine(ts).rest == ts[k..] && LineRule(ts[..k], ParseLine(ts).cmd, e) && Ends(e, ts[k..])
    decreases |ts|, 3
  {
    hide ParsePipe, PipeRule, Backs, BackRule, LineRule, Ends, ParseLine;
    LineUnfolds(ts);
    var i, f := PipeSound(ts);
    var c := ParsePipe(ts).cmd;
    PipeIsBack(ts[..i], c, f);
    var j, g := BacksSound(ts[..i], c, f, ts[i..]);
    var b, m := Backs(c, ts[i..]).cmd, i + j;
    Join(ts, i, j);
    if Starts(ts[m..], SEMI) {
      Behind(ts, m);
      var h;
      h, e := LineSound(ts[m + 1..]);
      k := m + 1 + h;
      Join(ts, m + 1, h);
      ListRule(ts, m, h, b, g, ParseLine(ts[m + 1..]).cmd, e);
    } else {
      BackIsLine(ts[..m], b, g);
      k, e := m, g;
      EndsMeans(e, ts[k..]);
    }
  }

  lemma LineUnfolds<W(!new)>(ts: seq<Token<W>>)
    requires ParseLine(ts).Ok?
    ensures ParsePipe(ts).Ok?
    ensures var b := Backs(ParsePipe(ts).cmd, ParsePipe(ts).rest);
            if !Starts(b.rest, SEMI) then ParseLine(ts) == b
            else ParseLine(b.rest[1..]).Ok?
                 && ParseLine(ts) == Ok(List(b.cmd, ParseLine(b.rest[1..]).cmd), ParseLine(b.rest[1..]).rest)
  {
    hide ParsePipe, Backs;
  }

  lemma ListRule<W(!new)>(ts: seq<Token<W>>, m: nat, h: nat, b: Cmd<W>, g: End, d: Cmd<W>, e: End)
    requires m + 1 + h <= |ts| && ts[m] == Sym(SEMI) && BackRule(ts[..m], b, g) && LineRule(ts[m + 1..][..h], d, e)
    ensures LineRule(ts[..m + 1 + h], List(b, d), e)
  {
    hide BackRule;
    var p := ts[..m + 1 + h];
    assert p[..m] == ts[..m] && p[m] == Sym(SEMI) && p[m + 1..] == ts[m + 1..][..h];
    assert BackRule(p[..m], b, g) && LineRule(p[m + 1..], d, e);
  }

  lemma BackIsLine<W(!new)>(p: seq<Token<W>>, c: Cmd<W>, e: End)
    requires BackRule(p, c, e)
    ensures LineRule(p, c, e)
  {
    hide PipeRule;
  }

  lemma PipeIsBack<W(!new)>(p: seq<Token<W>>, c: Cmd<W>, e: End)
    requires PipeRule(p, c, e)
    ensures BackRule(p, c, e)
  {
  }

  // ----- the parser reads the language of the rules

  /** A line was read up to `k`: what is before it is a line, and what follows does not go on with it. */
  ghost predicate Reading<W(!new)>(ts: seq<Token<W>>, k: int, c: Cmd<W>, e: End) {
    0 <= k <= |ts| && LineRule(ts[..k], c, e) && Ends(e, ts[k..])
  }

  /** The parser returns a command and the tokens behind it exactly when the rules read them so. */
  lemma ParsesExactly<W(!new)>(ts: seq<Token<W>>, c: Cmd<W>, rest: seq<Token<W>>)
    ensures ParseLine(ts) == Ok(c, rest) <==> exists k, e :: Reading(ts, k, c, e) && rest == ts[k..]
  {
    hide ParseLine, LineRule, Ends;
    if ParseLine(ts) == Ok(c, rest) {
      var k, e := LineSound(ts);
      assert Reading(ts, k, c, e);
    }
    if k, e :| Reading(ts, k, c, e) && rest == ts[k..] {
      LineRead(ts[..k], c, e, ts[k..]);
      assert ts[..k] + ts[k..] == ts;
    }
  }

  /** It panics exactly when they have no reading. */
  lemma PanicsExactly<W(!new)>(ts: seq<Token<W>>)
    ensures ParseLine(ts) == Panic <==> forall k, c, e :: !Reading(ts, k, c, e)
  {
    hide ParseLine, LineRule, Ends;
    if k, c, e :| Reading(ts, k, c, e) {
      ParsesExactly(ts, c, ts[k..]);
    }
    if ParseLine(ts).Ok? {
      ParsesExactly(ts, ParseLine(ts).cmd, ParseLine(ts).rest);
    }
  }

  /** All the tokens are read exactly when they are a line, which then means one command only. */
  lemma LinesExactly<W(!new)>(ts: seq<Token<W>>, c: Cmd<W>)
    ensures ParseLine(ts) == Ok(c, []) <==> Derives(ts, c)
    ensures Derives(ts, c) ==> forall d | Derives(ts, d) :: d == c
  {
    hide ParseLine, LineRule, Derives, Ends;
    assert ts[..|ts|] == ts && ts[|ts|..] == [];
    if ParseLine(ts) == Ok(c, []) {
      ParsesExactly(ts, c, []);
      var k, e :| Reading(ts, k, c, e) && [] == ts[k..];
      assert k == |ts|;
      EndDerives(ts, c, e);
    }
    forall d | Derives(ts, d) ensures ParseLine(ts) == Ok(d, []) {
      var e := DerivesEnd(ts, d);
      EndsEmpty<W>(e);
      assert Reading(ts, |ts|, d, e);
      ParsesExactly(ts, d, []);
    }
  }
}
