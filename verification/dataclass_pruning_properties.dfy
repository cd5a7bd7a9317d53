/** Properties of the pruning model: binding, the analysis, launch
    arguments and the two caches. */
module DataclassPruningProperties {
  import opened Results
  import opened DataclassPruning

  // ---------------------------------------------------------------------
  // Binding
  // ---------------------------------------------------------------------

  /** A call is rejected with STARNOTLAST exactly when a star expansion is
      followed by another argument, positional or keyword. */
  lemma StarNotLastIff(params: seq<string>, env: Env, args: seq<Arg>)
    ensures Bind(params, env, args) == Err(StarNotLast) <==>
            exists i :: 0 <= i < |args| - 1 && args[i].Star?
  {
  }

  /** `f(a, *xs)` against `f(a, b, c)` with a two-element list binds. */
  lemma TrailingStarBinds(env: Env)
    ensures Bind(["a", "b", "c"], env, [Pos(Ref("a", [])), Star(2)]).Ok?
  {
    var args := [Pos(Ref("a", [])), Star(2)];
    TrailingStarArguments(env);
    var params := ["a", "b", "c"];
    var f := PositionalFrame(params, Positionals(env, args));
    assert BindKeywords(params, env, [], f) == Ok(f);
    assert FirstMissing(params, f).None?;
  }

  /** `a, *xs` with a two-element list gives three positional values and
      no keywords. */
  lemma TrailingStarArguments(env: Env)
    ensures var args := [Pos(Ref("a", [])), Star(2)];
            && StarIsLast(args) && !PositionalAfterKw(args)
            && |Positionals(env, args)| == 3 && Keywords(args) == []
  {
    var args := [Pos(Ref("a", [])), Star(2)];
    assert args[1..] == [Star(2)] && args[1..][1..] == [];
    assert Positionals(env, args[1..][1..]) == [];
    assert Positionals(env, args[1..]) == seq(2, _ => Dynamic);
    assert Keywords(args[1..][1..]) == [];
  }

  /** `f(a, *xs, 3)` and `f(a, *xs, d=3)` are rejected with STARNOTLAST. */
  lemma StarBeforeArgumentRejected(env: Env)
    ensures Bind(["a", "b", "c", "d"], env, [Pos(Ref("a", [])), Star(2), Pos(Lit(3))]) == Err(StarNotLast)
    ensures Bind(["a", "b", "c", "d"], env, [Pos(Ref("a", [])), Star(2), Kw("d", Lit(3))]) == Err(StarNotLast)
  {
    var params := ["a", "b", "c", "d"];
    var a1 := [Pos(Ref("a", [])), Star(2), Pos(Lit(3))];
    var a2 := [Pos(Ref("a", [])), Star(2), Kw("d", Lit(3))];
    assert a1[1].Star? && a2[1].Star?;
    StarNotLastIff(params, env, a1);
    StarNotLastIff(params, env, a2);
  }

  /** Arguments es given positionally for the first j parameters and by
      keyword for the rest. */
  function Mixed(params: seq<string>, es: seq<Expr>, j: nat): (args: seq<Arg>)
    requires |es| == |params| && j <= |params|
    ensures |args| == |params|
    ensures forall i :: 0 <= i < j ==> args[i] == Pos(es[i])
    ensures forall i :: j <= i < |params| ==> args[i] == Kw(params[i], es[i])
  {
    seq(|params|, i requires 0 <= i < |params| => if i < j then Pos(es[i]) else Kw(params[i], es[i]))
  }

  function EvalAll(env: Env, es: seq<Expr>): (vs: seq<Val>)
    ensures |vs| == |es|
    ensures forall i :: 0 <= i < |es| ==> vs[i] == EvalExpr(env, es[i])
  {
    seq(|es|, i requires 0 <= i < |es| => EvalExpr(env, es[i]))
  }

  lemma PositionalsOfMixed(params: seq<string>, env: Env, es: seq<Expr>, j: nat)
    requires |es| == |params| && j <= |params|
    ensures Positionals(env, Mixed(params, es, j)) == EvalAll(env, es)[..j]
  {
    PositionalsPrefix(env, Mixed(params, es, j), j);
    assert Mixed(params, es, j)[..j] == seq(j, i requires 0 <= i < j => Pos(es[i]));
    PositionalsAllPos(env, seq(j, i requires 0 <= i < j => Pos(es[i])), es[..j]);
    assert EvalAll(env, es[..j]) == EvalAll(env, es)[..j];
  }

  lemma {:induction false} PositionalsAllPos(env: Env, args: seq<Arg>, es: seq<Expr>)
    requires |args| == |es| && forall i :: 0 <= i < |args| ==> args[i] == Pos(es[i])
    ensures Positionals(env, args) == EvalAll(env, es)
  {
    if |args| > 0 {
      PositionalsAllPos(env, args[1..], es[1..]);
      assert EvalAll(env, es) == [EvalExpr(env, es[0])] + EvalAll(env, es[1..]);
    }
  }

  /** Positionals ignores keyword arguments after position j. */
  lemma {:induction false} PositionalsPrefix(env: Env, args: seq<Arg>, j: nat)
    requires j <= |args| && forall i :: j <= i < |args| ==> args[i].Kw?
    ensures Positionals(env, args) == Positionals(env, args[..j])
  {
    if j == 0 {
      PositionalsNoneKw(env, args);
    } else {
      PositionalsPrefix(env, args[1..], j - 1);
      assert args[..j][1..] == args[1..][..j - 1];
    }
  }

  lemma {:induction false} PositionalsNoneKw(env: Env, args: seq<Arg>)
    requires forall i :: 0 <= i < |args| ==> args[i].Kw?
    ensures Positionals(env, args) == []
  {
    if |args| > 0 {
      PositionalsNoneKw(env, args[1..]);
    }
  }

  lemma {:induction false} KeywordsOfMixed(params: seq<string>, es: seq<Expr>, j: nat, args: seq<Arg>, from: nat)
    requires |es| == |params| && j <= from <= |params|
    requires args == Mixed(params, es, j)[from..]
    ensures Keywords(args) == Mixed(params, es, j)[from..]
    decreases |params| - from
  {
    if from < |params| {
      KeywordsOfMixed(params, es, j, args[1..], from + 1);
    }
  }

  lemma {:induction false} KeywordsSkipPos(args: seq<Arg>, j: nat)
    requires j <= |args| && forall i :: 0 <= i < j ==> args[i].Pos?
    ensures Keywords(args) == Keywords(args[j..])
  {
    if j > 0 {
      KeywordsSkipPos(args[1..], j - 1);
      assert args[1..][j - 1..] == args[j..];
    }
  }

  lemma UpdateSwap(m: Env, a: string, x: Val, b: string, y: Val)
    requires a != b
    ensures m[a := x][b := y] == m[b := y][a := x]
  {
  }

  lemma DistinctTail(params: seq<string>, i: nat)
    requires Distinct(params) && 0 < i < |params|
    ensures Distinct(params[1..])
    ensures params[1..][i - 1] == params[i] != params[0]
  {
  }

  /** Binding one more positional value extends the frame by one entry. */
  lemma {:induction false} PositionalFrameSnoc(params: seq<string>, ws: seq<Val>, v: Val)
    requires Distinct(params) && |ws| < |params|
    ensures PositionalFrame(params, ws + [v]) == PositionalFrame(params, ws)[params[|ws|] := v]
  {
    if |ws| > 0 {
      var tail := PositionalFrame(params[1..], ws[1..]);
      assert (ws + [v])[1..] == ws[1..] + [v];
      DistinctTail(params, |ws|);
      PositionalFrameSnoc(params[1..], ws[1..], v);
      assert PositionalFrame(params, ws) == tail[params[0] := ws[0]];
      UpdateSwap(tail, params[|ws|], v, params[0], ws[0]);
    }
  }

  lemma PositionalFrameGrow(params: seq<string>, vs: seq<Val>, j: nat)
    requires Distinct(params) && |vs| == |params| && j < |params|
    ensures params[j] !in PositionalFrame(params, vs[..j])
    ensures PositionalFrame(params, vs[..j])[params[j] := vs[j]] == PositionalFrame(params, vs[..j + 1])
  {
    assert params[j] !in params[..j];
    assert vs[..j + 1] == vs[..j] + [vs[j]];
    PositionalFrameSnoc(params, vs[..j], vs[j]);
  }

  lemma {:induction false} BindKeywordsOfMixed(params: seq<string>, env: Env, es: seq<Expr>, j: nat, from: nat)
    requires Distinct(params) && |es| == |params| && j <= from <= |params|
    ensures BindKeywords(params, env, Mixed(params, es, j)[from..], PositionalFrame(params, EvalAll(env, es)[..from]))
            == Ok(PositionalFrame(params, EvalAll(env, es)))
    decreases |params| - from
  {
    var vs := EvalAll(env, es);
    if from == |params| {
      assert vs[..from] == vs;
    } else {
      var kws := Mixed(params, es, j)[from..];
      assert kws[0] == Kw(params[from], es[from]);
      assert kws[1..] == Mixed(params, es, j)[from + 1..];
      PositionalFrameGrow(params, vs, from);
      BindKeywordsOfMixed(params, env, es, j, from + 1);
    }
  }

  /** Passing arguments positionally, by keyword, or any positional prefix
      followed by keywords binds the callee's frame identically. */
  lemma BindMixedAgree(params: seq<string>, env: Env, es: seq<Expr>, j: nat)
    requires Distinct(params) && |es| == |params| && j <= |params|
    ensures Bind(params, env, Mixed(params, es, j)) == Ok(PositionalFrame(params, EvalAll(env, es)))
  {
    var args := Mixed(params, es, j);
    var vs := EvalAll(env, es);
    assert StarIsLast(args);
    assert !PositionalAfterKw(args);
    PositionalsPrefix(env, args, j);
    PositionalsOfMixed(params, env, es, j);
    KeywordsSkipPos(args, j);
    KeywordsOfMixed(params, es, j, args[j..], j);
    BindKeywordsOfMixed(params, env, es, j, j);
    assert FirstMissing(params, PositionalFrame(params, vs)).None?;
  }

  // ---------------------------------------------------------------------
  // The analysis
  // ---------------------------------------------------------------------

  /** Analysing two statement lists in sequence fails with the first failure
      and otherwise reads the union of what each reads. */
  lemma {:induction false} AnalyzeAppend(prog: Program, fuel: nat, env: Env, b1: seq<Stmt>, b2: seq<Stmt>)
    ensures Analyze(prog, fuel, env, b1 + b2) ==
            (match Analyze(prog, fuel, env, b1)
             case Err(e) => Err(e)
             case Ok(u1) =>
               match Analyze(prog, fuel, env, b2)
               case Err(e) => Err(e)
               case Ok(u2) => Ok(u1 + u2))
  {
    if |b1| == 0 {
      assert b1 + b2 == b2;
      var r2 := Analyze(prog, fuel, env, b2);
      if r2.Ok? {
        assert {} + r2.value == r2.value;
      }
    } else {
      assert (b1 + b2)[0] == b1[0];
      assert (b1 + b2)[1..] == b1[1..] + b2;
      AnalyzeAppend(prog, fuel, env, b1[1..], b2);
      var s := AnalyzeStmt(prog, fuel, env, b1[0]);
      if s.Ok? {
        var r1 := Analyze(prog, fuel, env, b1[1..]);
        var r2 := Analyze(prog, fuel, env, b2);
        if r1.Ok? && r2.Ok? {
          assert s.value + (r1.value + r2.value) == (s.value + r1.value) + r2.value;
        }
      }
    }
  }

  /** The branch a `static if` does not take contributes nothing: it may be
      replaced by anything, even a body whose analysis would fail. */
  lemma StaticBranchNotTaken(prog: Program, fuel: nat, env: Env, c: Cond, t: seq<Stmt>, e1: seq<Stmt>, e2: seq<Stmt>)
    requires EvalCond(env, c) == Ok(true)
    ensures Analyze(prog, fuel, env, [StaticIf(c, t, e1)]) == Analyze(prog, fuel, env, [StaticIf(c, t, e2)])
    ensures Analyze(prog, fuel, env, [StaticIf(c, t, e1)]) == Analyze(prog, fuel, env, t)
  {
    assert [StaticIf(c, t, e1)][1..] == [];
    assert [StaticIf(c, t, e2)][1..] == [];
    assert Analyze(prog, fuel, env, []) == Ok({});
    var r := Analyze(prog, fuel, env, t);
    if r.Ok? {
      assert r.value + {} == r.value;
    }
  }

  // ---------------------------------------------------------------------
  // Renaming invariance
  // ---------------------------------------------------------------------

  function RenameName(n: string, x: string, y: string): string {
    if n == x then y else n
  }

  function RenameExpr(e: Expr, x: string, y: string): Expr {
    match e
    case Ref(n, fs) => Ref(RenameName(n, x, y), fs)
    case _ => e
  }

  /** Renames the caller's names inside an argument; a keyword key names a
      callee parameter and stays. */
  function RenameArg(a: Arg, x: string, y: string): (r: Arg)
    ensures (r.Pos? <==> a.Pos?) && (r.Kw? <==> a.Kw?) && (r.Star? <==> a.Star?)
  {
    match a
    case Pos(e) => Pos(RenameExpr(e, x, y))
    case Kw(k, e) => Kw(k, RenameExpr(e, x, y))
    case Star(n) => Star(n)
  }

  function RenameArgs(args: seq<Arg>, x: string, y: string): (r: seq<Arg>)
    ensures |r| == |args|
  {
    if |args| == 0 then [] else [RenameArg(args[0], x, y)] + RenameArgs(args[1..], x, y)
  }

  lemma {:induction false} RenameArgsAt(args: seq<Arg>, x: string, y: string, i: nat)
    requires i < |args|
    ensures RenameArgs(args, x, y)[i] == RenameArg(args[i], x, y)
  {
    if i > 0 {
      RenameArgsAt(args[1..], x, y, i - 1);
    }
  }

  lemma ArgShapesKept(args: seq<Arg>, x: string, y: string)
    ensures StarIsLast(RenameArgs(args, x, y)) <==> StarIsLast(args)
    ensures PositionalAfterKw(RenameArgs(args, x, y)) <==> PositionalAfterKw(args)
  {
    var ra := RenameArgs(args, x, y);
    forall i | 0 <= i < |args|
      ensures (ra[i].Pos? <==> args[i].Pos?) && (ra[i].Kw? <==> args[i].Kw?) && (ra[i].Star? <==> args[i].Star?)
    {
      RenameArgsAt(args, x, y, i);
    }
  }

  function RenameCond(c: Cond, x: string, y: string): Cond {
    match c
    case Truthy(n) => Truthy(RenameName(n, x, y))
    case EqualsConst(n, k) => EqualsConst(RenameName(n, x, y), k)
  }

  function RenameBody(body: seq<Stmt>, x: string, y: string): (r: seq<Stmt>)
    decreases body
    ensures |r| == |body|
  {
    if |body| == 0 then [] else [RenameStmt(body[0], x, y)] + RenameBody(body[1..], x, y)
  }

  function RenameStmt(s: Stmt, x: string, y: string): Stmt
    decreases s
  {
    match s
    case Access(n, fs) => Access(RenameName(n, x, y), fs)
    case StaticIf(c, t, e) => StaticIf(RenameCond(c, x, y), RenameBody(t, x, y), RenameBody(e, x, y))
    case CallFunc(f, args) => CallFunc(f, RenameArgs(args, x, y))
  }

  predicate ExprAvoids(e: Expr, y: string) {
    e.Ref? ==> e.name != y
  }

  predicate ArgsAvoid(args: seq<Arg>, y: string) {
    forall i :: 0 <= i < |args| && !args[i].Star? ==> ExprAvoids(args[i].e, y)
  }

  /** `y` names nothing in `body`. */
  predicate BodyAvoids(body: seq<Stmt>, y: string)
    decreases body
  {
    |body| == 0 || (StmtAvoids(body[0], y) && BodyAvoids(body[1..], y))
  }

  predicate StmtAvoids(s: Stmt, y: string)
    decreases s
  {
    match s
    case Access(n, _) => n != y
    case StaticIf(c, t, e) => c.name != y && BodyAvoids(t, y) && BodyAvoids(e, y)
    case CallFunc(_, args) => ArgsAvoid(args, y)
  }

  /** The frame in which the name x is called y instead. */
  function RenameEnv(env: Env, x: string, y: string): Env
    requires x in env
  {
    (map n | n in env && n != x :: env[n])[y := env[x]]
  }

  lemma EvalRename(env: Env, e: Expr, x: string, y: string)
    requires x in env && y !in env && ExprAvoids(e, y)
    ensures EvalExpr(RenameEnv(env, x, y), RenameExpr(e, x, y)) == EvalExpr(env, e)
  {
  }

  /** Two outcomes agree when both fail or both succeed with the same value
      (a failure may name the renamed identifier differently). */
  predicate Agree<T(==)>(r1: Result<T, PruneError>, r2: Result<T, PruneError>) {
    (r1.Ok? <==> r2.Ok?) && (r1.Ok? ==> r1.value == r2.value)
  }

  lemma EvalCondRename(env: Env, c: Cond, x: string, y: string)
    requires x in env && y !in env && c.name != y
    ensures Agree(EvalCond(RenameEnv(env, x, y), RenameCond(c, x, y)), EvalCond(env, c))
  {
    var n := c.name;
    var env' := RenameEnv(env, x, y);
    assert RenameCond(c, x, y).name == RenameName(n, x, y);
    if n == x {
      assert env'[y] == env[x];
      match c
      case Truthy(_) =>
      case EqualsConst(_, k) =>
    } else {
      assert (n in env' <==> n in env) && (n in env ==> env'[n] == env[n]);
    }
  }

  lemma {:induction false} PositionalsRename(env: Env, args: seq<Arg>, x: string, y: string)
    requires x in env && y !in env && ArgsAvoid(args, y)
    ensures Positionals(RenameEnv(env, x, y), RenameArgs(args, x, y)) == Positionals(env, args)
  {
    if |args| > 0 {
      if !args[0].Star? {
        EvalRename(env, args[0].e, x, y);
      }
      var ra := RenameArgs(args, x, y);
      assert ra[0] == RenameArg(args[0], x, y) && ra[1..] == RenameArgs(args[1..], x, y);
      PositionalsRename(env, args[1..], x, y);
    }
  }

  lemma {:induction false} KeywordsRename(args: seq<Arg>, x: string, y: string)
    ensures Keywords(RenameArgs(args, x, y)) == RenameArgs(Keywords(args), x, y)
  {
    if |args| > 0 {
      var ra := RenameArgs(args, x, y);
      assert ra[0] == RenameArg(args[0], x, y) && ra[1..] == RenameArgs(args[1..], x, y);
      KeywordsRename(args[1..], x, y);
      var rest := Keywords(args[1..]);
      if args[0].Kw? {
        var kw := [args[0]] + rest;
        assert kw[0] == args[0] && kw[1..] == rest;
        calc {
          Keywords(ra);
          [ra[0]] + Keywords(ra[1..]);
          [RenameArg(args[0], x, y)] + RenameArgs(rest, x, y);
          RenameArgs(kw, x, y);
        }
      } else {
        calc {
          Keywords(ra);
          [] + Keywords(ra[1..]);
          RenameArgs(rest, x, y);
          { assert Keywords(args) == [] + rest == rest; }
          RenameArgs(Keywords(args), x, y);
        }
      }
    }
  }

  lemma KeywordsAvoid(args: seq<Arg>, y: string)
    requires ArgsAvoid(args, y)
    ensures ArgsAvoid(Keywords(args), y)
  {
    forall i | 0 <= i < |Keywords(args)| && !Keywords(args)[i].Star?
      ensures ExprAvoids(Keywords(args)[i].e, y)
    {
      var a := Keywords(args)[i];
      assert a in args;
    }
  }

  lemma {:induction false} BindKeywordsRename(params: seq<string>, env: Env, kws: seq<Arg>, frame: Env, x: string, y: string)
    requires x in env && y !in env && ArgsAvoid(kws, y)
    requires forall a :: a in kws ==> a.Kw?
    ensures forall a :: a in RenameArgs(kws, x, y) ==> a.Kw?
    ensures BindKeywords(params, RenameEnv(env, x, y), RenameArgs(kws, x, y), frame) == BindKeywords(params, env, kws, frame)
  {
    var rk := RenameArgs(kws, x, y);
    forall i | 0 <= i < |rk| ensures rk[i].Kw? {
      RenameArgsAt(kws, x, y, i);
      assert kws[i] in kws;
    }
    if |kws| > 0 {
      assert kws[0] in kws;
      EvalRename(env, kws[0].e, x, y);
      assert rk[0] == RenameArg(kws[0], x, y) && rk[1..] == RenameArgs(kws[1..], x, y);
      BindKeywordsRename(params, env, kws[1..], frame[kws[0].key := EvalExpr(env, kws[0].e)], x, y);
    }
  }

  /** Binding a call does not depend on the caller's names for its values. */
  lemma BindRename(params: seq<string>, env: Env, args: seq<Arg>, x: string, y: string)
    requires x in env && y !in env && ArgsAvoid(args, y)
    ensures Bind(params, RenameEnv(env, x, y), RenameArgs(args, x, y)) == Bind(params, env, args)
  {
    ArgShapesKept(args, x, y);
    PositionalsRename(env, args, x, y);
    KeywordsRename(args, x, y);
    KeywordsAvoid(args, y);
    var vs := Positionals(env, args);
    if |vs| <= |params| {
      BindKeywordsRename(params, env, Keywords(args), PositionalFrame(params, vs), x, y);
    }
  }

  /** Renaming a name of the frame throughout a body does not change what
      the body reads: paths are recorded under the kernel's names, never
      under the names a function uses for its parameters. */
  lemma {:induction false} AnalyzeRename(prog: Program, fuel: nat, env: Env, body: seq<Stmt>, x: string, y: string)
    requires x in env && y !in env && BodyAvoids(body, y)
    ensures Agree(Analyze(prog, fuel, RenameEnv(env, x, y), RenameBody(body, x, y)), Analyze(prog, fuel, env, body))
    decreases fuel, body
  {
    if |body| > 0 {
      var rb := RenameBody(body, x, y);
      assert rb[0] == RenameStmt(body[0], x, y) && rb[1..] == RenameBody(body[1..], x, y);
      AnalyzeStmtRename(prog, fuel, env, body[0], x, y);
      AnalyzeRename(prog, fuel, env, body[1..], x, y);
    }
  }

  lemma {:induction false} AnalyzeStmtRename(prog: Program, fuel: nat, env: Env, s: Stmt, x: string, y: string)
    requires x in env && y !in env && StmtAvoids(s, y)
    ensures Agree(AnalyzeStmt(prog, fuel, RenameEnv(env, x, y), RenameStmt(s, x, y)), AnalyzeStmt(prog, fuel, env, s))
    decreases fuel, s
  {
    match s
    case Access(n, fs) =>
    case StaticIf(c, t, e) =>
      EvalCondRename(env, c, x, y);
      AnalyzeRename(prog, fuel, env, t, x, y);
      AnalyzeRename(prog, fuel, env, e, x, y);
    case CallFunc(f, args) =>
      BindRename(if f in prog then prog[f].params else [], env, args, x, y);
  }

  /** Every struct value in a frame is a path below one of `roots`. */
  ghost predicate RootedIn(env: Env, roots: set<string>) {
    forall n :: n in env && env[n].StructRef? ==> |env[n].path| >= 1 && env[n].path[0] in roots
  }

  ghost predicate ValRooted(v: Val, roots: set<string>) {
    v.StructRef? ==> |v.path| >= 1 && v.path[0] in roots
  }

  lemma {:induction false} PositionalsRooted(env: Env, args: seq<Arg>, roots: set<string>)
    requires RootedIn(env, roots)
    ensures forall i :: 0 <= i < |Positionals(env, args)| ==> ValRooted(Positionals(env, args)[i], roots)
  {
    if |args| > 0 {
      PositionalsRooted(env, args[1..], roots);
    }
  }

  lemma {:induction false} PositionalFrameRooted(params: seq<string>, vs: seq<Val>, roots: set<string>)
    requires |vs| <= |params|
    requires forall i :: 0 <= i < |vs| ==> ValRooted(vs[i], roots)
    ensures RootedIn(PositionalFrame(params, vs), roots)
  {
    if |vs| > 0 {
      PositionalFrameRooted(params[1..], vs[1..], roots);
    }
  }

  lemma {:induction false} BindKeywordsRooted(params: seq<string>, env: Env, kws: seq<Arg>, frame: Env, roots: set<string>)
    requires forall a :: a in kws ==> a.Kw?
    requires RootedIn(env, roots) && RootedIn(frame, roots)
    requires BindKeywords(params, env, kws, frame).Ok?
    ensures RootedIn(BindKeywords(params, env, kws, frame).value, roots)
  {
    if |kws| > 0 {
      BindKeywordsRooted(params, env, kws[1..], frame[kws[0].key := EvalExpr(env, kws[0].e)], roots);
    }
  }

  /** A callee's frame only holds paths below the caller's roots. */
  lemma BindRooted(params: seq<string>, env: Env, args: seq<Arg>, roots: set<string>)
    requires RootedIn(env, roots)
    requires Bind(params, env, args).Ok?
    ensures RootedIn(Bind(params, env, args).value, roots)
  {
    var vs := Positionals(env, args);
    PositionalsRooted(env, args, roots);
    PositionalFrameRooted(params, vs, roots);
    BindKeywordsRooted(params, env, Keywords(args), PositionalFrame(params, vs), roots);
  }

  /** Every path the analysis records starts at one of the roots the
      frame's struct values start at, however deep the calls go. */
  lemma {:induction false} AnalyzeRooted(prog: Program, fuel: nat, env: Env, body: seq<Stmt>, roots: set<string>)
    requires RootedIn(env, roots)
    requires Analyze(prog, fuel, env, body).Ok?
    ensures forall p :: p in Analyze(prog, fuel, env, body).value ==> |p| >= 1 && p[0] in roots
    decreases fuel, body
  {
    if |body| > 0 {
      AnalyzeStmtRooted(prog, fuel, env, body[0], roots);
      AnalyzeRooted(prog, fuel, env, body[1..], roots);
    }
  }

  lemma {:induction false} AnalyzeStmtRooted(prog: Program, fuel: nat, env: Env, s: Stmt, roots: set<string>)
    requires RootedIn(env, roots)
    requires AnalyzeStmt(prog, fuel, env, s).Ok?
    ensures forall p :: p in AnalyzeStmt(prog, fuel, env, s).value ==> |p| >= 1 && p[0] in roots
    decreases fuel, s
  {
    match s
    case Access(n, fs) =>
      AccessedRooted(env, n, fs, roots);
    case StaticIf(c, t, e) =>
      if EvalCond(env, c).value {
        AnalyzeRooted(prog, fuel, env, t, roots);
      } else {
        AnalyzeRooted(prog, fuel, env, e, roots);
      }
    case CallFunc(f, args) =>
      CallRooted(prog, fuel, env, f, args, roots);
  }

  lemma AccessedRooted(env: Env, n: string, fs: seq<string>, roots: set<string>)
    requires RootedIn(env, roots)
    ensures forall p :: p in Accessed(env, n, fs) ==> |p| >= 1 && p[0] in roots
  {
    if n in env && env[n].StructRef? {
      assert (env[n].path + fs)[0] == env[n].path[0];
    }
  }

  lemma {:induction false} CallRooted(prog: Program, fuel: nat, env: Env, f: string, args: seq<Arg>, roots: set<string>)
    requires RootedIn(env, roots)
    requires AnalyzeStmt(prog, fuel, env, CallFunc(f, args)).Ok?
    ensures forall p :: p in AnalyzeStmt(prog, fuel, env, CallFunc(f, args)).value ==> |p| >= 1 && p[0] in roots
    decreases fuel, CallFunc(f, args), 0
  {
    assert fuel > 0 && f in prog && Bind(prog[f].params, env, args).Ok?;
    var frame := Bind(prog[f].params, env, args).value;
    var inner := Analyze(prog, fuel - 1, frame, prog[f].body);
    assert AnalyzeStmt(prog, fuel, env, CallFunc(f, args)) == inner;
    BindRooted(prog[f].params, env, args, roots);
    AnalyzeRooted(prog, fuel - 1, frame, prog[f].body, roots);
    forall p | p in AnalyzeStmt(prog, fuel, env, CallFunc(f, args)).value
      ensures |p| >= 1 && p[0] in roots
    {
      assert p in inner.value;
    }
  }

  /** Every recorded path starts at a dataclass parameter of the kernel. */
  lemma UsedPathsRooted(prog: Program, fuel: nat, k: Kernel, templates: map<string, int>)
    requires UsedPaths(prog, fuel, k, templates).Ok?
    ensures forall p :: p in UsedPaths(prog, fuel, k, templates).value ==> |p| >= 1 && p[0] in StructNames(k.params)
  {
    var env := KernelEnv(k.params, templates).value;
    AnalyzeRooted(prog, fuel, env, k.body, StructNames(k.params));
  }

  /** Hence every used name is the flattened name of a kernel struct
      parameter, possibly followed by further `__qd_` segments. */
  lemma UsedNamesStartAtStruct(prog: Program, fuel: nat, k: Kernel, templates: map<string, int>)
    requires UsedPaths(prog, fuel, k, templates).Ok?
    ensures forall s :: s in UsedNames(UsedPaths(prog, fuel, k, templates).value) ==>
              exists q :: q in Prefixes(UsedPaths(prog, fuel, k, templates).value) && s == FlatName(q)
                          && |q| >= 1 && q[0] in StructNames(k.params)
  {
    UsedPathsRooted(prog, fuel, k, templates);
  }

  // ---------------------------------------------------------------------
  // The kernel frame and the call-depth bound
  // ---------------------------------------------------------------------

  /** With distinct parameter names, the names the kernel frame binds to a
      struct are exactly its dataclass parameters. */
  lemma KernelEnvStructsExactly(params: seq<Param>, templates: map<string, int>)
    requires NamesDistinct(params)
    requires KernelEnv(params, templates).Ok?
    ensures var env := KernelEnv(params, templates).value;
            forall n :: (n in env && env[n].StructRef?) <==> n in StructNames(params)
  {
    var env := KernelEnv(params, templates).value;
    forall n | n in StructNames(params) ensures n in env && env[n].StructRef? {
      var p :| p in params && p.kind.Dataclass? && p.name == n;
      var i :| 0 <= i < |params| && params[i] == p;
    }
  }

  /** A successful analysis is not changed by allowing one more level of
      calls: the bound only turns too-deep call chains into an error. */
  lemma {:induction false} AnalyzeMoreFuel(prog: Program, fuel: nat, env: Env, body: seq<Stmt>)
    requires Analyze(prog, fuel, env, body).Ok?
    ensures Analyze(prog, fuel + 1, env, body) == Analyze(prog, fuel, env, body)
    decreases fuel, body
  {
    if |body| > 0 {
      AnalyzeStmtMoreFuel(prog, fuel, env, body[0]);
      AnalyzeMoreFuel(prog, fuel, env, body[1..]);
    }
  }

  lemma {:induction false} AnalyzeStmtMoreFuel(prog: Program, fuel: nat, env: Env, s: Stmt)
    requires AnalyzeStmt(prog, fuel, env, s).Ok?
    ensures AnalyzeStmt(prog, fuel + 1, env, s) == AnalyzeStmt(prog, fuel, env, s)
    decreases fuel, s
  {
    match s
    case Access(n, fs) =>
    case StaticIf(c, t, e) =>
      if EvalCond(env, c).value {
        AnalyzeMoreFuel(prog, fuel, env, t);
      } else {
        AnalyzeMoreFuel(prog, fuel, env, e);
      }
    case CallFunc(f, args) =>
      var frame := Bind(prog[f].params, env, args).value;
      AnalyzeMoreFuel(prog, fuel - 1, frame, prog[f].body);
  }

  /** Hence a successful analysis is the same at every larger bound. */
  lemma {:induction false} AnalyzeStableInFuel(prog: Program, fuel: nat, more: nat, env: Env, body: seq<Stmt>)
    requires Analyze(prog, fuel, env, body).Ok?
    ensures Analyze(prog, fuel + more, env, body) == Analyze(prog, fuel, env, body)
    decreases more
  {
    if more > 0 {
      AnalyzeStableInFuel(prog, fuel, more - 1, env, body);
      AnalyzeMoreFuel(prog, fuel + more - 1, env, body);
    }
  }

  /** A used set, once found, is the same at every larger bound. */
  lemma UsedPathsStableInFuel(prog: Program, fuel: nat, more: nat, k: Kernel, templates: map<string, int>)
    requires UsedPaths(prog, fuel, k, templates).Ok?
    ensures UsedPaths(prog, fuel + more, k, templates) == UsedPaths(prog, fuel, k, templates)
  {
    var env := KernelEnv(k.params, templates).value;
    AnalyzeStableInFuel(prog, fuel, more, env, k.body);
  }

  // ---------------------------------------------------------------------
  // Flattened names
  // ---------------------------------------------------------------------

  /** Flattening a path is flattening its parts one after the other. */
  lemma {:induction false} FlatNameAppend(p: Path, q: Path)
    ensures FlatName(p + q) == FlatName(p) + FlatName(q)
    decreases |p|
  {
    if p != [] {
      assert (p + q)[0] == p[0] && (p + q)[1..] == p[1..] + q;
      FlatNameAppend(p[1..], q);
    } else {
      assert p + q == q;
    }
  }

  /** The separator starts at position `j` of `s`. */
  predicate SepAt(s: string, j: int) {
    0 <= j && j + |Sep| <= |s| && s[j..j + |Sep|] == Sep
  }

  /** A component that, followed by a separator, holds no earlier separator:
      it neither contains `__qd_` nor ends with `__qd`. */
  predicate Clean(c: string) {
    forall j :: 0 <= j < |c| ==> !SepAt(c + Sep, j)
  }

  predicate LeadsWithSep(r: string) {
    r == [] || (|r| >= |Sep| && r[..|Sep|] == Sep)
  }

  /** In `p0 + r1 == q0 + r2`, with the rests empty or starting with a
      separator, a clean `q0` cannot be longer than `p0`. */
  lemma SplitNotBefore(p0: string, q0: string, r1: string, r2: string)
    requires Clean(q0) && LeadsWithSep(r1) && LeadsWithSep(r2)
    requires p0 + r1 == q0 + r2
    ensures |q0| <= |p0|
  {
    if |p0| < |q0| {
      var t := p0 + r1;
      var j := |p0|;
      if r1 == [] {
        assert false;
      }
      forall k | j <= k < j + |Sep| ensures (q0 + Sep)[k] == Sep[k - j] {
        assert t[k] == r1[k - j];
        if k >= |q0| {
          assert r2 != [];
          assert t[k] == r2[k - |q0|];
        }
      }
      assert (q0 + Sep)[j..j + |Sep|] == Sep;
      assert SepAt(q0 + Sep, j);
    }
  }

  /** Distinct paths of clean components have distinct flattened names. */
  lemma {:induction false} FlatNameInjective(p: Path, q: Path)
    requires forall i :: 0 <= i < |p| ==> Clean(p[i])
    requires forall i :: 0 <= i < |q| ==> Clean(q[i])
    requires FlatName(p) == FlatName(q)
    ensures p == q
    decreases |p|
  {
    if p != [] && q != [] {
      var rp := FlatName(p[1..]);
      var rq := FlatName(q[1..]);
      assert FlatName(p) == Sep + (p[0] + rp);
      assert FlatName(q) == Sep + (q[0] + rq);
      assert p[0] + rp == FlatName(p)[|Sep|..] == q[0] + rq;
      SplitNotBefore(p[0], q[0], rp, rq);
      SplitNotBefore(q[0], p[0], rq, rp);
      assert p[0] == (p[0] + rp)[..|p[0]|] == q[0];
      assert rp == (p[0] + rp)[|p[0]|..] == rq;
      FlatNameInjective(p[1..], q[1..]);
      assert p == [p[0]] + p[1..] && q == [q[0]] + q[1..];
    }
  }

  /** Without the condition, flattening collides: for any `x` and `y`, a
      component ending in `__qd` followed by `y` flattens like `x` followed
      by a component starting `_qd_`. */
  lemma FlatNameCollision(x: string, y: string)
    ensures [x + "__qd", y] != [x, "_qd_" + y]
    ensures FlatName([x + "__qd", y]) == FlatName([x, "_qd_" + y])
    ensures !Clean(x + "__qd")
  {
    assert [x + "__qd", y][0] != [x, "_qd_" + y][0] by {
      assert |x + "__qd"| != |x|;
    }
    var a, b := x + "__qd", "_qd_" + y;
    assert [a, y][1..] == [y] && [y][1..] == [];
    assert [x, b][1..] == [b] && [b][1..] == [];
    assert a + Sep == x + Sep + "_qd_";
    calc {
      FlatName([a, y]);
      Sep + a + (Sep + y + "");
      Sep + x + Sep + "_qd_" + y;
      Sep + x + (Sep + b + "");
      FlatName([x, b]);
    }
    assert (a + Sep)[|x|..|x| + |Sep|] == Sep;
    assert SepAt(a + Sep, |x|);
  }

  // ---------------------------------------------------------------------
  // Launch arguments
  // ---------------------------------------------------------------------

  lemma {:induction false} PlainParamIsLeaf(params: seq<Param>, i: nat)
    requires i < |params| && (params[i].kind == NdArray || params[i].kind == Scalar)
    ensures LaunchArg([params[i].name], params[i].kind) in AllLeaves(params)
  {
    if i > 0 {
      PlainParamIsLeaf(params[1..], i - 1);
    }
  }

  /** A non-dataclass ndarray or scalar kernel argument is always passed,
      whatever the body reads; a template argument never is. */
  lemma PlainParamsAlwaysPassed(k: Kernel, used: set<Path>)
    ensures forall i :: 0 <= i < |k.params| && (k.params[i].kind == NdArray || k.params[i].kind == Scalar) ==>
              LaunchArg([k.params[i].name], k.params[i].kind) in LaunchArgs(k, used)
    ensures forall a :: a in LaunchArgs(k, used) ==> a.kind == NdArray || a.kind == Scalar
  {
    forall i | 0 <= i < |k.params| && (k.params[i].kind == NdArray || k.params[i].kind == Scalar) {
      PlainParamIsLeaf(k.params, i);
    }
  }

  // ---------------------------------------------------------------------
  // Materialize cache
  // ---------------------------------------------------------------------

  /** Five launches with template keys F, F, T, F, T from an empty cache:
      only the first launch of each key materializes, and every launch sees
      the used set a fresh analysis gives. */
  lemma CacheHitsOnRepeatedKey(prog: Program, fuel: nat, k: Kernel, kf: map<string, int>, kt: map<string, int>)
    requires kf != kt
    requires UsedPaths(prog, fuel, k, kf).Ok? && UsedPaths(prog, fuel, k, kt).Ok?
    ensures var l1 := Launch(Materializer(map[]), prog, fuel, k, kf);
            l1.Ok? && !l1.value.foundInCache &&
            var l2 := Launch(l1.value.m, prog, fuel, k, kf);
            l2.Ok? && l2.value.foundInCache && Ok(l2.value.used) == UsedPaths(prog, fuel, k, kf) &&
            var l3 := Launch(l2.value.m, prog, fuel, k, kt);
            l3.Ok? && !l3.value.foundInCache && Ok(l3.value.used) == UsedPaths(prog, fuel, k, kt) &&
            var l4 := Launch(l3.value.m, prog, fuel, k, kf);
            l4.Ok? && l4.value.foundInCache && Ok(l4.value.used) == UsedPaths(prog, fuel, k, kf) &&
            var l5 := Launch(l4.value.m, prog, fuel, k, kt);
            l5.Ok? && l5.value.foundInCache && Ok(l5.value.used) == UsedPaths(prog, fuel, k, kt)
  {
    var m0 := Materializer(map[]);
    assert Coherent(m0, prog, fuel, k);
  }

  // ---------------------------------------------------------------------
  // Template-mapper extraction counting
  // ---------------------------------------------------------------------

  /** A repeated call with the same slot-free argument objects extracts
      nothing; with a slots dataclass among them it extracts everything. */
  lemma RepeatCallExtractions(seen: set<seq<nat>>, args: seq<ArgObject>)
    ensures Cacheable(args) ==> MapArgs(MapArgs(seen, args).seen, args).extractions == 0
    ensures !Cacheable(args) ==> MapArgs(MapArgs(seen, args).seen, args).extractions == Extractions(args)
    ensures Ids(args) !in seen ==> MapArgs(seen, args).extractions == Extractions(args)
  {
  }

  /** Two arguments of a dataclass with an ndarray and an int field cost
      2 * 2 extractions on the first call. */
  lemma TwoStructArgsExtractions(slots: bool)
    ensures var fs := [Field("value", NdArray), Field("placeholder", Scalar)];
            var args := [ArgObject(1, Dataclass(fs), slots), ArgObject(2, Dataclass(fs), slots)];
            MapArgs({}, args).extractions == 2 * |fs| &&
            MapArgs(MapArgs({}, args).seen, args).extractions == (if slots then 2 * |fs| else 0)
  {
    var fs := [Field("value", NdArray), Field("placeholder", Scalar)];
    assert fs[1..][1..] == [];
    assert FieldExtractions(fs) == 2;
    assert KindExtractions(Dataclass(fs)) == 2;
    var args := [ArgObject(1, Dataclass(fs), slots), ArgObject(2, Dataclass(fs), slots)];
    assert args[1..][1..] == [];
    assert Extractions(args[1..]) == 2;
    assert Extractions(args) == 4;
  }
}

/** The scenario of a kernel that reads one struct field itself and calls a
    function which, under a `static` flag, reads one of two further fields. */
module DataclassPruningScenario {
  import opened Results
  import opened DataclassPruning

  const S: string := "struct_k1"

  function MyStruct(): Kind {
    Dataclass([Field("_k1", NdArray), Field("_f1_no_flag", NdArray),
               Field("_f1_with_flag", NdArray), Field("_unused", NdArray)])
  }

  function F1(): Func {
    Func(["flag", "struct_f1"],
         [StaticIf(Truthy("flag"), [Access("struct_f1", ["_f1_with_flag"])],
                                   [Access("struct_f1", ["_f1_no_flag"])])])
  }

  function K1(): Kernel {
    Kernel([Param("flag", Template), Param(S, MyStruct())],
           [Access(S, ["_k1"]), CallFunc("f1", [Pos(Ref("flag", [])), Pos(Ref(S, []))])])
  }

  function Prog(): Program {
    map["f1" := F1()]
  }

  function FlagField(flag: int): string {
    if flag != 0 then "_f1_with_flag" else "_f1_no_flag"
  }

  lemma KernelFrame(flag: int)
    ensures KernelEnv(K1().params, map["flag" := flag]) == Ok(map["flag" := Static(flag), S := StructRef([S])])
  {
    var ps := K1().params;
    var t := map["flag" := flag];
    assert ps[1..][1..] == [];
    assert KernelEnv(ps[1..][1..], t) == Ok(map[]);
    assert KernelEnv(ps[1..], t) == Ok(map[S := StructRef([S])]);
    assert "flag" in t && t["flag"] == flag;
    assert map[S := StructRef([S])]["flag" := Static(flag)] == map["flag" := Static(flag), S := StructRef([S])];
  }

  lemma CallPositionals(flag: int)
    ensures Positionals(map["flag" := Static(flag), S := StructRef([S])], [Pos(Ref("flag", [])), Pos(Ref(S, []))])
            == [Static(flag), StructRef([S])]
    ensures Keywords([Pos(Ref("flag", [])), Pos(Ref(S, []))]) == []
  {
    var env := map["flag" := Static(flag), S := StructRef([S])];
    var args := [Pos(Ref("flag", [])), Pos(Ref(S, []))];
    assert args[1..][1..] == [];
    assert EvalExpr(env, Ref("flag", [])) == Static(flag);
    assert EvalExpr(env, Ref(S, [])) == StructRef([S]);
    assert Positionals(env, args[1..][1..]) == [];
    assert Positionals(env, args[1..]) == [StructRef([S])];
    assert Keywords(args[1..][1..]) == [];
  }

  lemma CalleePositionalFrame(flag: int)
    ensures PositionalFrame(F1().params, [Static(flag), StructRef([S])])
            == map["flag" := Static(flag), "struct_f1" := StructRef([S])]
  {
    var params := F1().params;
    var vs := [Static(flag), StructRef([S])];
    assert params[1..][1..] == [] && vs[1..][1..] == [];
    assert PositionalFrame(params[1..], vs[1..]) == map["struct_f1" := StructRef([S])];
  }

  lemma CalleeFrame(flag: int)
    ensures Bind(F1().params, map["flag" := Static(flag), S := StructRef([S])],
                 [Pos(Ref("flag", [])), Pos(Ref(S, []))])
            == Ok(map["flag" := Static(flag), "struct_f1" := StructRef([S])])
  {
    var args := [Pos(Ref("flag", [])), Pos(Ref(S, []))];
    CallPositionals(flag);
    CalleePositionalFrame(flag);
    assert StarIsLast(args) && !PositionalAfterKw(args);
  }

  lemma BranchReads(fuel: nat, flag: int, branch: seq<Stmt>, field: string)
    requires branch == [Access("struct_f1", [field])]
    ensures Analyze(Prog(), fuel, map["flag" := Static(flag), "struct_f1" := StructRef([S])], branch)
            == Ok({[S, field]})
  {
    assert branch[1..] == [];
    assert [S] + [field] == [S, field];
    assert {[S, field]} + {} == {[S, field]};
  }

  /** The callee reads only the field of the branch its flag selects. */
  lemma CalleeReads(fuel: nat, flag: int)
    ensures Analyze(Prog(), fuel, map["flag" := Static(flag), "struct_f1" := StructRef([S])], F1().body)
            == Ok({[S, FlagField(flag)]})
  {
    var frame := map["flag" := Static(flag), "struct_f1" := StructRef([S])];
    var fb := F1().body;
    assert fb[1..] == [];
    assert EvalCond(frame, Truthy("flag")) == Ok(flag != 0);
    BranchReads(fuel, flag, [Access("struct_f1", ["_f1_with_flag"])], "_f1_with_flag");
    BranchReads(fuel, flag, [Access("struct_f1", ["_f1_no_flag"])], "_f1_no_flag");
    assert AnalyzeStmt(Prog(), fuel, frame, fb[0]) == Ok({[S, FlagField(flag)]});
    assert {[S, FlagField(flag)]} + {} == {[S, FlagField(flag)]};
  }

  lemma KernelCallReads(fuel: nat, flag: int)
    requires fuel >= 1
    ensures Analyze(Prog(), fuel, map["flag" := Static(flag), S := StructRef([S])], K1().body[1..])
            == Ok({[S, FlagField(flag)]})
  {
    var env := map["flag" := Static(flag), S := StructRef([S])];
    var rest := K1().body[1..];
    assert rest[1..] == [];
    CalleeFrame(flag);
    CalleeReads(fuel - 1, flag);
    assert AnalyzeStmt(Prog(), fuel, env, rest[0]) == Ok({[S, FlagField(flag)]});
    assert {[S, FlagField(flag)]} + {} == {[S, FlagField(flag)]};
  }

  /** With flag value v the kernel reads its own field and the one field the
      taken branch reads; the branch not taken contributes nothing. */
  lemma UsedPathsByFlag(fuel: nat, flag: int)
    requires fuel >= 1
    ensures UsedPaths(Prog(), fuel, K1(), map["flag" := flag]) == Ok(Used(flag))
  {
    KernelFrame(flag);
    KernelCallReads(fuel, flag);
    var env := map["flag" := Static(flag), S := StructRef([S])];
    var body := K1().body;
    assert S in env && env[S] == StructRef([S]);
    assert [S] + ["_k1"] == [S, "_k1"];
    assert AnalyzeStmt(Prog(), fuel, env, body[0]) == Ok({[S, "_k1"]});
    assert {[S, "_k1"]} + {[S, FlagField(flag)]} == {[S, "_k1"], [S, FlagField(flag)]};
  }

  function Used(flag: int): set<Path> {
    {[S, "_k1"], [S, FlagField(flag)]}
  }

  lemma PrefixesOfUsed(flag: int)
    ensures Prefixes(Used(flag)) == {[S], [S, "_k1"], [S, FlagField(flag)]}
  {
    var used := Used(flag);
    var ps := Prefixes(used);
    assert [S, "_k1"][..1] == [S] && [S, "_k1"][..2] == [S, "_k1"];
    assert [S, FlagField(flag)][..2] == [S, FlagField(flag)];
    var want := {[S], [S, "_k1"], [S, FlagField(flag)]};
    forall q | q in ps ensures q in want {
      var p, k :| p in used && 1 <= k <= |p| && q == p[..k];
      if k == 1 { assert q == [S]; }
    }
    assert [S] in ps && [S, "_k1"] in ps && [S, FlagField(flag)] in ps;
  }

  /** Fields that are all ndarrays or scalars give one leaf each, in order. */
  lemma {:induction false} PlainFieldLeaves(prefix: Path, fs: seq<Field>)
    requires forall i :: 0 <= i < |fs| ==> fs[i].kind == NdArray || fs[i].kind == Scalar
    ensures FieldLeaves(prefix, fs) == seq(|fs|, i requires 0 <= i < |fs| => LaunchArg(prefix + [fs[i].name], fs[i].kind))
    decreases |fs|
  {
    if |fs| > 0 {
      PlainFieldLeaves(prefix, fs[1..]);
    }
  }

  /** A template parameter followed by a struct parameter: the leaves are
      the struct's fields. */
  lemma TemplateThenStruct(t: string, st: string, fs: seq<Field>)
    ensures AllLeaves([Param(t, Template), Param(st, Dataclass(fs))]) == FieldLeaves([st], fs)
  {
    var ps := [Param(t, Template), Param(st, Dataclass(fs))];
    assert ps[1..] == [Param(st, Dataclass(fs))];
    assert ps[1..][1..] == [];
    assert AllLeaves(ps[1..]) == KindLeaves([st], Dataclass(fs)) + AllLeaves([]);
    assert AllLeaves(ps) == KindLeaves([t], Template) + AllLeaves(ps[1..]);
  }

  /** A template parameter followed by a struct of four ndarrays: one leaf
      per field, in declaration order. */
  lemma {:induction false} FourNdArrayLeaves(t: string, st: string, a: string, b: string, c: string, d: string)
    ensures AllLeaves([Param(t, Template), Param(st, Dataclass([Field(a, NdArray), Field(b, NdArray),
                                                             Field(c, NdArray), Field(d, NdArray)]))])
            == [LaunchArg([st, a], NdArray), LaunchArg([st, b], NdArray),
                LaunchArg([st, c], NdArray), LaunchArg([st, d], NdArray)]
  {
    var fs := [Field(a, NdArray), Field(b, NdArray), Field(c, NdArray), Field(d, NdArray)];
    TemplateThenStruct(t, st, fs);
    PlainFieldLeaves([st], fs);
    var ls := FieldLeaves([st], fs);
    assert |ls| == 4;
    assert ls[0] == LaunchArg([st, a], NdArray);
    assert ls[1] == LaunchArg([st, b], NdArray);
    assert ls[2] == LaunchArg([st, c], NdArray);
    assert ls[3] == LaunchArg([st, d], NdArray);
  }

  lemma StructLeaves()
    ensures AllLeaves(K1().params) ==
            [LaunchArg([S, "_k1"], NdArray), LaunchArg([S, "_f1_no_flag"], NdArray),
             LaunchArg([S, "_f1_with_flag"], NdArray), LaunchArg([S, "_unused"], NdArray)]
  {
    FourNdArrayLeaves("flag", S, "_k1", "_f1_no_flag", "_f1_with_flag", "_unused");
  }

  function Leaf(field: string): LaunchArg {
    LaunchArg([S, field], NdArray)
  }

  lemma PassedLeaves(flag: int)
    ensures Passed(Leaf("_k1"), Used(flag))
    ensures Passed(Leaf("_f1_no_flag"), Used(flag)) <==> flag == 0
    ensures Passed(Leaf("_f1_with_flag"), Used(flag)) <==> flag != 0
    ensures !Passed(Leaf("_unused"), Used(flag))
  {
    PrefixesOfUsed(flag);
  }

  /** Two of the struct's four ndarrays reach the launch: the kernel's own
      field and the one the flag selects. */
  lemma ArraysPassedByFlag(flag: int)
    ensures LaunchArgs(K1(), Used(flag)) == [Leaf("_k1"), Leaf(FlagField(flag))]
  {
    StructLeaves();
    PassedLeaves(flag);
    FilterOfFour(Leaf("_k1"), Leaf("_f1_no_flag"), Leaf("_f1_with_flag"), Leaf("_unused"), Used(flag));
    if flag != 0 {
      assert [Leaf("_k1")] + [] + [Leaf("_f1_with_flag")] + [] == [Leaf("_k1"), Leaf(FlagField(flag))];
    } else {
      assert [Leaf("_k1")] + [Leaf("_f1_no_flag")] + [] + [] == [Leaf("_k1"), Leaf(FlagField(flag))];
    }
  }

  lemma {:induction false} FilterAppend(a: seq<LaunchArg>, b: seq<LaunchArg>, used: set<Path>)
    ensures Filter(a + b, used) == Filter(a, used) + Filter(b, used)
    decreases |a|
  {
    if a == [] {
      assert a + b == b;
    } else {
      assert (a + b)[0] == a[0] && (a + b)[1..] == a[1..] + b;
      FilterAppend(a[1..], b, used);
    }
  }

  lemma FilterCons(x: LaunchArg, rest: seq<LaunchArg>, used: set<Path>)
    ensures Filter([x] + rest, used) == (if Passed(x, used) then [x] else []) + Filter(rest, used)
  {
    assert ([x] + rest)[1..] == rest;
  }

  lemma FilterOfFour(a: LaunchArg, b: LaunchArg, c: LaunchArg, d: LaunchArg, used: set<Path>)
    ensures Filter([a, b, c, d], used) ==
            (if Passed(a, used) then [a] else []) + (if Passed(b, used) then [b] else []) +
            (if Passed(c, used) then [c] else []) + (if Passed(d, used) then [d] else [])
  {
    FilterCons(d, [], used);
    FilterCons(c, [d], used);
    FilterCons(b, [c, d], used);
    FilterCons(a, [b, c, d], used);
    assert [a] + [b, c, d] == [a, b, c, d];
    assert [b] + [c, d] == [b, c, d];
    assert [c] + [d] == [c, d];
    assert [d] + [] == [d];
    var fa := if Passed(a, used) then [a] else [];
    var fb := if Passed(b, used) then [b] else [];
    var fc := if Passed(c, used) then [c] else [];
    var fd := if Passed(d, used) then [d] else [];
    assert Filter([a, b, c, d], used) == fa + (fb + (fc + (fd + [])));
    SeqAssoc4(fa, fb, fc, fd);
  }

  lemma SeqAssoc4<T>(s1: seq<T>, s2: seq<T>, s3: seq<T>, s4: seq<T>)
    ensures s1 + (s2 + (s3 + (s4 + []))) == s1 + s2 + s3 + s4
  {
    assert s4 + [] == s4;
  }


  lemma ArrayCountByFlag(flag: int)
    ensures CountKind(LaunchArgs(K1(), Used(flag)), NdArray) == 2
  {
    ArraysPassedByFlag(flag);
    var r := [Leaf("_k1"), Leaf(FlagField(flag))];
    assert r[1..][1..] == [];
  }

  /** The used names: the struct itself and the two read leaves. */
  lemma FlatNames(flag: int)
    ensures FlatName([S]) == "__qd_struct_k1"
    ensures FlatName([S, "_k1"]) == "__qd_struct_k1__qd__k1"
    ensures FlatName([S, FlagField(flag)]) == "__qd_struct_k1__qd_" + FlagField(flag)
  {
    assert [S][1..] == [];
    assert [S, "_k1"][1..] == ["_k1"] && ["_k1"][1..] == [];
    assert [S, FlagField(flag)][1..] == [FlagField(flag)] && [FlagField(flag)][1..] == [];
  }

  lemma UsedNamesByFlag(flag: int)
    ensures UsedNames(Used(flag)) ==
            {"__qd_struct_k1", "__qd_struct_k1__qd__k1", "__qd_struct_k1__qd_" + FlagField(flag)}
  {
    PrefixesOfUsed(flag);
    FlatNames(flag);
  }
}
