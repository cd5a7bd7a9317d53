/** A dataclass with six fields, a helper that reads two of them and a
    kernel that reads two more and re-reads one under a static flag: the
    used set, and so the number of arrays and scalars passed at launch, is
    the same whatever the flag. */
module DataclassPrintUsedScenario {
  import opened Results
  import opened DataclassPruning
  import Props = DataclassPruningProperties
  import Scenario = DataclassPruningScenario

  const M: string := "md"
  const T: string := "trigger_static"

  function MyDataclass(): Kind {
    Dataclass([Field("used1", NdArray), Field("used2", NdArray), Field("used3", NdArray),
               Field("an_int", Scalar), Field("not_used_int", Scalar), Field("not_used", NdArray)])
  }

  function F1(): Func {
    Func([M], [Access(M, ["used3"]), Access(M, ["an_int"])])
  }

  function K1(): Kernel {
    Kernel([Param(M, MyDataclass()), Param(T, Template)],
           [Access(M, ["used1"]), Access(M, ["used2"]), CallFunc("f1", [Pos(Ref(M, []))]),
            StaticIf(Truthy(T), [Access(M, ["used1"])], [])])
  }

  function Prog(): Program {
    map["f1" := F1()]
  }

  function Env(flag: int): Env {
    map[M := StructRef([M]), T := Static(flag)]
  }

  function Used(): set<Path> {
    {[M, "used1"], [M, "used2"], [M, "used3"], [M, "an_int"]}
  }

  lemma KernelFrame(flag: int)
    ensures KernelEnv(K1().params, map[T := flag]) == Ok(Env(flag))
  {
    var ps := K1().params;
    var t := map[T := flag];
    assert ps[1..][1..] == [];
    assert KernelEnv(ps[1..], t) == Ok(map[T := Static(flag)]);
    assert map[T := Static(flag)][M := StructRef([M])] == Env(flag);
  }

  /** Reading one field of the struct bound to `n`. */
  lemma ReadField(prog: Program, fuel: nat, env: Env, n: string, f: string)
    requires n in env && env[n] == StructRef([M])
    ensures Analyze(prog, fuel, env, [Access(n, [f])]) == Ok({[M, f]})
  {
    assert [Access(n, [f])][1..] == [];
    assert [M] + [f] == [M, f];
    assert {[M, f]} + {} == {[M, f]};
  }

  /** Two reads in a row of fields of the struct bound to `n`. */
  lemma TwoReads(prog: Program, fuel: nat, env: Env, n: string, a: string, b: string)
    requires n in env && env[n] == StructRef([M])
    ensures Analyze(prog, fuel, env, [Access(n, [a]), Access(n, [b])]) == Ok({[M, a], [M, b]})
  {
    ReadField(prog, fuel, env, n, a);
    ReadField(prog, fuel, env, n, b);
    Props.AnalyzeAppend(prog, fuel, env, [Access(n, [a])], [Access(n, [b])]);
    assert [Access(n, [a])] + [Access(n, [b])] == [Access(n, [a]), Access(n, [b])];
    assert {[M, a]} + {[M, b]} == {[M, a], [M, b]};
  }

  lemma CalleeReads(fuel: nat)
    ensures Analyze(Prog(), fuel, map[M := StructRef([M])], F1().body) == Ok({[M, "used3"], [M, "an_int"]})
  {
    TwoReads(Prog(), fuel, map[M := StructRef([M])], M, "used3", "an_int");
  }

  lemma CalleeFrame(flag: int)
    ensures Bind(F1().params, Env(flag), [Pos(Ref(M, []))]) == Ok(map[M := StructRef([M])])
  {
    var args := [Pos(Ref(M, []))];
    assert args[1..] == [];
    assert EvalExpr(Env(flag), Ref(M, [])) == StructRef([M]);
    assert Positionals(Env(flag), args) == [StructRef([M])];
    assert Keywords(args) == [];
    assert F1().params[1..] == [];
    assert PositionalFrame(F1().params, [StructRef([M])]) == map[M := StructRef([M])];
    assert StarIsLast(args) && !PositionalAfterKw(args);
  }

  /** A lone call reads what the callee's body reads in the bound frame. */
  lemma CallStmt(prog: Program, fuel: nat, env: Env, f: string, args: seq<Arg>, frame: Env, u: set<Path>)
    requires fuel >= 1 && f in prog
    requires Bind(prog[f].params, env, args) == Ok(frame)
    requires Analyze(prog, fuel - 1, frame, prog[f].body) == Ok(u)
    ensures Analyze(prog, fuel, env, [CallFunc(f, args)]) == Ok(u)
  {
    assert [CallFunc(f, args)][1..] == [];
    assert AnalyzeStmt(prog, fuel, env, CallFunc(f, args)) == Ok(u);
    assert u + {} == u;
  }

  /** The call passes the struct whole: the helper's reads are the caller's. */
  lemma CallReads(fuel: nat, flag: int)
    requires fuel >= 1
    ensures Analyze(Prog(), fuel, Env(flag), [CallFunc("f1", [Pos(Ref(M, []))])])
            == Ok({[M, "used3"], [M, "an_int"]})
  {
    CalleeFrame(flag);
    CalleeReads(fuel - 1);
    assert Prog()["f1"] == F1();
    CallStmt(Prog(), fuel, Env(flag), "f1", [Pos(Ref(M, []))], map[M := StructRef([M])], {[M, "used3"], [M, "an_int"]});
  }

  /** The static branch re-reads `used1` when taken and reads nothing
      otherwise. */
  lemma BranchReads(fuel: nat, flag: int)
    ensures Analyze(Prog(), fuel, Env(flag), [StaticIf(Truthy(T), [Access(M, ["used1"])], [])])
            == Ok(if flag != 0 then {[M, "used1"]} else {})
  {
    var s := [StaticIf(Truthy(T), [Access(M, ["used1"])], [])];
    assert s[1..] == [];
    assert EvalCond(Env(flag), Truthy(T)) == Ok(flag != 0);
    ReadField(Prog(), fuel, Env(flag), M, "used1");
    var u: set<Path> := if flag != 0 then {[M, "used1"]} else {};
    assert AnalyzeStmt(Prog(), fuel, Env(flag), s[0]) == Ok(u);
    assert u + {} == u;
  }

  /** Whatever the flag, the kernel uses the same four fields: the branch
      adds only a field already read. */
  lemma UsedPathsEitherFlag(fuel: nat, flag: int)
    requires fuel >= 1
    ensures UsedPaths(Prog(), fuel, K1(), map[T := flag]) == Ok(Used())
  {
    KernelFrame(flag);
    var env := Env(flag);
    var a := [Access(M, ["used1"]), Access(M, ["used2"])];
    var c := [CallFunc("f1", [Pos(Ref(M, []))])];
    var b := [StaticIf(Truthy(T), [Access(M, ["used1"])], [])];
    TwoReads(Prog(), fuel, env, M, "used1", "used2");
    CallReads(fuel, flag);
    BranchReads(fuel, flag);
    Props.AnalyzeAppend(Prog(), fuel, env, c, b);
    Props.AnalyzeAppend(Prog(), fuel, env, a, c + b);
    assert a + (c + b) == K1().body;
    var ub: set<Path> := if flag != 0 then {[M, "used1"]} else {};
    assert {[M, "used1"], [M, "used2"]} + ({[M, "used3"], [M, "an_int"]} + ub) == Used();
  }

  lemma PrefixesOfUsed()
    ensures Prefixes(Used()) == {[M], [M, "used1"], [M, "used2"], [M, "used3"], [M, "an_int"]}
  {
    var used := Used();
    var ps := Prefixes(used);
    var want := {[M], [M, "used1"], [M, "used2"], [M, "used3"], [M, "an_int"]};
    forall q | q in ps ensures q in want {
      var p, k :| p in used && 1 <= k <= |p| && q == p[..k];
      if k == 1 { assert q == [M]; } else { assert q == p; }
    }
    assert [M, "used1"][..1] == [M] && [M, "used1"][..2] == [M, "used1"];
    assert [M, "used2"][..2] == [M, "used2"];
    assert [M, "used3"][..2] == [M, "used3"];
    assert [M, "an_int"][..2] == [M, "an_int"];
  }

  function Leaf(field: string, kind: Kind): LaunchArg {
    LaunchArg([M, field], kind)
  }

  /** A struct parameter followed by a template parameter: the leaves are
      the struct's fields. */
  lemma StructThenTemplate(st: string, t: string, fs: seq<Field>)
    ensures AllLeaves([Param(st, Dataclass(fs)), Param(t, Template)]) == FieldLeaves([st], fs)
  {
    var ps := [Param(st, Dataclass(fs)), Param(t, Template)];
    assert ps[1..][1..] == [];
    assert AllLeaves(ps[1..]) == [];
    assert AllLeaves(ps) == FieldLeaves([st], fs) + [];
  }


  /** A struct of six plain fields followed by a template parameter: one
      leaf per field, in declaration order. */
  lemma {:induction false} SixPlainLeaves(st: string, t: string, fs: seq<Field>)
    requires |fs| == 6
    requires forall i :: 0 <= i < |fs| ==> fs[i].kind == NdArray || fs[i].kind == Scalar
    ensures AllLeaves([Param(st, Dataclass(fs)), Param(t, Template)])
            == [LaunchArg([st, fs[0].name], fs[0].kind), LaunchArg([st, fs[1].name], fs[1].kind),
                LaunchArg([st, fs[2].name], fs[2].kind), LaunchArg([st, fs[3].name], fs[3].kind),
                LaunchArg([st, fs[4].name], fs[4].kind), LaunchArg([st, fs[5].name], fs[5].kind)]
  {
    StructThenTemplate(st, t, fs);
    Scenario.PlainFieldLeaves([st], fs);
    var ls := FieldLeaves([st], fs);
    assert |ls| == 6;
    forall k | 0 <= k < 6
      ensures ls[k] == LaunchArg([st, fs[k].name], fs[k].kind)
    {
      assert [st] + [fs[k].name] == [st, fs[k].name];
    }
  }

  /** The kernel's leaves: the dataclass's six fields in declaration order;
      the template parameter gives none. */
  lemma KernelLeaves()
    ensures AllLeaves(K1().params) ==
            [Leaf("used1", NdArray), Leaf("used2", NdArray), Leaf("used3", NdArray),
             Leaf("an_int", Scalar), Leaf("not_used_int", Scalar), Leaf("not_used", NdArray)]
  {
    SixPlainLeaves(M, T, MyDataclass().fields);
  }

  lemma PassedLeaves()
    ensures Passed(Leaf("used1", NdArray), Used()) && Passed(Leaf("used2", NdArray), Used())
    ensures Passed(Leaf("used3", NdArray), Used()) && Passed(Leaf("an_int", Scalar), Used())
    ensures !Passed(Leaf("not_used_int", Scalar), Used()) && !Passed(Leaf("not_used", NdArray), Used())
  {
    PrefixesOfUsed();
  }

  /** Six leaves of which the first four are passed. */
  lemma FilterFirstFour(l1: LaunchArg, l2: LaunchArg, l3: LaunchArg, l4: LaunchArg, l5: LaunchArg,
                        l6: LaunchArg, used: set<Path>)
    requires Passed(l1, used) && Passed(l2, used) && Passed(l3, used) && Passed(l4, used)
    requires !Passed(l5, used) && !Passed(l6, used)
    ensures Filter([l1, l2, l3, l4, l5, l6], used) == [l1, l2, l3, l4]
  {
    Scenario.FilterOfFour(l1, l2, l3, l4, used);
    Scenario.FilterCons(l6, [], used);
    Scenario.FilterCons(l5, [l6], used);
    assert [l5] + [l6] == [l5, l6] && [l6] + [] == [l6];
    Scenario.FilterAppend([l1, l2, l3, l4], [l5, l6], used);
    assert [l1, l2, l3, l4] + [l5, l6] == [l1, l2, l3, l4, l5, l6];
    assert [l1] + [l2] + [l3] + [l4] == [l1, l2, l3, l4];
  }

  /** Three arrays and one scalar reach the launch; the unread array and
      scalar are pruned. */
  lemma LaunchArgsEitherFlag()
    ensures LaunchArgs(K1(), Used()) ==
            [Leaf("used1", NdArray), Leaf("used2", NdArray), Leaf("used3", NdArray), Leaf("an_int", Scalar)]
  {
    KernelLeaves();
    PassedLeaves();
    FilterFirstFour(Leaf("used1", NdArray), Leaf("used2", NdArray), Leaf("used3", NdArray),
                    Leaf("an_int", Scalar), Leaf("not_used_int", Scalar), Leaf("not_used", NdArray), Used());
  }

  /** Three arrays then one scalar. */
  lemma CountThreeOne(a: LaunchArg, b: LaunchArg, c: LaunchArg, d: LaunchArg)
    requires a.kind == NdArray && b.kind == NdArray && c.kind == NdArray && d.kind == Scalar
    ensures CountKind([a, b, c, d], NdArray) == 3 && CountKind([a, b, c, d], Scalar) == 1
  {
    var ks := KindsOf([a, b, c, d]);
    assert ks[0] == NdArray && ks[1] == NdArray && ks[2] == NdArray && ks[3] == Scalar;
    assert ks == [NdArray, NdArray, NdArray] + [Scalar];
  }

  /** Printing the used parameters of this kernel reports three arrays and
      one int, with the static flag on or off. */
  lemma LaunchCountsEitherFlag(fuel: nat, flag: int)
    requires fuel >= 1
    ensures UsedPaths(Prog(), fuel, K1(), map[T := flag]).Ok?
    ensures var used := UsedPaths(Prog(), fuel, K1(), map[T := flag]).value;
            && CountKind(LaunchArgs(K1(), used), NdArray) == 3
            && CountKind(LaunchArgs(K1(), used), Scalar) == 1
  {
    UsedPathsEitherFlag(fuel, flag);
    LaunchArgsEitherFlag();
    CountThreeOne(Leaf("used1", NdArray), Leaf("used2", NdArray), Leaf("used3", NdArray), Leaf("an_int", Scalar));
  }
}
