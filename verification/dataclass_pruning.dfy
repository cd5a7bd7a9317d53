/** Used-parameter pruning of dataclass kernel arguments.

    A kernel may take dataclass ("struct") parameters whose leaves are
    ndarrays and scalars. Before launch, the kernel body and every function it
    calls are walked; each field chain read through a struct is recorded under
    the kernel's own parameter name (the "canonical path"), whatever the struct
    was called inside callees. Only the leaves on a recorded path are passed
    to the launch; non-struct kernel arguments are always passed and template
    arguments never are. The analysis is redone per template-value key and
    cached (the materialize cache). A separate template-mapper cache skips
    argument extraction on a repeated call with the same argument objects.

    The analyser is modelled on an abstract call graph: statements are field
    accesses, `static` branches on template values, and calls with positional,
    keyword and star-expanded arguments. */
module DataclassPruning {
  import opened Results

  /** A canonical path: kernel parameter name, then field names. */
  type Path = seq<string>

  /** Declared type of a kernel parameter or of a dataclass field. */
  datatype Kind = NdArray | Scalar | Template | Dataclass(fields: seq<Field>)
  datatype Field = Field(name: string, kind: Kind)
  datatype Param = Param(name: string, kind: Kind)

  /** What an expression denotes while the body is analysed. */
  datatype Val =
    | StructRef(path: Path)   // (part of) a dataclass kernel argument
    | Static(v: int)          // a compile-time value
    | Dynamic                 // a runtime value the analysis does not follow

  datatype Expr = Ref(name: string, fields: seq<string>) | Lit(v: int) | Runtime

  /** An argument at a call site; `Star(n)` expands a list of n runtime values. */
  datatype Arg = Pos(e: Expr) | Kw(key: string, e: Expr) | Star(count: nat)

  /** Condition of a `static if`: truthiness of, or equality with, a named value. */
  datatype Cond = Truthy(name: string) | EqualsConst(name: string, k: int)

  datatype Stmt =
    | Access(name: string, fields: seq<string>)
    | StaticIf(cond: Cond, thn: seq<Stmt>, els: seq<Stmt>)
    | CallFunc(callee: string, args: seq<Arg>)

  datatype Func = Func(params: seq<string>, body: seq<Stmt>)
  datatype Kernel = Kernel(params: seq<Param>, body: seq<Stmt>)
  type Program = map<string, Func>

  datatype PruneError =
    | StarNotLast
    | PositionalAfterKeyword
    | TooManyPositional
    | UnknownKeyword(key: string)
    | DuplicateArgument(key: string)
    | MissingArgument(key: string)
    | UnknownFunction(callee: string)
    | NotStatic(name: string)
    | CallDepthExceeded
    | MissingTemplate(name: string)

  /** A frame: what each name of the function being analysed denotes. */
  type Env = map<string, Val>

  function EvalExpr(env: Env, e: Expr): (v: Val)
    ensures v.StructRef? <==> e.Ref? && e.name in env && env[e.name].StructRef?
    ensures v.StructRef? ==> v.path == env[e.name].path + e.fields
  {
    match e
    case Lit(k) => Static(k)
    case Runtime => Dynamic
    case Ref(n, fs) =>
      if n !in env then Dynamic
      else match env[n]
        case StructRef(p) => StructRef(p + fs)
        case Static(k) => if fs == [] then Static(k) else Dynamic
        case Dynamic => Dynamic
  }

  // ---------------------------------------------------------------------
  // Argument binding
  // ---------------------------------------------------------------------

  /** A star expansion may only be the last argument of a call. */
  predicate StarIsLast(args: seq<Arg>) {
    forall i :: 0 <= i < |args| - 1 ==> !args[i].Star?
  }

  predicate PositionalAfterKw(args: seq<Arg>) {
    exists i, j :: 0 <= i < j < |args| && args[i].Kw? && args[j].Pos?
  }

  /** Values of the positional and star arguments, in order. */
  function Positionals(env: Env, args: seq<Arg>): (vs: seq<Val>)
    ensures (forall i :: 0 <= i < |args| ==> args[i].Pos?) ==> |vs| == |args|
  {
    if |args| == 0 then []
    else
      (match args[0]
       case Pos(e) => [EvalExpr(env, e)]
       case Star(n) => seq(n, _ => Dynamic)
       case Kw(_, _) => [])
      + Positionals(env, args[1..])
  }

  function Keywords(args: seq<Arg>): (kws: seq<Arg>)
    ensures forall a :: a in kws ==> a.Kw? && a in args
  {
    if |args| == 0 then []
    else (if args[0].Kw? then [args[0]] else []) + Keywords(args[1..])
  }

  /** Python rejects a function with two parameters of the same name. */
  predicate Distinct(ns: seq<string>) {
    forall i, j :: 0 <= i < j < |ns| ==> ns[i] != ns[j]
  }

  /** Binds params[i] to vs[i] for every i < |vs|. */
  function PositionalFrame(params: seq<string>, vs: seq<Val>): (f: Env)
    requires |vs| <= |params|
    ensures forall i :: 0 <= i < |vs| ==> params[i] in f
    ensures forall n :: n in f ==> n in params[..|vs|]
    ensures Distinct(params) ==> forall i :: 0 <= i < |vs| ==> f[params[i]] == vs[i]
  {
    if |vs| == 0 then map[]
    else PositionalFrame(params[1..], vs[1..])[params[0] := vs[0]]
  }

  function BindKeywords(params: seq<string>, env: Env, kws: seq<Arg>, frame: Env): (r: Result<Env, PruneError>)
    requires forall a :: a in kws ==> a.Kw?
    ensures r.Err? ==> r.error.UnknownKeyword? || r.error.DuplicateArgument?
    ensures r.Ok? ==> frame.Keys <= r.value.Keys
    ensures r.Ok? ==> forall n :: n in frame ==> r.value[n] == frame[n]
    ensures r.Ok? ==> forall n :: n in r.value && n !in frame ==> n in params
  {
    if |kws| == 0 then Ok(frame)
    else if kws[0].key !in params then Err(UnknownKeyword(kws[0].key))
    else if kws[0].key in frame then Err(DuplicateArgument(kws[0].key))
    else BindKeywords(params, env, kws[1..], frame[kws[0].key := EvalExpr(env, kws[0].e)])
  }

  function FirstMissing(params: seq<string>, frame: Env): (m: Option<string>)
    ensures m.None? <==> forall i :: 0 <= i < |params| ==> params[i] in frame
    ensures m.Some? ==> m.value in params && m.value !in frame
  {
    if |params| == 0 then None
    else if params[0] !in frame then Some(params[0])
    else FirstMissing(params[1..], frame)
  }

  /** Python call binding of `args` (evaluated in `env`) to the formal
      `params`, with the analyser's extra rule that a star must come last. */
  function Bind(params: seq<string>, env: Env, args: seq<Arg>): (r: Result<Env, PruneError>)
    ensures r.Ok? ==> StarIsLast(args) && r.value.Keys == set n | n in params
  {
    if !StarIsLast(args) then Err(StarNotLast)
    else if PositionalAfterKw(args) then Err(PositionalAfterKeyword)
    else
      var vs := Positionals(env, args);
      if |vs| > |params| then Err(TooManyPositional)
      else
        var frame :- BindKeywords(params, env, Keywords(args), PositionalFrame(params, vs));
        match FirstMissing(params, frame)
        case Some(n) => Err(MissingArgument(n))
        case None => Ok(frame)
  }

  // ---------------------------------------------------------------------
  // The used-path analysis
  // ---------------------------------------------------------------------

  function EvalCond(env: Env, c: Cond): (r: Result<bool, PruneError>)
    ensures r.Ok? <==> c.name in env && env[c.name].Static?
  {
    if c.name !in env || !env[c.name].Static? then Err(NotStatic(c.name))
    else match c
      case Truthy(n) => Ok(env[n].v != 0)
      case EqualsConst(n, k) => Ok(env[n].v == k)
  }

  /** The canonical path read by `name.fields`, if `name` denotes a struct. */
  function Accessed(env: Env, name: string, fields: seq<string>): set<Path> {
    if name in env && env[name].StructRef? then {env[name].path + fields} else {}
  }

  /** The canonical paths `body` reads, following calls up to depth `fuel`. */
  function Analyze(prog: Program, fuel: nat, env: Env, body: seq<Stmt>): (r: Result<set<Path>, PruneError>)
    decreases fuel, body
  {
    if |body| == 0 then Ok({})
    else
      var first :- AnalyzeStmt(prog, fuel, env, body[0]);
      var rest :- Analyze(prog, fuel, env, body[1..]);
      Ok(first + rest)
  }

  /** One statement: a read, the taken branch of a `static if`, or a call
      analysed in the callee's freshly bound frame. */
  function AnalyzeStmt(prog: Program, fuel: nat, env: Env, s: Stmt): (r: Result<set<Path>, PruneError>)
    decreases fuel, s
  {
    match s
    case Access(n, fs) => Ok(Accessed(env, n, fs))
    case StaticIf(c, t, e) =>
      var b :- EvalCond(env, c);
      if b then Analyze(prog, fuel, env, t) else Analyze(prog, fuel, env, e)
    case CallFunc(f, args) =>
      if fuel == 0 then Err(CallDepthExceeded)
      else if f !in prog then Err(UnknownFunction(f))
      else
        var frame :- Bind(prog[f].params, env, args);
        Analyze(prog, fuel - 1, frame, prog[f].body)
  }

  /** The kernel's own frame: each struct parameter denotes its own name,
      each template parameter its value for this launch. */
  function KernelEnv(params: seq<Param>, templates: map<string, int>): (r: Result<Env, PruneError>)
    ensures r.Ok? ==> forall n :: n in r.value && r.value[n].StructRef? ==>
                        r.value[n].path == [n] && n in StructNames(params)
    ensures r.Err? ==> r.error.MissingTemplate?
    ensures r.Err? <==> exists i :: 0 <= i < |params| && MissesTemplate(params[i], templates)
    ensures r.Ok? ==> r.value.Keys == set p | p in params :: p.name
    ensures r.Ok? && NamesDistinct(params) ==> forall i :: 0 <= i < |params| ==>
              BindsParam(params[i], templates, r.value[params[i].name])
  {
    if |params| == 0 then Ok(map[])
    else
      MissingShift(params, templates);
      var rest :- KernelEnv(params[1..], templates);
      var p := params[0];
      match p.kind
      case Dataclass(_) =>
        BindFirst(params, templates, rest, StructRef([p.name]));
        Ok(rest[p.name := StructRef([p.name])])
      case Template =>
        if p.name in templates then
          BindFirst(params, templates, rest, Static(templates[p.name]));
          Ok(rest[p.name := Static(templates[p.name])])
        else Err(MissingTemplate(p.name))
      case _ =>
        BindFirst(params, templates, rest, Dynamic);
        Ok(rest[p.name := Dynamic])
  }

  /** A template parameter the launch gives no value for. */
  predicate MissesTemplate(p: Param, templates: map<string, int>) {
    p.kind.Template? && p.name !in templates
  }

  /** A missing template is the first parameter's or one of the others'. */
  lemma MissingShift(params: seq<Param>, templates: map<string, int>)
    requires |params| > 0
    ensures (exists i :: 0 <= i < |params| && MissesTemplate(params[i], templates)) <==>
            MissesTemplate(params[0], templates) ||
            exists i :: 0 <= i < |params[1..]| && MissesTemplate(params[1..][i], templates)
  {
    if i :| 0 <= i < |params| && MissesTemplate(params[i], templates) {
      if i > 0 {
        assert params[1..][i - 1] == params[i];
      }
    }
    if i :| 0 <= i < |params[1..]| && MissesTemplate(params[1..][i], templates) {
      assert params[i + 1] == params[1..][i];
    }
  }

  /** What a kernel parameter denotes in the kernel's own frame: a struct
      its own name, a template its value for this launch, an ndarray or
      scalar a value the analysis cannot see into. */
  predicate BindsParam(p: Param, templates: map<string, int>, v: Val) {
    match p.kind
    case Dataclass(_) => v == StructRef([p.name])
    case Template => p.name in templates && v == Static(templates[p.name])
    case _ => v == Dynamic
  }

  /** Binding the first parameter on top of the frame of the others. */
  lemma BindFirst(params: seq<Param>, templates: map<string, int>, rest: Env, v: Val)
    requires |params| > 0 && BindsParam(params[0], templates, v)
    requires rest.Keys == set p | p in params[1..] :: p.name
    requires NamesDistinct(params[1..]) ==> forall i :: 0 <= i < |params[1..]| ==>
               BindsParam(params[1..][i], templates, rest[params[1..][i].name])
    ensures rest[params[0].name := v].Keys == set p | p in params :: p.name
    ensures NamesDistinct(params) ==> forall i :: 0 <= i < |params| ==>
              BindsParam(params[i], templates, rest[params[0].name := v][params[i].name])
  {
    assert params == [params[0]] + params[1..];
    if NamesDistinct(params) {
      assert NamesDistinct(params[1..]);
      forall i | 0 <= i < |params|
        ensures BindsParam(params[i], templates, rest[params[0].name := v][params[i].name])
      {
        if i > 0 {
          assert params[i] == params[1..][i - 1];
        }
      }
    }
  }

  /** Python rejects a kernel with two parameters of the same name. */
  predicate NamesDistinct(params: seq<Param>) {
    forall i, j :: 0 <= i < j < |params| ==> params[i].name != params[j].name
  }

  function StructNames(params: seq<Param>): set<string> {
    set p | p in params && p.kind.Dataclass? :: p.name
  }

  /** Canonical paths the kernel reads for one template-value key. */
  function UsedPaths(prog: Program, fuel: nat, k: Kernel, templates: map<string, int>): Result<set<Path>, PruneError> {
    var env :- KernelEnv(k.params, templates);
    Analyze(prog, fuel, env, k.body)
  }

  // ---------------------------------------------------------------------
  // Flattened names
  // ---------------------------------------------------------------------

  const Sep: string := "__qd_"

  /** `__qd_<param>__qd_<field>...` */
  function FlatName(p: Path): (s: string)
    ensures s == [] <==> p == []
    ensures p != [] ==> |s| >= |Sep| && s[..|Sep|] == Sep
  {
    if |p| == 0 then "" else Sep + p[0] + FlatName(p[1..])
  }

  /** Every non-empty prefix of a read path counts as used: the struct
      itself, each intermediate struct and the leaf. */
  function Prefixes(paths: set<Path>): set<Path> {
    set p, k | p in paths && 1 <= k <= |p| :: p[..k]
  }

  function UsedNames(paths: set<Path>): set<string> {
    set q | q in Prefixes(paths) :: FlatName(q)
  }

  // ---------------------------------------------------------------------
  // Launch arguments
  // ---------------------------------------------------------------------

  /** One value passed to the launch, by canonical path and leaf kind. */
  datatype LaunchArg = LaunchArg(path: Path, kind: Kind)

  /** Leaves (ndarray or scalar) below `prefix` of a value of kind `k`. */
  function KindLeaves(prefix: Path, k: Kind): (ls: seq<LaunchArg>)
    decreases k
    ensures forall a :: a in ls ==> |a.path| >= |prefix| && a.path[..|prefix|] == prefix
    ensures forall a :: a in ls ==> a.kind == NdArray || a.kind == Scalar
  {
    match k
    case Dataclass(fs) => FieldLeaves(prefix, fs)
    case Template => []
    case _ => [LaunchArg(prefix, k)]
  }

  function FieldLeaves(prefix: Path, fs: seq<Field>): (ls: seq<LaunchArg>)
    decreases fs
    ensures forall a :: a in ls ==> |a.path| > |prefix| && a.path[..|prefix|] == prefix
    ensures forall a :: a in ls ==> a.kind == NdArray || a.kind == Scalar
  {
    if |fs| == 0 then []
    else
      var here := KindLeaves(prefix + [fs[0].name], fs[0].kind);
      assert forall a :: a in here ==> a.path[..|prefix|] == (a.path[..|prefix| + 1])[..|prefix|];
      here + FieldLeaves(prefix, fs[1..])
  }

  /** Every leaf the kernel could be given, parameter by parameter. */
  function AllLeaves(params: seq<Param>): (ls: seq<LaunchArg>)
    ensures forall a :: a in ls ==> a.kind == NdArray || a.kind == Scalar
  {
    if |params| == 0 then []
    else KindLeaves([params[0].name], params[0].kind) + AllLeaves(params[1..])
  }

  /** A top-level leaf is a plain ndarray or scalar parameter and is always
      passed; a leaf inside a struct is passed only when used. */
  predicate Passed(a: LaunchArg, used: set<Path>) {
    |a.path| == 1 || a.path in Prefixes(used)
  }

  /** The passed leaves, in declaration order. */
  function Filter(ls: seq<LaunchArg>, used: set<Path>): (r: seq<LaunchArg>)
    ensures |r| <= |ls|
  {
    if |ls| == 0 then []
    else (if Passed(ls[0], used) then [ls[0]] else []) + Filter(ls[1..], used)
  }

  lemma {:induction false} FilterMembers(ls: seq<LaunchArg>, used: set<Path>)
    ensures forall a :: a in Filter(ls, used) <==> a in ls && Passed(a, used)
  {
    if |ls| > 0 {
      FilterMembers(ls[1..], used);
      assert forall a :: a in ls <==> a == ls[0] || a in ls[1..];
    }
  }

  /** A leaf reaches the launch exactly when it is always passed or used. */
  function LaunchArgs(k: Kernel, used: set<Path>): (r: seq<LaunchArg>)
    ensures forall a :: a in r <==> a in AllLeaves(k.params) && Passed(a, used)
  {
    FilterMembers(AllLeaves(k.params), used);
    Filter(AllLeaves(k.params), used)
  }

  /** The kinds of the launch arguments, in order. */
  function KindsOf(args: seq<LaunchArg>): (ks: seq<Kind>)
    ensures |ks| == |args| && forall i :: 0 <= i < |args| ==> ks[i] == args[i].kind
  {
    seq(|args|, i requires 0 <= i < |args| => args[i].kind)
  }

  /** `kernel_args_count_by_type[kind]`: the number of launch arguments of
      one kind. */
  function CountKind(args: seq<LaunchArg>, kind: Kind): (n: nat)
    ensures n == multiset(KindsOf(args))[kind]
    ensures n <= |args|
    ensures n == 0 <==> forall a :: a in args ==> a.kind != kind
  {
    if |args| == 0 then 0
    else
      assert KindsOf(args) == [args[0].kind] + KindsOf(args[1..]);
      (if args[0].kind == kind then 1 else 0) + CountKind(args[1..], kind)
  }

  // ---------------------------------------------------------------------
  // Materialize cache
  // ---------------------------------------------------------------------

  /** Analysed kernels, keyed by the template values of the launch. */
  datatype Materializer = Materializer(cache: map<map<string, int>, set<Path>>)

  datatype Launched = Launched(foundInCache: bool, used: set<Path>, m: Materializer)

  /** Every cached entry is what a fresh analysis of its key gives. */
  ghost predicate Coherent(m: Materializer, prog: Program, fuel: nat, k: Kernel) {
    forall key :: key in m.cache ==> UsedPaths(prog, fuel, k, key) == Ok(m.cache[key])
  }

  function Launch(m: Materializer, prog: Program, fuel: nat, k: Kernel, templates: map<string, int>): (r: Result<Launched, PruneError>)
    ensures r.Ok? ==> (r.value.foundInCache <==> templates in m.cache)
    ensures r.Ok? ==> templates in r.value.m.cache && r.value.m.cache[templates] == r.value.used
    ensures r.Ok? ==> m.cache.Keys <= r.value.m.cache.Keys
    ensures Coherent(m, prog, fuel, k) ==>
              (r.Ok? <==> UsedPaths(prog, fuel, k, templates).Ok?) &&
              (r.Ok? ==> Ok(r.value.used) == UsedPaths(prog, fuel, k, templates)
                         && Coherent(r.value.m, prog, fuel, k))
  {
    if templates in m.cache then Ok(Launched(true, m.cache[templates], m))
    else
      var used :- UsedPaths(prog, fuel, k, templates);
      Ok(Launched(false, used, Materializer(m.cache[templates := used])))
  }

  // ---------------------------------------------------------------------
  // Template-mapper extraction counting
  // ---------------------------------------------------------------------

  /** An argument object passed to a kernel call. `id` is its identity. */
  datatype ArgObject = ArgObject(id: nat, kind: Kind, slots: bool)

  /** Extractions spent on one argument: one per dataclass field; a
      non-dataclass argument costs none.  A nested dataclass field is
      counted as one more extraction per field inside it. */
  function KindExtractions(k: Kind): nat
    decreases k
  {
    match k
    case Dataclass(fs) => FieldExtractions(fs)
    case _ => 0
  }

  function FieldExtractions(fs: seq<Field>): (n: nat)
    decreases fs
    ensures n >= |fs|
  {
    if |fs| == 0 then 0 else 1 + KindExtractions(fs[0].kind) + FieldExtractions(fs[1..])
  }

  function Extractions(args: seq<ArgObject>): nat {
    if |args| == 0 then 0 else KindExtractions(args[0].kind) + Extractions(args[1..])
  }

  function Ids(args: seq<ArgObject>): (ids: seq<nat>)
    ensures |ids| == |args|
  {
    if |args| == 0 then [] else [args[0].id] + Ids(args[1..])
  }

  /** Dataclasses with slots disable the mapper's identity cache. */
  predicate Cacheable(args: seq<ArgObject>) {
    forall i :: 0 <= i < |args| ==> !args[i].slots
  }

  datatype Mapped = Mapped(extractions: nat, seen: set<seq<nat>>)

  function MapArgs(seen: set<seq<nat>>, args: seq<ArgObject>): (r: Mapped)
    ensures r.extractions == 0 || r.extractions == Extractions(args)
    ensures Cacheable(args) ==> Ids(args) in r.seen
    ensures seen <= r.seen
  {
    if Cacheable(args) && Ids(args) in seen then Mapped(0, seen)
    else Mapped(Extractions(args), if Cacheable(args) then seen + {Ids(args)} else seen)
  }
}
