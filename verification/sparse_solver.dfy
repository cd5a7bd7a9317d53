/** The sparse solver factory and the control flow of its solvers
    (`quadrants/program/sparse_solver.cpp`, `sparse_solver.h`).  Eigen's
    numerics are outside the model: whether an analysis or factorization
    succeeds is an input, and the solver records it as Eigen's status. */
module SparseSolvers {
  import opened Results
  import opened DataTypes

  datatype Cholesky = LLT | LDLT
  datatype Ordering = AMD | COLAMD

  /** Which Eigen solver the factory instantiated.  `SparseLU` is always
      created with Eigen's default ordering, whatever ordering was asked. */
  datatype Engine =
    | Simplicial(kind: Cholesky, ordering: Ordering, precision: PrimitiveType)
    | DefaultLU(precision: PrimitiveType)

  datatype SolverError =
    | UnsupportedSolverDataType(name: string)
    | UnsupportedSolverType(solverType: string)

  /** `dt_map`: only f32 and f64 have solvers. */
  function Precision(dt: PrimitiveType): Option<PrimitiveType>
  {
    var name := Name(dt);
    if name == "f32" then Some(F32) else if name == "f64" then Some(F64) else None
  }

  function CholeskyOf(solverType: string): Option<Cholesky>
  {
    if solverType == "LLT" then Some(LLT) else if solverType == "LDLT" then Some(LDLT) else None
  }

  function OrderingOf(ordering: string): Option<Ordering>
  {
    if ordering == "AMD" then Some(AMD) else if ordering == "COLAMD" then Some(COLAMD) else None
  }

  /** `make_sparse_solver`: the data type must map to a precision; a
      (precision, LLT|LDLT, AMD|COLAMD) key picks its table entry; failing
      that, "LU" gives the default `SparseLU`; anything else is an error
      naming the solver type. */
  function MakeSparseSolver(dt: PrimitiveType, solverType: string, ordering: string): (r: Result<Engine, SolverError>)
    ensures dt !in {F32, F64} ==> r == Err(UnsupportedSolverDataType(Name(dt)))
    ensures r.Ok? ==> dt in {F32, F64} && r.value.precision == dt
    ensures dt in {F32, F64} && solverType == "LU" ==> r == Ok(DefaultLU(dt))
    ensures r.Ok? && r.value.Simplicial? ==>
              Some(r.value.kind) == CholeskyOf(solverType) && Some(r.value.ordering) == OrderingOf(ordering)
    ensures r.Err? && dt in {F32, F64} ==> r == Err(UnsupportedSolverType(solverType))
  {
    NameIdentifies(dt, F32);
    NameIdentifies(dt, F64);
    match Precision(dt)
    case None => Err(UnsupportedSolverDataType(Name(dt)))
    case Some(p) =>
      match (CholeskyOf(solverType), OrderingOf(ordering))
      case (Some(kind), Some(order)) => Ok(Simplicial(kind, order, p))
      case _ =>
        if solverType == "LU" then Ok(DefaultLU(p))
        else Err(UnsupportedSolverType(solverType))
  }

  /** The matrix facts a solver reads. */
  datatype MatrixShape = MatrixShape(rows: int, cols: int, dtype: PrimitiveType)

  /** `SparseSolver`'s fields plus Eigen's last status (`info() == Success`). */
  datatype Solver = Solver(
    engine: Engine,
    rows: int,
    cols: int,
    dtype: PrimitiveType,
    isInitialized: bool,
    eigenSuccess: bool)

  /** A freshly made solver: zero dimensions, f32, not initialised.  Eigen's
      status before any call belongs to Eigen and is a parameter. */
  function NewSolver(engine: Engine, eigenStatus: bool): (s: Solver)
    ensures !s.isInitialized && s.rows == 0 && s.cols == 0 && s.dtype == F32
    ensures s.engine == engine && s.eigenSuccess == eigenStatus
  {
    Solver(engine, 0, 0, F32, false, eigenStatus)
  }

  /** `init_solver`: record the matrix's dimensions and type.  It does not
      touch `is_initialized_`. */
  function InitSolver(s: Solver, m: MatrixShape): (s': Solver)
    ensures s'.rows == m.rows && s'.cols == m.cols && s'.dtype == m.dtype
    ensures s'.engine == s.engine && s'.isInitialized == s.isInitialized && s'.eigenSuccess == s.eigenSuccess
  {
    s.(rows := m.rows, cols := m.cols, dtype := m.dtype)
  }

  /** The guard both `compute` and `analyze_pattern` open with. */
  function InitIfNeeded(s: Solver, m: MatrixShape): Solver
  {
    if !s.isInitialized then InitSolver(s, m) else s
  }

  /** `compute`: initialise if needed, factorize, and report whether Eigen
      succeeded. */
  function Compute(s: Solver, m: MatrixShape, eigenSucceeds: bool): (r: (Solver, bool))
    ensures r.1 == eigenSucceeds && r.0.eigenSuccess == eigenSucceeds
    ensures r.0.engine == s.engine && r.0.isInitialized == s.isInitialized
    ensures !s.isInitialized ==> (r.0.rows, r.0.cols, r.0.dtype) == (m.rows, m.cols, m.dtype)
    ensures s.isInitialized ==> (r.0.rows, r.0.cols, r.0.dtype) == (s.rows, s.cols, s.dtype)
  {
    var s1 := InitIfNeeded(s, m);
    var s2 := s1.(eigenSuccess := eigenSucceeds);
    (s2, if !s2.eigenSuccess then false else true)
  }

  /** `analyze_pattern`: initialise if needed, then Eigen's analysis. */
  function AnalyzePattern(s: Solver, m: MatrixShape, eigenSucceeds: bool): (s': Solver)
    ensures s'.eigenSuccess == eigenSucceeds
    ensures s'.engine == s.engine && s'.isInitialized == s.isInitialized
    ensures !s.isInitialized ==> (s'.rows, s'.cols, s'.dtype) == (m.rows, m.cols, m.dtype)
    ensures s.isInitialized ==> (s'.rows, s'.cols, s'.dtype) == (s.rows, s.cols, s.dtype)
  {
    InitIfNeeded(s, m).(eigenSuccess := eigenSucceeds)
  }

  /** `factorize`: Eigen's factorization only; no initialisation. */
  function Factorize(s: Solver, eigenSucceeds: bool): (s': Solver)
    ensures s' == s.(eigenSuccess := eigenSucceeds)
  {
    s.(eigenSuccess := eigenSucceeds)
  }

  /** `info`: did Eigen's last step succeed? */
  function Info(s: Solver): bool
  {
    s.eigenSuccess
  }
}

/** Properties of the solver model: the factory's full table, the ordering
    being ignored for LU, the error that names the solver type when only the
    ordering is wrong, `compute` agreeing with `info`, and the flag that is
    never set so that every call re-initialises. */
module SparseSolverProperties {
  import opened Results
  import opened DataTypes
  import opened SparseSolvers

  /** Each (f32|f64, LLT|LDLT, AMD|COLAMD) key resolves to its own entry. */
  lemma TableEntries(dt: PrimitiveType, kind: Cholesky, order: Ordering)
    requires dt in {F32, F64}
    ensures MakeSparseSolver(dt, if kind == LLT then "LLT" else "LDLT", if order == AMD then "AMD" else "COLAMD")
            == Ok(Simplicial(kind, order, dt))
  {
  }

  /** "LU" yields the same default LU for every ordering string. */
  lemma LUIgnoresOrdering(dt: PrimitiveType, o1: string, o2: string)
    requires dt in {F32, F64}
    ensures MakeSparseSolver(dt, "LU", o1) == MakeSparseSolver(dt, "LU", o2) == Ok(DefaultLU(dt))
  {
  }

  /** A Cholesky solver with an unknown ordering is refused, and the error
      names the solver type rather than the ordering. */
  lemma BadOrderingReportedAsSolverType(dt: PrimitiveType, ordering: string)
    requires dt in {F32, F64}
    requires ordering != "AMD" && ordering != "COLAMD"
    ensures MakeSparseSolver(dt, "LLT", ordering) == Err(UnsupportedSolverType("LLT"))
  {
  }

  /** The data type is checked first: an i32 solver fails as such, whatever
      the solver type. */
  lemma DataTypeCheckedFirst(solverType: string, ordering: string)
    ensures MakeSparseSolver(I32, solverType, ordering) == Err(UnsupportedSolverDataType("i32"))
  {
  }

  /** What `compute` returns is what `info` reports afterwards. */
  lemma ComputeAgreesWithInfo(s: Solver, m: MatrixShape, eigenSucceeds: bool)
    ensures Compute(s, m, eigenSucceeds).1 == Info(Compute(s, m, eigenSucceeds).0)
  {
  }

  /** Nothing sets the initialised flag, so a solver made by the factory
      re-initialises from whichever matrix each `compute` or
      `analyze_pattern` is given. */
  lemma EveryCallReinitialises(e: Engine, status: bool, m1: MatrixShape, m2: MatrixShape, ok1: bool, ok2: bool)
    ensures var s1 := AnalyzePattern(NewSolver(e, status), m1, ok1);
            var s2 := Compute(Factorize(s1, ok1), m2, ok2).0;
            !s1.isInitialized && (s1.rows, s1.cols, s1.dtype) == (m1.rows, m1.cols, m1.dtype)
            && !s2.isInitialized && (s2.rows, s2.cols, s2.dtype) == (m2.rows, m2.cols, m2.dtype)
  {
  }

  /** `factorize` keeps the dimensions recorded by the last initialisation. */
  lemma FactorizeKeepsShape(s: Solver, ok: bool)
    ensures (Factorize(s, ok).rows, Factorize(s, ok).cols, Factorize(s, ok).dtype) == (s.rows, s.cols, s.dtype)
    ensures Info(Factorize(s, ok)) == ok
  {
  }
}
