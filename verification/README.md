# Quadrants core: a Dafny model

This project models seven pieces of the Quadrants (Taichi-derived) runtime
as pure Dafny functions over immutable datatypes, and proves what their
sources and tests promise about them:

- **Adaptive performance dispatcher** (`_perf_dispatch.py`). It is modelled as
  a per-geometry bucket state machine that is either exploring or converged.
  The model covers registration against a prototype, the compatible subset,
  the least-tried choice, warm-up sample retention and the convergence rule.
  The convergence rule is modelled both as written and corrected (see
  Findings).
- **Dataclass argument pruning** (`test_py_dataclass.py`). The analyser
  itself is not part of this model, so this is a model of the contract its
  tests pin down:
  - call binding, including positional, keyword and trailing-star arguments;
  - `static if` gating;
  - the canonical paths a kernel reads and their `__qd_` flat names;
  - which leaves are passed at launch;
  - the materialize cache;
  - the template mapper's extraction count.
- **DLPack export** (`dlpack_funcs.cpp`). The model covers:
  - the arch check and the torch version parse and compare;
  - the once-computed byte-offset support flag;
  - the dtype table and the axis-order validator;
  - row-major strides, field shape assembly and the byte-offset versus
    pointer-shift decision.
- **Sparse matrices** (`sparse_matrix.cpp`). The model covers:
  - CSR lookup and the CSR-to-triplet expansion;
  - the triplet builder's buffer layout and its built/clear flags;
  - the (data type, storage format) factory.
- **Sparse solver** (`sparse_solver.cpp`). The model covers the factory's
  (type, solver, ordering) table and the `compute`/`analyze_pattern`
  init-on-demand flow.
- **Device capabilities** (`device_capability.cpp`). The model covers the
  name/enum conversions and the capability-level map.
- **Python-backend tensors** (`_py_tensor.py`). The model covers:
  - batch shapes and the `shape` override;
  - `_T_tc` as a dimension move to the front;
  - index-key normalisation and `__getitem__`;
  - the no-argument `transpose`.

Conventions:

- Errors are `Result`/`Option` values.
- Times, compatibility verdicts, Eigen's status and the torch version
  string are inputs.
- `runtime.sync()` is a recorded event.
- A capability's enum value is its position in a list of names that is a
  parameter.

Modules:

| module | contents |
|---|---|
| `Results` | `Option` and `Result` |
| `DataTypes` | primitive types, their names and sizes |
| `PerfDispatch`, `PerfDispatchProperties` | dispatcher |
| `DataclassPruning`, `DataclassPruningProperties`, `DataclassPruningScenario`, `DataclassPrintUsedScenario` | pruning |
| `DLPack`, `DLPackProperties` | DLPack export |
| `SparseMatrices`, `SparseMatrixProperties` | sparse matrices |
| `SparseSolvers`, `SparseSolverProperties` | sparse solver |
| `DeviceCapabilities`, `DeviceCapabilityProperties` | device capabilities |
| `PyTensors`, `PyTensorProperties` | Python-backend tensors |

## Model

| member | source | states |
|---|---|---|
| PerfDispatch.EffectiveNumWarmup | python/gstaichi/lang/_perf_dispatch.py:31-32 | `None` and `0` both fall back to `NUM_WARMUP` = 2; any other value is kept; the result is never 0 |
| PerfDispatch.NewDispatcher | python/gstaichi/lang/_perf_dispatch.py:31-45 | a new dispatcher has the prototype's parameter names, the effective warm-up count, no candidates and no buckets |
| PerfDispatch.FirstMissing | python/gstaichi/lang/_perf_dispatch.py:75-79 | finds the first kernel parameter, in signature order, that is absent from the prototype; none exists iff every parameter is in the prototype |
| PerfDispatch.Register | python/gstaichi/lang/_perf_dispatch.py:71-87 | a non-kernel is rejected; a parameter outside the prototype is reported by name; a count mismatch is reported only when every parameter is in the prototype; success appends the candidate with the next id and returns the kernel unchanged |
| PerfDispatch.RegisterAcceptsIffSameParams | python/gstaichi/lang/_perf_dispatch.py:71-87 | with distinct parameter names, registration succeeds iff the object is a kernel and its parameter set equals the prototype's |
| PerfDispatch.RegisterKeepsIdsOrdered | python/gstaichi/lang/_perf_dispatch.py:13-20 | the class-wide id counter keeps candidate ids strictly increasing in registration order and below the next id |
| PerfDispatch.Compatible | python/gstaichi/lang/_perf_dispatch.py:93-99 | a candidate is compatible iff it has no predicate or its predicate accepts the call |
| PerfDispatch.CompatibleKeepsIdOrder | python/gstaichi/lang/_perf_dispatch.py:93-99 | filtering keeps the registration (id) order |
| PerfDispatch.LeastTried | python/gstaichi/lang/_perf_dispatch.py:101-110 | the chosen candidate has the minimum trial count, and every earlier candidate has strictly more trials (strict `<` in the scan) |
| PerfDispatch.FastestIndex | python/gstaichi/lang/_perf_dispatch.py:115-120 | the chosen candidate has samples, and its sample list comes no later in Python's list order than any other sampled candidate's; ties go to the first |
| PerfDispatchProperties.FirstSampleDecides | python/gstaichi/lang/_perf_dispatch.py:115-120 | sorting whole sample lists lets the first sample decide: `[2, 2]` is chosen over `[5, 1]` |
| PerfDispatch.Explore | python/gstaichi/lang/_perf_dispatch.py:168-183 | runs the least-tried candidate and increments its count; converges iff every tried candidate has `num_warmup + 1` trials; otherwise keeps the new counts and samples; as written, a converging call stores the candidate it ran |
| PerfDispatch.Retain | python/gstaichi/lang/_perf_dispatch.py:176-179 | the elapsed sample is appended iff the new count is at least `num_warmup` |
| PerfDispatch.Choice | python/gstaichi/lang/_perf_dispatch.py:115-183 | as written, the stored candidate is the one just run; under the corrected rule it is the candidate `_update_fastest` picks from every registered candidate with samples in the bucket, whether or not the converging call accepts it |
| PerfDispatch.CallUsing | python/gstaichi/lang/_perf_dispatch.py:150-184 | a converged bucket invokes its choice directly, with no sync and no state change; an empty compatible set is the only error; a single compatible candidate is stored and run without sync; otherwise the call runs exactly one compatible candidate between two syncs |
| PerfDispatch.CallLeavesOtherBuckets | python/gstaichi/lang/_perf_dispatch.py:150-184 | a call changes no bucket but its own geometry's |
| PerfDispatchProperties.Drive | python/gstaichi/lang/_perf_dispatch.py:122-184 | a successful run of calls yields one step per elapsed time |
| PerfDispatchProperties.ConvergedIsTerminal | python/gstaichi/lang/_perf_dispatch.py:150-153 | once converged, every later call succeeds, runs the stored choice with no barrier and leaves the dispatcher unchanged |
| PerfDispatchProperties.StaysConverged | python/gstaichi/lang/_perf_dispatch.py:150-153 | a converged bucket is still converged after any run of calls |
| PerfDispatchProperties.BumpLeastTried | python/gstaichi/lang/_perf_dispatch.py:101-113 | incrementing a least-tried count keeps every count within one of the others and at most `num_warmup + 1`; the result is finished iff every candidate reached `num_warmup + 1` |
| PerfDispatchProperties.ExploreKeepsBalance | python/gstaichi/lang/_perf_dispatch.py:168-183 | across exploring calls, trial counts of compatible candidates differ by at most one and never exceed `num_warmup + 1`; convergence happens exactly when all reach `num_warmup + 1` |
| PerfDispatchProperties.SumCountsIncrement | python/gstaichi/lang/_perf_dispatch.py:176-177 | a trial raises the bucket's total trial count by exactly one |
| PerfDispatchProperties.TrialBudgetIsProduct | python/gstaichi/lang/_perf_dispatch.py:112-113 | the trial budget is `(num_warmup + 1)` times the number of compatible candidates |
| PerfDispatchProperties.ExploringBelowBound | python/gstaichi/lang/_perf_dispatch.py:112-113 | while exploring, the total trial count is below the budget |
| PerfDispatchProperties.ExploreStepCounts | python/gstaichi/lang/_perf_dispatch.py:168-183 | an exploring call either converges, when its trial is the last of the budget, or keeps the invariant with one more trial |
| PerfDispatchProperties.ExplorationEndsExactly | python/gstaichi/lang/_perf_dispatch.py:168-183 | from any balanced exploring state, a run of calls ends converged iff the trials so far plus the calls reach the budget |
| PerfDispatchProperties.FreshBucketConvergesAfterExactly | python/gstaichi/lang/_perf_dispatch.py:112-113 | with two or more compatible candidates, a fresh bucket converges after exactly `(num_warmup + 1)` × (number of candidates) calls, and not before |
| PerfDispatchProperties.IntendedStoresFastest | python/gstaichi/lang/_perf_dispatch.py:115-120 | under the corrected rule, a converging call stores a registered candidate with samples whose sample list, the new sample included, comes no later in Python's list order than that of any registered candidate with samples in the bucket, compatible with this call or not |
| PerfDispatchProperties.IncompatibleSampledCandidateChosen | python/gstaichi/lang/_perf_dispatch.py:115-120 | a candidate that retained the best samples on earlier calls but is refused by the converging call's predicate is still the one `_update_fastest` picks, and the corrected rule stores it |
| PerfDispatchProperties.ConvergesOnLastRunNotFastest | python/gstaichi/lang/_perf_dispatch.py:180-183 | with a fast and a slow candidate alternating, the code as written converges on the slow one (run last), the corrected rule on the fast one |
| DataclassPruning.EvalExpr | tests/python/test_py_dataclass.py:1356-1416 | an expression denotes a struct path iff it names a struct-valued variable, and the path is that variable's path plus the accessed fields |
| DataclassPruning.Bind | tests/python/test_py_dataclass.py:2361-2420 | a successful binding has a star only in last position and binds exactly the callee's parameters |
| DataclassPruning.BindKeywords | tests/python/test_py_dataclass.py:1420-1497 | keyword binding keeps every positional binding and binds only callee parameters; a failure is an unknown or duplicate keyword |
| DataclassPruning.KernelEnv | tests/python/test_py_dataclass.py:1822-1858 | the kernel frame fails iff some template parameter has no value, and only with that error; otherwise it binds exactly the parameter names, and with distinct names each struct parameter denotes its own one-element path, each template its value and each plain parameter an opaque value |
| DataclassPruningProperties.KernelEnvStructsExactly | tests/python/test_py_dataclass.py:1822-1858 | with distinct parameter names, the names bound to struct paths are exactly the dataclass parameters |
| DataclassPruning.FlatName | tests/python/test_py_dataclass.py:62-105 | only the empty path flattens to the empty name; any other flat name starts with `__qd_` |
| DataclassPruningProperties.FlatNameAppend | tests/python/test_py_dataclass.py:1165-1188 | flattening a longer path extends the flat name of its prefix: `flat(p + q) == flat(p) + flat(q)` |
| DataclassPruningProperties.FlatNameInjective | tests/python/test_py_dataclass.py:1165-1188 | two paths whose components hold no `__qd_` and do not end in `__qd` have equal flat names only if they are equal |
| DataclassPruningProperties.FlatNameCollision | tests/python/test_py_dataclass.py:1165-1188 | without that condition distinct paths collide: `[x + "__qd", y]` and `[x, "_qd_" + y]` flatten alike |
| DataclassPruning.LaunchArgs | tests/python/test_py_dataclass.py:944-996 | a leaf is passed iff it is a top-level parameter or its path is a prefix of a read path |
| DataclassPruning.CountKind | tests/python/test_py_dataclass.py:980-981 | the count of launch arguments of a kind is that kind's multiplicity among the arguments' kinds, zero iff none has it |
| DataclassPruning.Launch | tests/python/test_py_dataclass.py:1860-1916 | a launch hits the cache iff its template values were seen; a coherent cache stays coherent and returns what a fresh analysis returns |
| DataclassPruning.MapArgs | tests/python/test_py_dataclass.py:925-940 | the mapper extracts nothing or every field, and records the argument identities unless slots disable caching |
| DataclassPruningProperties.StarBeforeArgumentRejected | tests/python/test_py_dataclass.py:2386-2420 | a star followed by a positional or a keyword argument is rejected with STARNOTLAST |
| DataclassPruningProperties.TrailingStarBinds | tests/python/test_py_dataclass.py:2361-2384 | a trailing star expansion binds |
| DataclassPruningProperties.BindMixedAgree | tests/python/test_py_dataclass.py:1420-1497 | passing the same values positionally, by keyword, or split at any point binds the same frame |
| DataclassPruningProperties.BindRename | tests/python/test_py_dataclass.py:1356-1416 | renaming a caller variable does not change what a call binds |
| DataclassPruningProperties.AnalyzeRename | tests/python/test_py_dataclass.py:1356-1416 | renaming a variable throughout a body leaves the read paths unchanged |
| DataclassPruningProperties.AnalyzeAppend | tests/python/test_py_dataclass.py:1654-1699 | a body's read paths are the union of its parts' read paths, so two calls contribute both branches' leaves |
| DataclassPruningProperties.StaticBranchNotTaken | tests/python/test_py_dataclass.py:1893-1897 | a `static if` whose condition holds reads exactly its taken branch; the untaken branch contributes nothing |
| DataclassPruningProperties.AnalyzeMoreFuel | tests/python/test_py_dataclass.py:39-112 | a successful analysis of a call chain gives the same read paths when one more level of calls is allowed |
| DataclassPruningProperties.UsedPathsStableInFuel | tests/python/test_py_dataclass.py:39-112 | once the kernel's used set is found, every larger call-depth bound gives the same set |
| DataclassPruningProperties.UsedPathsRooted | tests/python/test_py_dataclass.py:1865-1869 | every read path starts at a struct parameter of the kernel, through any chain of calls and renamings |
| DataclassPruningProperties.UsedNamesStartAtStruct | tests/python/test_py_dataclass.py:1865-1869 | every used name is the flat name of a prefix of a read path rooted at a kernel struct parameter |
| DataclassPruningProperties.PlainParamsAlwaysPassed | tests/python/test_py_dataclass.py:1133-1136 | non-dataclass array and scalar kernel parameters are always passed |
| DataclassPruningProperties.CacheHitsOnRepeatedKey | tests/python/test_py_dataclass.py:1860-1916 | alternating two template values misses on each first use and hits on every repeat, returning each value's own used set |
| DataclassPruningProperties.RepeatCallExtractions | tests/python/test_py_dataclass.py:925-940 | a repeat call with the same argument objects extracts nothing when caching is enabled, and everything when slots disable it |
| DataclassPruningProperties.TwoStructArgsExtractions | tests/python/test_py_dataclass.py:892-940 | two struct arguments of two fields cost `2 × fields` extractions, then 0 on repeat without slots and again `2 × fields` with slots |
| DataclassPruningScenario.UsedPathsByFlag | tests/python/test_py_dataclass.py:1845-1897 | in the reused-function test the kernel reads `_k1` plus `_f1_with_flag` or `_f1_no_flag` according to the flag |
| DataclassPruningScenario.UsedNamesByFlag | tests/python/test_py_dataclass.py:1857-1897 | the used names are `__qd_struct_k1`, `__qd_struct_k1__qd__k1` and the flag's field name |
| DataclassPruningScenario.StructLeaves | tests/python/test_py_dataclass.py:1828-1833 | the struct parameter contributes its four ndarray fields, in order, and the template parameter none |
| DataclassPruningScenario.ArraysPassedByFlag | tests/python/test_py_dataclass.py:1845-1864 | only `_k1` and the flag's field are passed; `_unused` and the other branch's field are not |
| DataclassPruningScenario.ArrayCountByFlag | tests/python/test_py_dataclass.py:1857-1864 | two arrays are passed for either flag value |
| DataclassPrintUsedScenario.UsedPathsEitherFlag | tests/python/test_py_dataclass.py:944-995 | in the print-used test the kernel reads `used1`, `used2` and, through the helper, `used3` and `an_int`, whatever `trigger_static` is |
| DataclassPrintUsedScenario.KernelLeaves | tests/python/test_py_dataclass.py:946-953 | the dataclass parameter contributes its six fields in order, the template parameter none |
| DataclassPrintUsedScenario.LaunchArgsEitherFlag | tests/python/test_py_dataclass.py:944-995 | exactly `used1`, `used2`, `used3` and `an_int` are passed; `not_used` and `not_used_int` are pruned |
| DataclassPrintUsedScenario.LaunchCountsEitherFlag | tests/python/test_py_dataclass.py:977-995 | for both values of the static flag the launch passes three arrays and one int |
| DLPack.ValidateArch | quadrants/python/dlpack_funcs.cpp:22-29 | exactly the x64, arm64, CUDA, Metal and AMDGPU archs are accepted; any other arch is the unsupported-arch error |
| DLPack.VersionLte | quadrants/python/dlpack_funcs.cpp:31-48 | "at most" is lexicographic on (major, minor, patch) |
| DLPackProperties.VersionLteIsTotalOrder | quadrants/python/dlpack_funcs.cpp:38-47 | the comparison is reflexive, antisymmetric, transitive and total |
| DLPackProperties.ScanVersionRoundTrip | quadrants/python/dlpack_funcs.cpp:35-36 | scanning `a.b.c` followed by a local tag reads back (a, b, c) |
| DLPackProperties.ScanVersionShort | quadrants/python/dlpack_funcs.cpp:35-36 | a missing patch component reads as 0 |
| DLPack.TorchSupportsByteOffset | quadrants/python/dlpack_funcs.cpp:50-58 | support means torch is newer than 2.9.1; once checked, the cached answer is returned |
| DLPackProperties.ByteOffsetRefusedAt291 | quadrants/python/dlpack_funcs.cpp:50-58 | torch 2.9.1, with any local tag, has no byte-offset support |
| DLPackProperties.ByteOffsetAcceptedAt2100 | quadrants/python/dlpack_funcs.cpp:50-58 | torch 2.10.0 has byte-offset support |
| DLPackProperties.ByteOffsetComputedOnce | quadrants/python/dlpack_funcs.cpp:50-58 | after the first check, any later version string gets the same answer |
| DLPack.TypeInfo | quadrants/python/dlpack_funcs.cpp:116-155 | only i32, i64, f32, f64 and u1 map to DLPack codes, with bits 8 × size; u1 is Bool and floats are Float; non-primitive types are a distinct error |
| DLPack.ValidateAxisOrdering | quadrants/python/dlpack_funcs.cpp:157-203 | succeeds iff the axes, collected root to leaf as they become active, are 0..ndim-1 in order |
| DLPackProperties.PlainDenseFieldAccepted | quadrants/python/dlpack_funcs.cpp:157-203 | a root → dense → place path is accepted |
| DLPackProperties.NonSequencedAxesRejected | tests/python/quadrants/lang/test_dlpack.py:175-183 | axes activated as 0, 2, 1 are rejected |
| DLPack.CalcStrides | quadrants/python/dlpack_funcs.cpp:205-215 | the last stride is 1, each stride is the next stride times the next extent, and there are none for ndim 0 |
| DLPackProperties.OffsetInBuffer | quadrants/python/dlpack_funcs.cpp:205-215 | an in-bounds index has a row-major offset inside the buffer |
| DLPack.FieldShape | quadrants/python/dlpack_funcs.cpp:277-290 | the axis sizes come first, then n when element_ndim ≥ 1 and m when it is 2; the length is ndim + element_ndim |
| DLPack.FieldData | quadrants/python/dlpack_funcs.cpp:252-265 | a non-negative offset goes into `byte_offset` when supported; otherwise it shifts the pointer, which is an error on Metal |
| DLPackProperties.FieldOffsetSameByte | quadrants/python/dlpack_funcs.cpp:252-265 | both placements of the offset address the same first byte |
| DLPack.FieldToDLPack | quadrants/python/dlpack_funcs.cpp:217-318 | a field export succeeds iff the tree is dense and allocated, the arch is valid, the data placement and the type are supported and the axes are ordered; its shape is the field shape with row-major strides, its dtype the field's type code and width with one lane, and its data pointer and byte offset the field's place in the tree as the torch-version check decides, which it caches |
| DLPack.NdarrayToDLPack | quadrants/python/dlpack_funcs.cpp:320-387 | an ndarray export succeeds iff the arch and type are supported, with the total shape, row-major strides, zero byte offset and the type's code and width with one lane |
| DLPackProperties.FieldMatchesNdarray | quadrants/python/dlpack_funcs.cpp:217-387 | a field export has the same shape, strides and type as an ndarray export of the field's shape |
| DLPackProperties.FieldAtTreeStartIsNdarray | quadrants/python/dlpack_funcs.cpp:217-387 | a field at tree offset 0 exports exactly like an ndarray |
| DLPackProperties.VulkanRefused | tests/python/quadrants/lang/test_dlpack.py:83-93 | Vulkan is refused for fields and ndarrays alike |
| SparseMatrices.GetElementFromCsr | quadrants/program/sparse_matrix.cpp:65-77 | the loop returns the value of the first entry of the row with that column, else zero |
| SparseMatrixProperties.ExpansionWalksStorage | quadrants/program/sparse_matrix.cpp:50-58 | the expansion visits storage positions `row_ptr[0]..row_ptr[k]` in order, each with its stored column |
| SparseMatrixProperties.ExpansionRowsBelow | quadrants/program/sparse_matrix.cpp:50-58 | every expanded entry belongs to one of the expanded rows |
| SparseMatrixProperties.ExpansionAgreesWithLookup | quadrants/program/sparse_matrix.cpp:50-77 | the first expanded entry at (row, col) is exactly the one CSR lookup finds |
| SparseMatrixProperties.LookupIsFirstExpandedValue | quadrants/program/sparse_matrix.cpp:50-77 | lookup returns the value of the first expanded entry at (row, col), or zero when there is none |
| SparseMatrices.NewBuilder | quadrants/program/sparse_matrix.cpp:83-95 | the builder accepts only 4- and 8-byte element types and starts unbuilt with no triplets |
| SparseMatrices.Clear | quadrants/program/sparse_matrix.cpp:201-205 | clearing resets the flag and count and zeroes slot 0 only |
| SparseMatrices.Build | quadrants/program/sparse_matrix.cpp:162-195 | a built builder is refused; success reads `data[0]` triplets, the i-th from words `1+3i`, `2+3i`, `3+3i`, uses the int32 layout iff the element size is 4, and clears; a failure after the flag is set leaves the builder built |
| SparseMatrixProperties.Write | quadrants/program/sparse_matrix.cpp:162-176 | a kernel's write puts the count in slot 0 and the triplets after it, and leaves every later word as it was |
| SparseMatrixProperties.DecodeWrite | quadrants/program/sparse_matrix.cpp:162-176 | reading back as many triplets as were written returns them, whatever the buffer held before |
| SparseMatrixProperties.BuildReadsWhatWasWritten | quadrants/program/sparse_matrix.cpp:162-195 | a build returns exactly the triplets a kernel wrote |
| SparseMatrixProperties.ReusedBufferReadsOnlyNewTriplets | quadrants/program/sparse_matrix.cpp:162-205 | clearing zeroes only slot 0, yet a second build on the reused buffer returns exactly the second write's triplets, not stale ones |
| SparseMatrixProperties.RebuildAfterBuildIsEmpty | quadrants/program/sparse_matrix.cpp:201-205 | after a build, building again gives an empty matrix |
| SparseMatrixProperties.FailedBuildLocksBuilder | quadrants/program/sparse_matrix.cpp:178-195 | an unsupported i32 build fails and leaves the builder refusing every later build |
| SparseMatrices.MakeSparseMatrix | quadrants/program/sparse_matrix.cpp:269-289 | only f32/f64 × col_major/row_major are accepted; an unknown format fails first |
| SparseMatrixProperties.FactoryTable | quadrants/program/sparse_matrix.cpp:269-289 | supported pairs give their matrix; an unknown format and an i64 type give their errors |
| SparseSolvers.MakeSparseSolver | quadrants/program/sparse_solver.cpp:176-212 | the data type is checked first (f32/f64 only); a Cholesky key picks its entry; "LU" gives the default LU; anything else is an error naming the solver type |
| SparseSolverProperties.TableEntries | quadrants/program/sparse_solver.cpp:181-197 | each of the eight (precision, LLT/LDLT, AMD/COLAMD) keys resolves to its own entry |
| SparseSolverProperties.LUIgnoresOrdering | quadrants/program/sparse_solver.cpp:198-209 | "LU" gives the same solver whatever the ordering |
| SparseSolverProperties.BadOrderingReportedAsSolverType | quadrants/program/sparse_solver.cpp:194-211 | a Cholesky type with an unknown ordering fails with an error naming the solver type |
| SparseSolverProperties.DataTypeCheckedFirst | quadrants/program/sparse_solver.cpp:187-192 | an i32 solver fails on its type whatever the solver type |
| SparseSolvers.Compute | quadrants/program/sparse_solver.cpp:97-109 | `compute` initialises an uninitialised solver from the matrix and returns Eigen's success |
| SparseSolvers.AnalyzePattern | quadrants/program/sparse_solver.cpp:110-118 | `analyze_pattern` initialises an uninitialised solver and records Eigen's status |
| SparseSolvers.Factorize | quadrants/program/sparse_solver.cpp:120-125 | `factorize` only records Eigen's status |
| SparseSolverProperties.ComputeAgreesWithInfo | quadrants/program/sparse_solver.cpp:146-149 | what `compute` returns is what `info` then reports |
| SparseSolverProperties.EveryCallReinitialises | quadrants/program/sparse_solver.h:32-36 | the initialised flag is never set, so each `analyze_pattern` and `compute` takes its dimensions from its own matrix |
| DeviceCapabilities.Str2Devcap | quadrants/rhi/device_capability.cpp:6-13 | a name parses iff it is listed, to its first position; otherwise the error names it |
| DeviceCapabilities.ToString | quadrants/rhi/device_capability.cpp:15-27 | a listed value prints its name; any other prints "Unknown" |
| DeviceCapabilityProperties.NameRoundTrip | quadrants/rhi/device_capability.cpp:6-27 | parsing a listed name and printing it gives the name back |
| DeviceCapabilityProperties.CapabilityRoundTrip | quadrants/rhi/device_capability.cpp:6-27 | with distinct names, printing a listed value and parsing it gives the value back |
| DeviceCapabilities.Contains | quadrants/rhi/device_capability.cpp:29-32 | 1 iff the capability is a key of the map |
| DeviceCapabilities.Get | quadrants/rhi/device_capability.cpp:33-39 | the stored level, or 0 when absent |
| DeviceCapabilities.Set | quadrants/rhi/device_capability.cpp:40-42 | afterwards `get` gives the new level and `contains` gives 1; every other capability is unchanged |
| DeviceCapabilityProperties.SetOverwritesAndCommutes | quadrants/rhi/device_capability.cpp:40-42 | a second set of the same capability wins; sets of different capabilities commute |
| DeviceCapabilities.ToInner | quadrants/rhi/device_capability.cpp:51-54 | the map's keys are the contained capabilities, with their `get` levels |
| PyTensors.Shape | python/quadrants/lang/_py_tensor.py:33-37 | `shape` is the batch shape when set, else the real size |
| PyTensors.SetupViews | python/quadrants/lang/_py_tensor.py:137-145 | the batch shape is the first `batch_ndim` sizes; `_T_tc` is the tensor itself for `batch_ndim` ≤ 1, else dimension `batch_ndim-1` moved to the front; too many batch dimensions is an error |
| PyTensors.CreateTensor | python/quadrants/lang/_py_tensor.py:129-134 | a tensor has the requested size; without `batch_ndim` its shape is the whole size |
| PyTensorProperties.MovedIndexRoundTrip | python/quadrants/lang/_py_tensor.py:140 | moving a dimension to the front and back is the identity, both ways |
| PyTensorProperties.MoveToFrontKeepsElements | python/quadrants/lang/_py_tensor.py:140 | the moved view reads the original element at the moved index |
| PyTensorProperties.DefaultBatchIsWholeShape | tests/python/gstaichi/lang/python_backend/test_python_backend_tensor.py:98-103 | with no `batch_ndim`, the batch shape equals the shape |
| PyTensorProperties.BatchShapeIsPrefix | python/quadrants/lang/_py_tensor.py:143 | the shape is the first `batch_ndim` sizes while the real size is unchanged |
| PyTensorProperties.Vec3OverTwoBatchDims | tests/python/gstaichi/lang/python_backend/test_python_backend_tensor.py:67-75 | a (10, 4, 3) tensor with two batch dimensions has shape (10, 4), and `_T_tc` has size (4, 10, 3) with swapped leading indices |
| PyTensorProperties.OneBatchDimNoMove | tests/python/gstaichi/lang/python_backend/test_python_backend_tensor.py:60-64 | with one batch dimension, `_T_tc` is the tensor itself |
| PyTensorProperties.TooManyBatchDims | python/quadrants/lang/_py_tensor.py:140 | moving a dimension beyond the size fails |
| PyTensors.UnpackKey | python/quadrants/lang/_py_tensor.py:64-74 | a 1-D key tensor becomes a tuple of its ints; a one-element list becomes its element; each 0-d tensor in a tuple becomes the int it holds and nothing else in the tuple changes, so a tuple without tensors is unchanged; a foreign or non-1-D tensor, a list of other length and any other key are unchanged |
| PyTensorProperties.TupleWithoutTensorsUnchanged | python/quadrants/lang/_py_tensor.py:70-73 | a tuple without tensors is unchanged |
| PyTensorProperties.UnpackPeelsOneListLevel | python/quadrants/lang/_py_tensor.py:68-69 | unpacking removes one level of single-element list only |
| PyTensors.GetItem | python/quadrants/lang/_py_tensor.py:87-91 | the normalised key is compared with 0 unless it is a tuple; the scalar is returned iff the tensor is 0-d and that comparison holds; every other key goes to torch indexing as normalised; the only failure is the ambiguous truth value of a multi-element tensor key |
| PyTensorProperties.ZeroDimIndexedByZero | python/quadrants/lang/_py_tensor.py:87-91 | a 0-d tensor indexed by 0 or [0] returns its scalar |
| PyTensorProperties.PlainTensorKeyAmbiguous | python/quadrants/lang/_py_tensor.py:88-89 | comparing a two-element plain tensor key with 0 is an ambiguous truth value |
| PyTensors.Transpose | python/quadrants/lang/_py_tensor.py:104-109 | `transpose()` with no arguments needs exactly two dimensions and swaps them, for both size and elements |
| PyTensorProperties.TransposeInvolution | python/quadrants/lang/_py_tensor.py:104-109 | transposing twice gives back the same size and elements |
| PyTensorProperties.TransposeTwoByThree | tests/python/gstaichi/lang/python_backend/test_python_backend_tensor.py:377-385 | a 2×3 matrix transposes to the expected 3×2 one |

## Left out

- Eigen numerics are not modelled: `solve`, matrix arithmetic, `spmv`, printing and `mmwrite` are floating-point work or file output.
- `make_sparse_matrix_from_ndarray` and the printing side of `print_triplets_from_csr` are not modelled; only the expansion order is.
- `get_raw_ptr`, the DLPack capsule, the deleter and device lookup are not modelled, because they manage foreign memory. The device type is opaque.
- Real timing, `runtime.sync()` and the kernels themselves are not modelled. Times are abstract naturals, sync is an event, and a run is an event naming the candidate.
- Python's `set` iteration order over candidates is replaced by registration order. The source does not fix an order.
- The class-wide `kernel_impl_idx` counter is threaded through as a parameter.
- PerfDispatch.FastestIndex: breaks a tie between equal sample lists by registration order. The source's stable sort keeps the dict's order, which is the order in which candidates first retained a sample. Samples are naturals, not floats.
- The dataclass analyser is not part of this model. Its behaviour is the contract its tests pin down. Calls are followed to a depth `fuel`; a call deeper than `fuel` makes the analysis fail with a call-depth error rather than read nothing, and a successful result does not change with more fuel (DataclassPruningProperties.UsedPathsStableInFuel).
- DataclassPruning.MapArgs: counts a plain (non-dataclass) argument as 0 extractions by choice. The tests pass only dataclass arguments, and `_extract_arg` is not part of this model.
- Extraction counts for nested dataclasses: the model counts a nested dataclass field as one extraction for each field inside it; the source's mapper for nested dataclasses is not part of this model, so that count is a modelling choice.
- DataclassPruningProperties.AnalyzeRename: states that the two analyses succeed together with equal used sets. It does not claim identical errors, because a static-condition error names the renamed variable.
- The capability list of `rhi_constants.inc.h` is not part of this model. It is the parameter `names`.
- 32- and 64-bit overflow is not modelled. This covers strides, products, shapes and `int` triplet words; the pointer is reduced modulo 2^64.
- DLPack.FieldToDLPack: requires `element_ndim` in 0..2 and as many axis sizes as active indices, which the source's callers guarantee.
- SparseMatrices.Build: requires the count in slot 0 to lie between 0 and `max_num_triplets`. An out-of-range count written by a kernel is undefined behaviour in the source.
- PyTensors.SetupViews: takes `batch_ndim` as a natural. A negative `batch_ndim` and torch's negative-dimension wrapping are not modelled.
- PyTensors.EqualsZero: float keys are not modelled, so `t[0.0]` on a 0-d tensor, which the source answers with the element because `0.0 == 0`, has no counterpart. Every key other than an int, bool or tensor is a slice, `None` or `Ellipsis`, and never equals 0.
- Torch storage is reduced to a size plus an element function. `__setitem__`, `__iter__`, arithmetic and the numpy views are not modelled.

## Findings

| source | as written | input that shows it | evidently intended | confidence | as-written member | corrected member |
|---|---|---|---|---|---|---|
| python/gstaichi/lang/_perf_dispatch.py:180-183 | after `_update_fastest`, the stored choice is overwritten with the only entry of the local `speeds_l`, which is the candidate run on the converging call | two compatible candidates, warm-up 2, alternating elapsed times 1, 10, 1, 10, 1, 10: the sixth call converges and stores the slow candidate | store the candidate `_update_fastest` has just picked: among every candidate with samples in the bucket, including ones the converging call does not accept, the one whose retained sample list comes first in Python's list order | not executed | PerfDispatchProperties.ConvergesOnLastRunNotFastest | PerfDispatchProperties.IntendedStoresFastest |
