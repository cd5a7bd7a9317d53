/** The adaptive performance dispatcher of `_perf_dispatch.py`.

    A dispatcher owns a set of registered implementations ("candidates") of
    one logical kernel. Every call first computes a geometry bucket; each
    bucket is either still exploring (per-candidate trial counts and retained
    elapsed-time samples) or converged on one stored candidate.

    Modelling choices:
    - a candidate is identified by its `kernel_impl_idx` (a global counter,
      threaded explicitly as `nextId`); the compatible candidates are listed
      in registration order, which is the deterministic tie-break standing
      in for Python's `set` iteration order;
    - the geometry hash, the predicate verdicts and the elapsed time are
      inputs of a call; time is an abstract `nat`;
    - `runtime.sync()` and the kernel invocation are recorded as events, so
      the barriers a call issues are observable. */
module PerfDispatch {
  import opened Results

  /** `NUM_WARMUP`. */
  const DefaultNumWarmup: int := 2

  /** `num_warmup if num_warmup else NUM_WARMUP`: both `None` and `0` are falsy. */
  function EffectiveNumWarmup(given: Option<int>): (nw: int)
    ensures given == None || given == Some(0) ==> nw == DefaultNumWarmup
    ensures given.Some? && given.value != 0 ==> nw == given.value
    ensures nw != 0
  {
    match given
    case None => DefaultNumWarmup
    case Some(n) => if n == 0 then DefaultNumWarmup else n
  }

  /** What registration can observe of a decorated object: whether it is a
      kernel callable, and its parameter names in signature order. */
  datatype Callable = Callable(name: string, isKernel: bool, params: seq<string>)

  /** A `DispatchKernelImpl`: the wrapped kernel, its id, and whether an
      `is_compatible` predicate was supplied. */
  datatype Impl = Impl(id: nat, kernel: Callable, hasPredicate: bool)

  /** Per-geometry state: still exploring, or converged on one candidate. */
  datatype Bucket =
    | Exploring(trials: map<nat, nat>, times: map<nat, seq<nat>>)
    | Converged(choice: Impl)

  datatype Dispatcher = Dispatcher(
    numWarmup: int,
    prototype: set<string>,
    impls: seq<Impl>,
    buckets: map<int, Bucket>)

  /** `PerformanceDispatcher.__init__`: the prototype's parameter names and
      the effective warm-up count; no candidates, no buckets. */
  function NewDispatcher(prototype: set<string>, numWarmup: Option<int>): (d: Dispatcher)
    ensures d.impls == [] && d.buckets == map[]
    ensures d.prototype == prototype
    ensures d.numWarmup == EffectiveNumWarmup(numWarmup)
  {
    Dispatcher(EffectiveNumWarmup(numWarmup), prototype, [], map[])
  }

  // ---------------------------------------------------------------- register

  datatype RegisterError =
    | NotAKernel
    | ParamNotInPrototype(param: string)
    | ParamCountMismatch(got: nat, expected: nat)

  datatype Registered = Registered(d: Dispatcher, nextId: nat, kernel: Callable)

  /** The first parameter, in signature order, that the prototype lacks. */
  function FirstMissing(params: seq<string>, prototype: set<string>): (r: Option<string>)
    ensures r.None? <==> forall p :: p in params ==> p in prototype
    ensures r.Some? ==> exists i :: 0 <= i < |params| && params[i] == r.value && r.value !in prototype
                                     && forall j :: 0 <= j < i ==> params[j] in prototype
  {
    if |params| == 0 then None
    else if params[0] !in prototype then Some(params[0])
    else
      var rest := FirstMissing(params[1..], prototype);
      assert forall p :: p in params[1..] ==> p in params;
      assert forall p :: p in params ==> p == params[0] || p in params[1..];
      if rest.Some? then
        var i :| 0 <= i < |params[1..]| && params[1..][i] == rest.value && rest.value !in prototype
                 && forall j :: 0 <= j < i ==> params[1..][j] in prototype;
        assert params[i + 1] == rest.value;
        assert forall j :: 0 <= j < i + 1 ==> params[j] in prototype by {
          forall j | 0 <= j < i + 1
            ensures params[j] in prototype
          {
            if j > 0 {
              assert params[j] == params[1..][j - 1];
            }
          }
        }
        rest
      else
        rest
  }

  /** `register`'s decorator: reject a non-kernel, a parameter missing from
      the prototype, or a different parameter count; otherwise add a new
      candidate with the next global id and hand the kernel back unchanged. */
  function Register(d: Dispatcher, nextId: nat, kernel: Callable, hasPredicate: bool)
    : (r: Result<Registered, RegisterError>)
    ensures !kernel.isKernel ==> r == Err(NotAKernel)
    ensures r.Ok? ==> r.value.kernel == kernel
    ensures r.Ok? ==> r.value.d == d.(impls := d.impls + [Impl(nextId, kernel, hasPredicate)])
    ensures r.Ok? ==> r.value.nextId == nextId + 1
    ensures r.Err? && r.error.ParamNotInPrototype? ==>
              r.error.param in kernel.params && r.error.param !in d.prototype
    ensures r.Err? && r.error.ParamCountMismatch? ==>
              (forall p :: p in kernel.params ==> p in d.prototype) && |kernel.params| != |d.prototype|
  {
    if !kernel.isKernel then Err(NotAKernel)
    else
      match FirstMissing(kernel.params, d.prototype)
      case Some(p) => Err(ParamNotInPrototype(p))
      case None =>
        if |kernel.params| != |d.prototype| then
          Err(ParamCountMismatch(|kernel.params|, |d.prototype|))
        else
          Ok(Registered(d.(impls := d.impls + [Impl(nextId, kernel, hasPredicate)]), nextId + 1, kernel))
  }

  predicate Distinct<T(==)>(s: seq<T>) {
    forall i, j :: 0 <= i < j < |s| ==> s[i] != s[j]
  }

  lemma {:induction false} DistinctSeqCard<T>(s: seq<T>)
    requires Distinct(s)
    ensures |set x | x in s| == |s|
  {
    if |s| > 0 {
      var tail := s[1..];
      assert Distinct(tail) by {
        forall i, j | 0 <= i < j < |tail|
          ensures tail[i] != tail[j]
        {
          assert tail[i] == s[i + 1] && tail[j] == s[j + 1];
        }
      }
      DistinctSeqCard(tail);
      var st := set x | x in tail;
      var ss := set x | x in s;
      assert s[0] !in st;
      assert ss == st + {s[0]} by {
        forall x
          ensures x in ss <==> x in st + {s[0]}
        {
          if x in s && x != s[0] {
            var k :| 0 <= k < |s| && s[k] == x;
            assert tail[k - 1] == x;
          }
        }
      }
    }
  }

  /** Registration accepts exactly the kernels whose parameter names are
      the prototype's names (in any order): the name check gives inclusion,
      the count check gives equality. Python signatures have distinct names. */
  lemma RegisterAcceptsIffSameParams(d: Dispatcher, nextId: nat, kernel: Callable, hasPredicate: bool)
    requires Distinct(kernel.params)
    ensures Register(d, nextId, kernel, hasPredicate).Ok? <==>
              kernel.isKernel && (set p | p in kernel.params) == d.prototype
  {
    var names := set p | p in kernel.params;
    DistinctSeqCard(kernel.params);
    if kernel.isKernel && names <= d.prototype && |kernel.params| == |d.prototype| {
      assert |d.prototype - names| == |d.prototype| - |names|;
      assert d.prototype - names == {};
      assert names == d.prototype;
    }
    if kernel.isKernel && names == d.prototype {
      assert forall p :: p in kernel.params ==> p in d.prototype;
    }
  }

  /** Ids of registered candidates are strictly increasing and below the
      global counter. */
  predicate IdsOrdered(impls: seq<Impl>, nextId: nat) {
    IdsIncreasing(impls) && forall i :: 0 <= i < |impls| ==> impls[i].id < nextId
  }

  predicate IdsIncreasing(impls: seq<Impl>) {
    forall i, j :: 0 <= i < j < |impls| ==> impls[i].id < impls[j].id
  }

  lemma RegisterKeepsIdsOrdered(d: Dispatcher, nextId: nat, kernel: Callable, hasPredicate: bool)
    requires IdsOrdered(d.impls, nextId)
    ensures var r := Register(d, nextId, kernel, hasPredicate);
            r.Ok? ==> IdsOrdered(r.value.d.impls, r.value.nextId)
  {
  }

  // ------------------------------------------------------------ compatible

  /** The candidate is eligible for a call: no predicate, or the predicate
      accepts this call's arguments. */
  predicate Eligible(x: Impl, accepts: nat -> bool) {
    !x.hasPredicate || accepts(x.id)
  }

  /** `_get_compatible_kernels`, listed in registration order. */
  function Compatible(impls: seq<Impl>, accepts: nat -> bool): (c: seq<Impl>)
    ensures forall x :: x in c <==> x in impls && Eligible(x, accepts)
    ensures |c| <= |impls|
  {
    if |impls| == 0 then []
    else
      var rest := Compatible(impls[1..], accepts);
      assert forall x :: x in impls <==> x == impls[0] || x in impls[1..];
      if Eligible(impls[0], accepts) then [impls[0]] + rest else rest
  }

  lemma {:induction false} CompatibleKeepsIdOrder(impls: seq<Impl>, accepts: nat -> bool)
    requires IdsIncreasing(impls)
    ensures IdsIncreasing(Compatible(impls, accepts))
  {
    if |impls| > 0 {
      var tail := impls[1..];
      assert IdsIncreasing(tail) by {
        forall i, j | 0 <= i < j < |tail|
          ensures tail[i].id < tail[j].id
        {
          assert tail[i] == impls[i + 1] && tail[j] == impls[j + 1];
        }
      }
      CompatibleKeepsIdOrder(tail, accepts);
      var rest := Compatible(tail, accepts);
      if Eligible(impls[0], accepts) {
        var c := [impls[0]] + rest;
        forall i, j | 0 <= i < j < |c|
          ensures c[i].id < c[j].id
        {
          if i == 0 {
            assert c[j] == rest[j - 1] && rest[j - 1] in rest;
            assert c[j] in tail;
            var k :| 0 <= k < |tail| && tail[k] == c[j];
            assert tail[k] == impls[k + 1];
            assert impls[0].id < impls[k + 1].id;
            assert c[i] == impls[0];
          } else {
            assert c[i] == rest[i - 1] && c[j] == rest[j - 1];
          }
        }
      }
    }
  }

  // ---------------------------------------------------------- least tried

  /** A candidate's trial count in a bucket (`.get(dispatch_impl, 0)`). */
  function Count(trials: map<nat, nat>, id: nat): nat {
    if id in trials then trials[id] else 0
  }

  /** The scan of `_get_next_dispatch_impl` from position `k`, with `best` the
      index kept so far; a later candidate replaces it only when strictly
      less tried. */
  function LeastTriedFrom(c: seq<Impl>, trials: map<nat, nat>, k: nat, best: nat): (i: nat)
    requires best < k <= |c|
    requires forall j :: 0 <= j < k ==> Count(trials, c[best].id) <= Count(trials, c[j].id)
    requires forall j :: 0 <= j < best ==> Count(trials, c[best].id) < Count(trials, c[j].id)
    ensures i < |c|
    ensures forall j :: 0 <= j < |c| ==> Count(trials, c[i].id) <= Count(trials, c[j].id)
    ensures forall j :: 0 <= j < i ==> Count(trials, c[i].id) < Count(trials, c[j].id)
    decreases |c| - k
  {
    if k == |c| then best
    else if Count(trials, c[k].id) < Count(trials, c[best].id) then LeastTriedFrom(c, trials, k + 1, k)
    else LeastTriedFrom(c, trials, k + 1, best)
  }

  /** `_get_next_dispatch_impl`: the first candidate, in iteration order,
      with the fewest trials for the bucket. */
  function LeastTried(c: seq<Impl>, trials: map<nat, nat>): (i: nat)
    requires |c| > 0
    ensures i < |c|
    ensures forall j :: 0 <= j < |c| ==> Count(trials, c[i].id) <= Count(trials, c[j].id)
    ensures forall j :: 0 <= j < i ==> Count(trials, c[i].id) < Count(trials, c[j].id)
  {
    LeastTriedFrom(c, trials, 1, 0)
  }

  // -------------------------------------------------------------- samples

  /** `_finished_trials`: the minimum trial count over the candidates tried
      in the bucket is at least `num_warmup + 1`. */
  predicate Finished(trials: map<nat, nat>, numWarmup: int) {
    |trials| > 0 && forall id :: id in trials ==> trials[id] >= numWarmup + 1
  }

  function Samples(times: map<nat, seq<nat>>, id: nat): seq<nat> {
    if id in times then times[id] else []
  }

  predicate HasSamples(times: map<nat, seq<nat>>, x: Impl) {
    |Samples(times, x.id)| > 0
  }

  /** Python's `<` on lists, the order `_update_fastest` sorts sample lists
      by: the first differing element decides, and a proper prefix comes
      first. */
  predicate ListLt(a: seq<nat>, b: seq<nat>)
    decreases |a|
  {
    if |a| == 0 then |b| > 0
    else if |b| == 0 then false
    else a[0] < b[0] || (a[0] == b[0] && ListLt(a[1..], b[1..]))
  }

  predicate ListLe(a: seq<nat>, b: seq<nat>) {
    a == b || ListLt(a, b)
  }

  lemma {:induction false} ListLtIrreflexive(a: seq<nat>)
    ensures !ListLt(a, a)
    decreases |a|
  {
    if |a| > 0 {
      ListLtIrreflexive(a[1..]);
    }
  }

  lemma {:induction false} ListLtTransitive(a: seq<nat>, b: seq<nat>, c: seq<nat>)
    requires ListLt(a, b) && ListLt(b, c)
    ensures ListLt(a, c)
    decreases |a|
  {
    if |a| > 0 && |b| > 0 && |c| > 0 && a[0] == b[0] == c[0] {
      ListLtTransitive(a[1..], b[1..], c[1..]);
    }
  }

  /** Any two different lists are ordered one way or the other. */
  lemma {:induction false} ListLtTotal(a: seq<nat>, b: seq<nat>)
    ensures a == b || ListLt(a, b) || ListLt(b, a)
    decreases |a|
  {
    if |a| > 0 && |b| > 0 && a[0] == b[0] {
      ListLtTotal(a[1..], b[1..]);
      if a[1..] == b[1..] {
        assert a == [a[0]] + a[1..] && b == [b[0]] + b[1..];
      }
    }
  }

  /** The first candidate from position `k` on that has retained samples. */
  function FirstSampled(c: seq<Impl>, times: map<nat, seq<nat>>, k: nat): (i: nat)
    requires k <= |c| && exists j :: k <= j < |c| && HasSamples(times, c[j])
    ensures k <= i < |c| && HasSamples(times, c[i])
    ensures forall j :: k <= j < i ==> !HasSamples(times, c[j])
    decreases |c| - k
  {
    if HasSamples(times, c[k]) then k else FirstSampled(c, times, k + 1)
  }

  /** The stable sort's scan from position `k`; `best` is the index kept so
      far, the first candidate before `k` whose sample list no sampled
      candidate before `k` beats. */
  function FastestFrom(c: seq<Impl>, times: map<nat, seq<nat>>, k: nat, best: nat): (i: nat)
    requires best < k <= |c| && HasSamples(times, c[best])
    requires forall j :: 0 <= j < k && HasSamples(times, c[j]) ==>
               ListLe(Samples(times, c[best].id), Samples(times, c[j].id))
    requires forall j :: 0 <= j < best && HasSamples(times, c[j]) ==>
               ListLt(Samples(times, c[best].id), Samples(times, c[j].id))
    ensures i < |c| && HasSamples(times, c[i])
    ensures forall j :: 0 <= j < |c| && HasSamples(times, c[j]) ==>
              ListLe(Samples(times, c[i].id), Samples(times, c[j].id))
    ensures forall j :: 0 <= j < i && HasSamples(times, c[j]) ==>
              ListLt(Samples(times, c[i].id), Samples(times, c[j].id))
    decreases |c| - k
  {
    if k == |c| then best
    else if HasSamples(times, c[k]) && ListLt(Samples(times, c[k].id), Samples(times, c[best].id)) then
      NewFastest(c, times, k, best);
      FastestFrom(c, times, k + 1, k)
    else
      KeepFastest(c, times, k, best);
      FastestFrom(c, times, k + 1, best)
  }

  /** A candidate that beats the best so far beats every sampled one before it. */
  lemma NewFastest(c: seq<Impl>, times: map<nat, seq<nat>>, k: nat, best: nat)
    requires best < k < |c| && HasSamples(times, c[best]) && HasSamples(times, c[k])
    requires forall j :: 0 <= j < k && HasSamples(times, c[j]) ==>
               ListLe(Samples(times, c[best].id), Samples(times, c[j].id))
    requires ListLt(Samples(times, c[k].id), Samples(times, c[best].id))
    ensures forall j :: 0 <= j < k + 1 && HasSamples(times, c[j]) ==>
              ListLe(Samples(times, c[k].id), Samples(times, c[j].id))
    ensures forall j :: 0 <= j < k && HasSamples(times, c[j]) ==>
              ListLt(Samples(times, c[k].id), Samples(times, c[j].id))
  {
    var sk, sb := Samples(times, c[k].id), Samples(times, c[best].id);
    forall j | 0 <= j < k && HasSamples(times, c[j])
      ensures ListLt(sk, Samples(times, c[j].id))
    {
      if sb != Samples(times, c[j].id) {
        ListLtTransitive(sk, sb, Samples(times, c[j].id));
      }
    }
  }

  /** A candidate that does not beat the best so far sorts no earlier. */
  lemma KeepFastest(c: seq<Impl>, times: map<nat, seq<nat>>, k: nat, best: nat)
    requires best < k < |c| && HasSamples(times, c[best])
    requires forall j :: 0 <= j < k && HasSamples(times, c[j]) ==>
               ListLe(Samples(times, c[best].id), Samples(times, c[j].id))
    requires !(HasSamples(times, c[k]) && ListLt(Samples(times, c[k].id), Samples(times, c[best].id)))
    ensures forall j :: 0 <= j < k + 1 && HasSamples(times, c[j]) ==>
              ListLe(Samples(times, c[best].id), Samples(times, c[j].id))
  {
    if HasSamples(times, c[k]) {
      ListLtTotal(Samples(times, c[best].id), Samples(times, c[k].id));
    }
  }

  /** `_update_fastest`: the candidate whose retained sample list comes
      first in Python's list order, ties to the earliest. */
  function FastestIndex(c: seq<Impl>, times: map<nat, seq<nat>>): (i: nat)
    requires exists j :: 0 <= j < |c| && HasSamples(times, c[j])
    ensures i < |c| && HasSamples(times, c[i])
    ensures forall j :: 0 <= j < |c| && HasSamples(times, c[j]) ==>
              ListLe(Samples(times, c[i].id), Samples(times, c[j].id))
    ensures forall j :: 0 <= j < i && HasSamples(times, c[j]) ==>
              ListLt(Samples(times, c[i].id), Samples(times, c[j].id))
  {
    var first := FirstSampled(c, times, 0);
    FastestFrom(c, times, first + 1, first)
  }

  // ------------------------------------------------------------------ call

  datatype Event = Sync | Run(id: nat)

  datatype CallError = NoSuitableKernels

  /** The outcome of one call: the new dispatcher, the candidate whose result
      is returned, and the barriers and invocations issued, in order. */
  datatype Step = Step(d: Dispatcher, ran: Impl, events: seq<Event>)

  predicate ConvergedAt(d: Dispatcher, g: int) {
    g in d.buckets && d.buckets[g].Converged?
  }

  /** The state of bucket `g` (an untouched bucket is exploring with
      nothing recorded, like the source's `defaultdict`s). */
  function BucketOf(d: Dispatcher, g: int): Bucket {
    if g in d.buckets then d.buckets[g] else Exploring(map[], map[])
  }

  /** One timed trial of an exploring bucket with at least two compatible
      candidates (lines 168-183): run a least-tried candidate, count the
      trial, retain the sample once the count reaches `num_warmup`, and
      converge once every tried candidate has `num_warmup + 1` trials. The
      code as written stores the candidate of the converging call
      (`pickFastest == false`); the corrected rule stores the candidate
      `_update_fastest` picks from every registered candidate `impls` with
      samples in the bucket, compatible with this call or not. */
  function Explore(trials: map<nat, nat>, times: map<nat, seq<nat>>, impls: seq<Impl>, c: seq<Impl>,
                   elapsed: nat, numWarmup: int, pickFastest: bool): (r: (Bucket, Impl))
    requires |c| >= 2 && forall x :: x in c ==> x in impls
    ensures r.1 == c[LeastTried(c, trials)]
    ensures var (next, ran) := r;
            var n := Count(trials, ran.id) + 1;
            && (next.Converged? <==> Finished(trials[ran.id := n], numWarmup))
            && (next.Exploring? ==> next.trials == trials[ran.id := n])
            && (next.Exploring? ==> next.times == Retain(times, ran.id, elapsed, n, numWarmup))
            && (next.Converged? && !pickFastest ==> next.choice == ran)
            && (next.Converged? && pickFastest ==> next.choice in impls)
  {
    var i := LeastTried(c, trials);
    var ran := c[i];
    var n := Count(trials, ran.id) + 1;
    var trials' := trials[ran.id := n];
    var times' := Retain(times, ran.id, elapsed, n, numWarmup);
    if Finished(trials', numWarmup) then
      assert ran.id in trials';
      (Converged(Choice(impls, times', ran, pickFastest)), ran)
    else
      (Exploring(trials', times'), ran)
  }

  /** The samples after a candidate's `n`-th trial: its elapsed time is
      kept from trial `num_warmup` on. */
  function Retain(times: map<nat, seq<nat>>, id: nat, elapsed: nat, n: nat, numWarmup: int)
    : (r: map<nat, seq<nat>>)
    ensures n >= numWarmup ==> r == times[id := Samples(times, id) + [elapsed]] && |Samples(r, id)| > 0
    ensures n < numWarmup ==> r == times
  {
    if n >= numWarmup then times[id := Samples(times, id) + [elapsed]] else times
  }

  /** The candidate a converging bucket stores: the one just run, or under
      the corrected rule the one `_update_fastest` picks among the
      registered candidates `impls` with samples in the bucket (the keys of
      `_times_by_dispatch_impl_by_geometry_hash[geometry_hash]`, each of
      which has at least one sample). */
  function Choice(impls: seq<Impl>, times: map<nat, seq<nat>>, ran: Impl, pickFastest: bool): (x: Impl)
    requires ran in impls && HasSamples(times, ran)
    ensures !pickFastest ==> x == ran
    ensures pickFastest ==> x in impls && HasSamples(times, x)
    ensures pickFastest ==> forall j :: 0 <= j < |impls| && HasSamples(times, impls[j]) ==>
                              ListLe(Samples(times, x.id), Samples(times, impls[j].id))
  {
    if pickFastest then impls[FastestIndex(impls, times)] else ran
  }

  /** `PerformanceDispatcher.__call__`, parameterised by the convergence
      rule (`pickFastest == false` is the code as written). */
  function CallUsing(d: Dispatcher, g: int, accepts: nat -> bool, elapsed: nat, pickFastest: bool)
    : (r: Result<Step, CallError>)
    ensures r.Err? <==> !ConvergedAt(d, g) && |Compatible(d.impls, accepts)| == 0
    ensures ConvergedAt(d, g) ==>
              r == Ok(Step(d, d.buckets[g].choice, [Run(d.buckets[g].choice.id)]))
    ensures r.Ok? ==> r.value.d.impls == d.impls && r.value.d.numWarmup == d.numWarmup
                      && r.value.d.prototype == d.prototype
    ensures r.Ok? ==> g in r.value.d.buckets
    ensures r.Ok? && !ConvergedAt(d, g) ==> r.value.ran in Compatible(d.impls, accepts)
    ensures r.Ok? && !ConvergedAt(d, g) && |Compatible(d.impls, accepts)| == 1 ==>
              r.value.events == [Run(r.value.ran.id)] && ConvergedAt(r.value.d, g)
              && r.value.d.buckets[g].choice == r.value.ran
    ensures r.Ok? && !ConvergedAt(d, g) && |Compatible(d.impls, accepts)| >= 2 ==>
              r.value.events == [Sync, Run(r.value.ran.id), Sync]
  {
    match BucketOf(d, g)
    case Converged(choice) => Ok(Step(d, choice, [Run(choice.id)]))
    case Exploring(trials, times) =>
      var c := Compatible(d.impls, accepts);
      if |c| == 0 then Err(NoSuitableKernels)
      else if |c| == 1 then
        Ok(Step(d.(buckets := d.buckets[g := Converged(c[0])]), c[0], [Run(c[0].id)]))
      else
        var (next, ran) := Explore(trials, times, d.impls, c, elapsed, d.numWarmup, pickFastest);
        Ok(Step(d.(buckets := d.buckets[g := next]), ran, [Sync, Run(ran.id), Sync]))
  }

  /** A call touches only its own bucket: every other geometry keeps its
      state, and no bucket appears or disappears except `g`'s. */
  lemma CallLeavesOtherBuckets(d: Dispatcher, g: int, accepts: nat -> bool, elapsed: nat, pickFastest: bool)
    requires CallUsing(d, g, accepts, elapsed, pickFastest).Ok?
    ensures var d' := CallUsing(d, g, accepts, elapsed, pickFastest).value.d;
            && (forall h :: h != g ==> (h in d'.buckets <==> h in d.buckets))
            && (forall h :: h in d.buckets && h != g ==> d'.buckets[h] == d.buckets[h])
  {
  }

  /** The dispatcher exactly as written. */
  function Call(d: Dispatcher, g: int, accepts: nat -> bool, elapsed: nat): Result<Step, CallError> {
    CallUsing(d, g, accepts, elapsed, false)
  }

  /** The dispatcher with the corrected convergence rule. */
  function CallIntended(d: Dispatcher, g: int, accepts: nat -> bool, elapsed: nat): Result<Step, CallError> {
    CallUsing(d, g, accepts, elapsed, true)
  }
}

module PerfDispatchProperties {
  import opened Results
  import opened PerfDispatch

  // ------------------------------------------------ sequences of calls

  /** A run of calls to bucket `g` with the same compatibility verdicts
      `accepts`, the clock reporting `times[i]` for the i-th call; it
      collects every call's step. */
  function Drive(d: Dispatcher, g: int, accepts: nat -> bool, times: seq<nat>, pickFastest: bool)
    : (r: Result<seq<Step>, CallError>)
    ensures r.Ok? ==> |r.value| == |times|
    decreases |times|
  {
    if |times| == 0 then Ok([])
    else
      match CallUsing(d, g, accepts, times[0], pickFastest)
      case Err(e) => Err(e)
      case Ok(st) =>
        match Drive(st.d, g, accepts, times[1..], pickFastest)
        case Err(e) => Err(e)
        case Ok(rest) => Ok([st] + rest)
  }

  /** The dispatcher after a run of steps. */
  function Final(d: Dispatcher, steps: seq<Step>): Dispatcher {
    if |steps| == 0 then d else steps[|steps| - 1].d
  }

  /** A converged bucket never explores again: every later call succeeds,
      invokes the stored candidate directly with no barrier, and leaves the
      dispatcher unchanged. */
  lemma {:induction false} ConvergedIsTerminal(d: Dispatcher, g: int, accepts: nat -> bool, times: seq<nat>, pickFastest: bool)
    requires ConvergedAt(d, g)
    ensures Drive(d, g, accepts, times, pickFastest).Ok?
    ensures var steps := Drive(d, g, accepts, times, pickFastest).value;
            forall i :: 0 <= i < |steps| ==>
              && steps[i].d == d
              && steps[i].ran == d.buckets[g].choice
              && steps[i].events == [Run(d.buckets[g].choice.id)]
    decreases |times|
  {
    if |times| > 0 {
      var st := CallUsing(d, g, accepts, times[0], pickFastest).value;
      assert st.d == d;
      ConvergedIsTerminal(d, g, accepts, times[1..], pickFastest);
      var rest := Drive(d, g, accepts, times[1..], pickFastest).value;
      var steps := Drive(d, g, accepts, times, pickFastest).value;
      assert steps == [st] + rest;
      forall i | 0 <= i < |steps|
        ensures steps[i].d == d && steps[i].ran == d.buckets[g].choice
                && steps[i].events == [Run(d.buckets[g].choice.id)]
      {
        if i > 0 {
          assert steps[i] == rest[i - 1];
        }
      }
    }
  }

  // ------------------------------------------------ balance of trials

  function IdSet(c: seq<Impl>): set<nat> {
    set x | x in c :: x.id
  }

  /** Trial counts over a set of candidates differ by at most one. */
  ghost predicate Balanced(trials: map<nat, nat>, ids: set<nat>) {
    forall a, b :: a in ids && b in ids ==> Count(trials, a) <= Count(trials, b) + 1
  }

  /** What an exploring bucket keeps while every call sees the same
      compatible candidates `ids`: only those were tried, their counts are
      balanced, and the bucket has not finished its trials. */
  ghost predicate ExploreInv(trials: map<nat, nat>, ids: set<nat>, numWarmup: int) {
    trials.Keys <= ids && Balanced(trials, ids) && !Finished(trials, numWarmup)
  }

  /** While exploring, no candidate has more than `num_warmup + 1` trials. */
  lemma InvBoundsCounts(trials: map<nat, nat>, ids: set<nat>, numWarmup: int)
    requires numWarmup >= 1
    requires ExploreInv(trials, ids, numWarmup)
    ensures forall x :: x in ids ==> Count(trials, x) <= numWarmup + 1
  {
    if |trials| > 0 {
      var k :| k in trials && trials[k] < numWarmup + 1;
      assert Count(trials, k) < numWarmup + 1;
    } else {
      forall x | x in ids
        ensures Count(trials, x) <= numWarmup + 1
      {
        assert x !in trials;
      }
    }
  }

  /** One more trial of a least-tried candidate keeps the counts balanced. */
  lemma BumpKeepsBalanced(trials: map<nat, nat>, ids: set<nat>, rid: nat)
    requires Balanced(trials, ids)
    requires rid in ids && forall x :: x in ids ==> Count(trials, rid) <= Count(trials, x)
    ensures Balanced(trials[rid := Count(trials, rid) + 1], ids)
  {
    var t' := trials[rid := Count(trials, rid) + 1];
    assert forall x :: x != rid ==> Count(t', x) == Count(trials, x);
  }

  /** A least-tried candidate of an unfinished bucket has fewer than
      `num_warmup + 1` trials, so one more keeps every count within it. */
  lemma BumpStaysBounded(trials: map<nat, nat>, ids: set<nat>, rid: nat, numWarmup: int)
    requires numWarmup >= 1
    requires ExploreInv(trials, ids, numWarmup)
    requires rid in ids && forall x :: x in ids ==> Count(trials, rid) <= Count(trials, x)
    ensures forall x :: x in ids ==> Count(trials[rid := Count(trials, rid) + 1], x) <= numWarmup + 1
  {
    var t' := trials[rid := Count(trials, rid) + 1];
    assert forall x :: x != rid ==> Count(t', x) == Count(trials, x);
    InvBoundsCounts(trials, ids, numWarmup);
    if |trials| > 0 {
      var k :| k in trials && trials[k] < numWarmup + 1;
      assert k in ids && Count(trials, k) == trials[k];
    } else {
      assert Count(trials, rid) == 0;
    }
  }

  /** After one more trial of a least-tried candidate, the trials are
      finished exactly when every candidate has `num_warmup + 1` of them. */
  lemma BumpFinishesWhenAllReach(trials: map<nat, nat>, ids: set<nat>, rid: nat, numWarmup: int)
    requires numWarmup >= 1 && trials.Keys <= ids
    requires rid in ids && forall x :: x in ids ==> Count(trials, rid) <= Count(trials, x)
    ensures var t' := trials[rid := Count(trials, rid) + 1];
            Finished(t', numWarmup) <==> forall x :: x in ids ==> Count(t', x) >= numWarmup + 1
  {
    var t' := trials[rid := Count(trials, rid) + 1];
    assert rid in t' && Count(t', rid) == t'[rid];
    if Finished(t', numWarmup) {
      forall x | x in ids
        ensures Count(t', x) >= numWarmup + 1
      {
        if x != rid {
          assert Count(t', x) == Count(trials, x) >= Count(trials, rid) >= numWarmup;
          assert x in t';
        }
      }
    }
  }

  /** One more trial of a least-tried candidate keeps the counts balanced
      and bounded by `num_warmup + 1`; the trials are then finished exactly
      when every candidate has reached that bound. */
  lemma BumpLeastTried(trials: map<nat, nat>, ids: set<nat>, rid: nat, numWarmup: int)
    requires numWarmup >= 1
    requires ExploreInv(trials, ids, numWarmup)
    requires rid in ids && forall x :: x in ids ==> Count(trials, rid) <= Count(trials, x)
    ensures var t' := trials[rid := Count(trials, rid) + 1];
            && t'.Keys <= ids
            && Balanced(t', ids)
            && (forall x :: x in ids ==> Count(t', x) <= numWarmup + 1)
            && (Finished(t', numWarmup) <==> forall x :: x in ids ==> Count(t', x) >= numWarmup + 1)
  {
    BumpKeepsBalanced(trials, ids, rid);
    BumpStaysBounded(trials, ids, rid, numWarmup);
    BumpFinishesWhenAllReach(trials, ids, rid, numWarmup);
  }

  /** One exploring call keeps the trial counts balanced and bounded, and
      converges exactly when every compatible candidate has reached
      `num_warmup + 1` trials. */
  lemma ExploreKeepsBalance(trials: map<nat, nat>, times: map<nat, seq<nat>>, impls: seq<Impl>, c: seq<Impl>,
                            elapsed: nat, numWarmup: int, pickFastest: bool)
    requires |c| >= 2 && numWarmup >= 1 && forall x :: x in c ==> x in impls
    requires ExploreInv(trials, IdSet(c), numWarmup)
    ensures var (next, ran) := Explore(trials, times, impls, c, elapsed, numWarmup, pickFastest);
            var t' := trials[ran.id := Count(trials, ran.id) + 1];
            && ran.id in IdSet(c)
            && Balanced(t', IdSet(c))
            && (forall x :: x in IdSet(c) ==> Count(t', x) <= numWarmup + 1)
            && (next.Converged? <==> forall x :: x in IdSet(c) ==> Count(t', x) >= numWarmup + 1)
            && (next.Exploring? ==> next.trials == t' && ExploreInv(t', IdSet(c), numWarmup))
  {
    var ran := Explore(trials, times, impls, c, elapsed, numWarmup, pickFastest).1;
    LeastTriedOverIds(c, trials);
    BumpLeastTried(trials, IdSet(c), ran.id, numWarmup);
  }

  /** The least-tried candidate, seen through candidate ids. */
  lemma LeastTriedOverIds(c: seq<Impl>, trials: map<nat, nat>)
    requires |c| > 0
    ensures var ran := c[LeastTried(c, trials)];
            ran.id in IdSet(c) && forall x :: x in IdSet(c) ==> Count(trials, ran.id) <= Count(trials, x)
  {
    var ran := c[LeastTried(c, trials)];
    forall x | x in IdSet(c)
      ensures Count(trials, ran.id) <= Count(trials, x)
    {
      var y :| y in c && y.id == x;
    }
  }

  // ------------------------------------------------ exploration is bounded

  /** The total number of trials recorded for the candidates `c`. */
  function SumCounts(c: seq<Impl>, trials: map<nat, nat>): nat {
    if |c| == 0 then 0 else Count(trials, c[0].id) + SumCounts(c[1..], trials)
  }

  /** With no trials recorded the total is zero. */
  lemma {:induction false} SumCountsNone(c: seq<Impl>)
    ensures SumCounts(c, map[]) == 0
  {
    if |c| > 0 {
      SumCountsNone(c[1..]);
    }
  }

  lemma {:induction false} SumCountsOther(c: seq<Impl>, trials: map<nat, nat>, id: nat, v: nat)
    requires id !in IdSet(c)
    ensures SumCounts(c, trials[id := v]) == SumCounts(c, trials)
  {
    if |c| > 0 {
      assert IdSet(c[1..]) <= IdSet(c);
      SumCountsOther(c[1..], trials, id, v);
    }
  }

  /** Counting one more trial of a candidate adds exactly one to the total. */
  lemma {:induction false} SumCountsIncrement(c: seq<Impl>, trials: map<nat, nat>, id: nat)
    requires IdsIncreasing(c) && id in IdSet(c)
    ensures SumCounts(c, trials[id := Count(trials, id) + 1]) == SumCounts(c, trials) + 1
  {
    var tail := c[1..];
    assert IdsIncreasing(tail) by {
      forall i, j | 0 <= i < j < |tail|
        ensures tail[i].id < tail[j].id
      {
        assert tail[i] == c[i + 1] && tail[j] == c[j + 1];
      }
    }
    if c[0].id == id {
      forall y | y in tail
        ensures y.id != id
      {
        var k :| 0 <= k < |tail| && tail[k] == y;
        assert c[k + 1] == y;
      }
      SumCountsOther(tail, trials, id, Count(trials, id) + 1);
    } else {
      var y :| y in c && y.id == id;
      assert y in tail;
      SumCountsIncrement(tail, trials, id);
    }
  }

  /** The number of calls exploration over candidates `c` takes: each one
      is tried `num_warmup + 1` times. */
  function TrialBudget(c: seq<Impl>, numWarmup: int): int {
    if |c| == 0 then 0 else numWarmup + 1 + TrialBudget(c[1..], numWarmup)
  }

  lemma {:induction false} TrialBudgetIsProduct(c: seq<Impl>, numWarmup: int)
    ensures TrialBudget(c, numWarmup) == |c| * (numWarmup + 1)
  {
    if |c| > 0 {
      TrialBudgetIsProduct(c[1..], numWarmup);
    }
  }

  lemma {:induction false} SumCountsAtMost(c: seq<Impl>, trials: map<nat, nat>, numWarmup: int)
    requires forall x :: x in IdSet(c) ==> Count(trials, x) <= numWarmup + 1
    ensures SumCounts(c, trials) <= TrialBudget(c, numWarmup)
    ensures (exists x :: x in IdSet(c) && Count(trials, x) < numWarmup + 1) ==>
              SumCounts(c, trials) < TrialBudget(c, numWarmup)
  {
    if |c| > 0 {
      assert IdSet(c[1..]) <= IdSet(c);
      SumCountsAtMost(c[1..], trials, numWarmup);
      assert c[0].id in IdSet(c);
      if exists x :: x in IdSet(c) && Count(trials, x) < numWarmup + 1 {
        var x :| x in IdSet(c) && Count(trials, x) < numWarmup + 1;
        if x != c[0].id {
          var y :| y in c && y.id == x;
          assert y in c[1..];
        }
      }
    }
  }

  lemma {:induction false} SumCountsAtLeast(c: seq<Impl>, trials: map<nat, nat>, numWarmup: int)
    requires forall x :: x in IdSet(c) ==> Count(trials, x) >= numWarmup + 1
    ensures SumCounts(c, trials) >= TrialBudget(c, numWarmup)
  {
    if |c| > 0 {
      assert IdSet(c[1..]) <= IdSet(c);
      SumCountsAtLeast(c[1..], trials, numWarmup);
      assert c[0].id in IdSet(c);
    }
  }

  /** A call to an exploring bucket with at least two compatible
      candidates is one exploration step stored back into that bucket. */
  lemma CallExplores(d: Dispatcher, g: int, accepts: nat -> bool, elapsed: nat, pickFastest: bool)
    requires !ConvergedAt(d, g) && |Compatible(d.impls, accepts)| >= 2
    ensures var b := BucketOf(d, g);
            var r := Explore(b.trials, b.times, d.impls, Compatible(d.impls, accepts), elapsed,
                             d.numWarmup, pickFastest);
            CallUsing(d, g, accepts, elapsed, pickFastest)
              == Ok(Step(d.(buckets := d.buckets[g := r.0]), r.1, [Sync, Run(r.1.id), Sync]))
  {
  }

  /** An exploring bucket has recorded fewer than `|c| * (num_warmup + 1)`
      trials of its candidates `c`. */
  lemma ExploringBelowBound(trials: map<nat, nat>, c: seq<Impl>, numWarmup: int)
    requires |c| >= 1 && numWarmup >= 1
    requires ExploreInv(trials, IdSet(c), numWarmup)
    ensures SumCounts(c, trials) < TrialBudget(c, numWarmup)
  {
    var bound := numWarmup + 1;
    InvBoundsCounts(trials, IdSet(c), numWarmup);
    if |trials| > 0 {
      var k :| k in trials && trials[k] < bound;
      assert k in IdSet(c) && Count(trials, k) < bound;
    } else {
      assert c[0] in c && Count(trials, c[0].id) == 0;
    }
    SumCountsAtMost(c, trials, numWarmup);
  }

  /** One more trial of a least-tried candidate of an exploring bucket
      either finishes the trials, having brought the total to
      `|c| * (num_warmup + 1)`, or keeps the invariant with one trial more;
      `next` is the bucket that results. */
  lemma BumpCounts(c: seq<Impl>, trials: map<nat, nat>, rid: nat, numWarmup: int, next: Bucket)
    requires IdsIncreasing(c) && numWarmup >= 1
    requires ExploreInv(trials, IdSet(c), numWarmup)
    requires rid in IdSet(c) && forall x :: x in IdSet(c) ==> Count(trials, rid) <= Count(trials, x)
    requires next.Converged? <==> Finished(trials[rid := Count(trials, rid) + 1], numWarmup)
    requires next.Exploring? ==> next.trials == trials[rid := Count(trials, rid) + 1]
    ensures next.Converged? ==> SumCounts(c, trials) + 1 == TrialBudget(c, numWarmup)
    ensures next.Exploring? ==>
              && ExploreInv(next.trials, IdSet(c), numWarmup)
              && SumCounts(c, next.trials) == SumCounts(c, trials) + 1
  {
    var t' := trials[rid := Count(trials, rid) + 1];
    BumpLeastTried(trials, IdSet(c), rid, numWarmup);
    SumCountsIncrement(c, trials, rid);
    SumCountsAtMost(c, t', numWarmup);
    if Finished(t', numWarmup) {
      SumCountsAtLeast(c, t', numWarmup);
    }
  }

  /** One exploration step over candidates `c`: it either converges, having
      brought the total number of trials to `|c| * (num_warmup + 1)`, or
      keeps exploring with one trial more. */
  lemma ExploreStepCounts(trials: map<nat, nat>, times: map<nat, seq<nat>>, impls: seq<Impl>, c: seq<Impl>,
                          elapsed: nat, numWarmup: int, pickFastest: bool)
    requires |c| >= 2 && IdsIncreasing(c) && numWarmup >= 1 && forall x :: x in c ==> x in impls
    requires ExploreInv(trials, IdSet(c), numWarmup)
    ensures var next := Explore(trials, times, impls, c, elapsed, numWarmup, pickFastest).0;
            && (next.Converged? ==> SumCounts(c, trials) + 1 == TrialBudget(c, numWarmup))
            && (next.Exploring? ==>
                  && ExploreInv(next.trials, IdSet(c), numWarmup)
                  && SumCounts(c, next.trials) == SumCounts(c, trials) + 1)
  {
    var r := Explore(trials, times, impls, c, elapsed, numWarmup, pickFastest);
    LeastTriedOverIds(c, trials);
    BumpCounts(c, trials, r.1.id, numWarmup, r.0);
  }

  /** Bucket `g` is exploring, every call sees the same compatible
      candidates `c` (at least two, in increasing id order), and the
      exploration invariant holds. */
  ghost predicate ExploringWith(d: Dispatcher, g: int, accepts: nat -> bool, c: seq<Impl>) {
    && c == Compatible(d.impls, accepts)
    && |c| >= 2 && IdsIncreasing(c) && d.numWarmup >= 1
    && !ConvergedAt(d, g)
    && ExploreInv(BucketOf(d, g).trials, IdSet(c), d.numWarmup)
  }

  /** The same step seen through a call to the dispatcher. */
  lemma ExploreCallStep(d: Dispatcher, g: int, accepts: nat -> bool, elapsed: nat, c: seq<Impl>, pickFastest: bool)
    requires ExploringWith(d, g, accepts, c)
    ensures CallUsing(d, g, accepts, elapsed, pickFastest).Ok?
    ensures var d' := CallUsing(d, g, accepts, elapsed, pickFastest).value.d;
            var sum := SumCounts(c, BucketOf(d, g).trials);
            && (ConvergedAt(d', g) ==> sum + 1 == TrialBudget(c, d.numWarmup))
            && (!ConvergedAt(d', g) ==>
                  && ExploringWith(d', g, accepts, c)
                  && SumCounts(c, BucketOf(d', g).trials) == sum + 1)
  {
    var b := BucketOf(d, g);
    var r := Explore(b.trials, b.times, d.impls, c, elapsed, d.numWarmup, pickFastest);
    CallExplores(d, g, accepts, elapsed, pickFastest);
    var d' := d.(buckets := d.buckets[g := r.0]);
    assert CallUsing(d, g, accepts, elapsed, pickFastest).value.d == d';
    assert BucketOf(d', g) == r.0;
    assert ConvergedAt(d', g) == r.0.Converged?;
    ExploreStepCounts(b.trials, b.times, d.impls, c, elapsed, d.numWarmup, pickFastest);
  }

  /** A run's first call, then the rest of the run from its result. */
  lemma DriveFirst(d: Dispatcher, g: int, accepts: nat -> bool, times: seq<nat>, pickFastest: bool)
    requires |times| > 0
    requires CallUsing(d, g, accepts, times[0], pickFastest).Ok?
    ensures var d1 := CallUsing(d, g, accepts, times[0], pickFastest).value.d;
            && (Drive(d, g, accepts, times, pickFastest).Ok? <==> Drive(d1, g, accepts, times[1..], pickFastest).Ok?)
            && (Drive(d, g, accepts, times, pickFastest).Ok? ==>
                  Final(d, Drive(d, g, accepts, times, pickFastest).value)
                    == Final(d1, Drive(d1, g, accepts, times[1..], pickFastest).value))
  {
    var st := CallUsing(d, g, accepts, times[0], pickFastest).value;
    var rest := Drive(st.d, g, accepts, times[1..], pickFastest);
    assert Drive(d, g, accepts, times, pickFastest)
           == if rest.Ok? then Ok([st] + rest.value) else Err(rest.error);
    if rest.Ok? && |rest.value| > 0 {
      var steps := [st] + rest.value;
      assert steps[|steps| - 1] == rest.value[|rest.value| - 1];
    }
  }

  /** A converged bucket is still converged at the end of any run. */
  lemma StaysConverged(d: Dispatcher, g: int, accepts: nat -> bool, times: seq<nat>, pickFastest: bool)
    requires ConvergedAt(d, g)
    ensures Drive(d, g, accepts, times, pickFastest).Ok?
    ensures ConvergedAt(Final(d, Drive(d, g, accepts, times, pickFastest).value), g)
  {
    ConvergedIsTerminal(d, g, accepts, times, pickFastest);
  }

  /** With the same compatible candidates `c` (at least two) on every call,
      an exploring bucket converges exactly on the call that brings the
      total number of trials to `|c| * (num_warmup + 1)`, and stays
      converged from then on. */
  lemma {:induction false} ExplorationEndsExactly(d: Dispatcher, g: int, accepts: nat -> bool, times: seq<nat>,
                                                  c: seq<Impl>, pickFastest: bool)
    requires ExploringWith(d, g, accepts, c)
    ensures Drive(d, g, accepts, times, pickFastest).Ok?
    ensures ConvergedAt(Final(d, Drive(d, g, accepts, times, pickFastest).value), g) <==>
              SumCounts(c, BucketOf(d, g).trials) + |times| >= TrialBudget(c, d.numWarmup)
    decreases |times|
  {
    var sum := SumCounts(c, BucketOf(d, g).trials);
    var budget := TrialBudget(c, d.numWarmup);
    if |times| == 0 {
      ExploringBelowBound(BucketOf(d, g).trials, c, d.numWarmup);
    } else {
      var tail := times[1..];
      ExploreCallStep(d, g, accepts, times[0], c, pickFastest);
      var d1 := CallUsing(d, g, accepts, times[0], pickFastest).value.d;
      DriveFirst(d, g, accepts, times, pickFastest);
      if ConvergedAt(d1, g) {
        assert sum + 1 == budget;
        StaysConverged(d1, g, accepts, tail, pickFastest);
      } else {
        assert SumCounts(c, BucketOf(d1, g).trials) == sum + 1;
        ExplorationEndsExactly(d1, g, accepts, tail, c, pickFastest);
      }
    }
  }

  /** A fresh bucket whose calls all see the same `k >= 2` compatible
      candidates converges on call number `TrialBudget`, which is
      `k * (num_warmup + 1)` (`TrialBudgetIsProduct`), and not before: with
      two candidates and the default warm-up, the sixth call.  Registration
      keeps the candidates in increasing id order. */
  lemma FreshBucketConvergesAfterExactly(d: Dispatcher, g: int, accepts: nat -> bool, times: seq<nat>,
                                         pickFastest: bool)
    requires IdsIncreasing(d.impls) && d.numWarmup >= 1
    requires |Compatible(d.impls, accepts)| >= 2
    requires g !in d.buckets
    ensures Drive(d, g, accepts, times, pickFastest).Ok?
    ensures ConvergedAt(Final(d, Drive(d, g, accepts, times, pickFastest).value), g) <==>
              |times| >= TrialBudget(Compatible(d.impls, accepts), d.numWarmup)
  {
    var c := Compatible(d.impls, accepts);
    FreshExploring(d, g, accepts);
    SumCountsNone(c);
    ExplorationEndsExactly(d, g, accepts, times, c, pickFastest);
  }

  /** A fresh bucket is exploring with nothing recorded. */
  lemma FreshExploring(d: Dispatcher, g: int, accepts: nat -> bool)
    requires IdsIncreasing(d.impls) && d.numWarmup >= 1
    requires |Compatible(d.impls, accepts)| >= 2
    requires g !in d.buckets
    ensures ExploringWith(d, g, accepts, Compatible(d.impls, accepts))
    ensures BucketOf(d, g).trials == map[]
  {
    CompatibleKeepsIdOrder(d.impls, accepts);
  }

  // ------------------------------------------------ the convergence rule

  /** Two registered candidates with no compatibility predicate, ids 1 and
      2, under the default warm-up of two calls. */
  function TwoCandidates(): Dispatcher {
    var k := Callable("impl", true, []);
    Dispatcher(DefaultNumWarmup, {}, [Impl(1, k, false), Impl(2, k, false)], map[])
  }

  /** The two-candidate dispatcher with bucket 0 exploring. */
  function TwoExploring(trials: map<nat, nat>, times: map<nat, seq<nat>>): Dispatcher {
    TwoCandidates().(buckets := map[0 := Exploring(trials, times)])
  }

  /** Neither candidate has a predicate, so both are always compatible. */
  lemma BothCompatible(accepts: nat -> bool)
    ensures Compatible(TwoCandidates().impls, accepts) == TwoCandidates().impls
  {
    var c := TwoCandidates().impls;
    assert Compatible(c[1..], accepts) == [c[1]];
  }

  /** An exploration step over the two candidates that runs candidate `i`
      (the first least-tried one) without finishing the trials. */
  lemma TwoCandidatesExploreStep(trials: map<nat, nat>, times: map<nat, seq<nat>>, elapsed: nat, i: nat,
                                 pickFastest: bool, trials': map<nat, nat>, times': map<nat, seq<nat>>)
    requires i < 2
    requires var c := TwoCandidates().impls;
             && (forall j :: 0 <= j < 2 ==> Count(trials, c[i].id) <= Count(trials, c[j].id))
             && (forall j :: 0 <= j < i ==> Count(trials, c[i].id) < Count(trials, c[j].id))
             && trials' == trials[c[i].id := Count(trials, c[i].id) + 1]
             && times' == if trials'[c[i].id] >= 2 then times[c[i].id := Samples(times, c[i].id) + [elapsed]]
                          else times
    requires !Finished(trials', 2)
    ensures Explore(trials, times, TwoCandidates().impls, TwoCandidates().impls, elapsed, 2, pickFastest)
              == (Exploring(trials', times'), TwoCandidates().impls[i])
  {
    var c := TwoCandidates().impls;
    var k := LeastTried(c, trials);
    assert !(k < i) && !(i < k);
  }

  /** The same step through a call to the dispatcher, leading to `next`. */
  lemma TwoCandidatesExplore(d: Dispatcher, trials: map<nat, nat>, times: map<nat, seq<nat>>,
                             accepts: nat -> bool, elapsed: nat, i: nat, pickFastest: bool,
                             trials': map<nat, nat>, times': map<nat, seq<nat>>)
    requires d.impls == TwoCandidates().impls && d.numWarmup == 2 && d.buckets.Keys <= {0}
    requires BucketOf(d, 0) == Exploring(trials, times) && i < 2
    requires Explore(trials, times, TwoCandidates().impls, TwoCandidates().impls, elapsed, 2, pickFastest)
               == (Exploring(trials', times'), TwoCandidates().impls[i])
    ensures CallUsing(d, 0, accepts, elapsed, pickFastest).Ok?
    ensures CallUsing(d, 0, accepts, elapsed, pickFastest).value.d
              == d.(buckets := map[0 := Exploring(trials', times')])
  {
    BothCompatible(accepts);
    CallExplores(d, 0, accepts, elapsed, pickFastest);
    assert d.buckets[0 := Exploring(trials', times')] == map[0 := Exploring(trials', times')];
  }

  /** The successive states of five calls alternating between the
      candidates, candidate 1 taking one time unit and candidate 2 ten. */
  function State(k: nat): Dispatcher
    requires 1 <= k <= 5
  {
    match k
    case 1 => TwoExploring(map[1 := 1], map[])
    case 2 => TwoExploring(map[1 := 1, 2 := 1], map[])
    case 3 => TwoExploring(map[1 := 2, 2 := 1], map[1 := [1]])
    case 4 => TwoExploring(map[1 := 2, 2 := 2], map[1 := [1], 2 := [10]])
    case 5 => TwoExploring(map[1 := 3, 2 := 2], map[1 := [1, 1], 2 := [10]])
  }

  /** The first two calls run each candidate once, as warm-up: nothing is
      timed yet. */
  lemma WarmupCalls(accepts: nat -> bool, pickFastest: bool)
    ensures CallUsing(TwoCandidates(), 0, accepts, 1, pickFastest).value.d == State(1)
    ensures CallUsing(State(1), 0, accepts, 10, pickFastest).value.d == State(2)
  {
    TwoCandidatesExploreStep(map[], map[], 1, 0, pickFastest, map[1 := 1], map[]);
    TwoCandidatesExplore(TwoCandidates(), map[], map[], accepts, 1, 0, pickFastest, map[1 := 1], map[]);
    TwoCandidatesExploreStep(map[1 := 1], map[], 10, 1, pickFastest, map[1 := 1, 2 := 1], map[]);
    TwoCandidatesExplore(State(1), map[1 := 1], map[], accepts, 10, 1, pickFastest, map[1 := 1, 2 := 1], map[]);
  }

  /** The third call runs candidate 1 again; its time is the first kept. */
  lemma ThirdCall(accepts: nat -> bool, pickFastest: bool)
    ensures CallUsing(State(2), 0, accepts, 1, pickFastest).value.d == State(3)
  {
    var t2, t3, m3 := map[1 := 1, 2 := 1], map[1 := 2, 2 := 1], map[1 := [1]];
    assert [] + [1] == [1];
    TwoCandidatesExploreStep(t2, map[], 1, 0, pickFastest, t3, m3);
    TwoCandidatesExplore(State(2), t2, map[], accepts, 1, 0, pickFastest, t3, m3);
  }

  /** The fourth call runs candidate 2, whose time is kept too. */
  lemma FourthCall(accepts: nat -> bool, pickFastest: bool)
    ensures CallUsing(State(3), 0, accepts, 10, pickFastest).value.d == State(4)
  {
    var t3, t4 := map[1 := 2, 2 := 1], map[1 := 2, 2 := 2];
    var m3, m4 := map[1 := [1]], map[1 := [1], 2 := [10]];
    assert [] + [10] == [10];
    TwoCandidatesExploreStep(t3, m3, 10, 1, pickFastest, t4, m4);
    TwoCandidatesExplore(State(3), t3, m3, accepts, 10, 1, pickFastest, t4, m4);
  }

  /** The fifth call runs candidate 1 a third time; candidate 2 still lacks
      its third trial, so the bucket keeps exploring. */
  lemma FifthCall(accepts: nat -> bool, pickFastest: bool)
    ensures CallUsing(State(4), 0, accepts, 1, pickFastest).value.d == State(5)
  {
    var t4, t5 := map[1 := 2, 2 := 2], map[1 := 3, 2 := 2];
    var m4, m5 := map[1 := [1], 2 := [10]], map[1 := [1, 1], 2 := [10]];
    assert [1] + [1] == [1, 1] && m4[1 := [1, 1]] == m5;
    assert 2 in t5 && t5[2] < 3;
    TwoCandidatesExploreStep(t4, m4, 1, 0, pickFastest, t5, m5);
    TwoCandidatesExplore(State(4), t4, m4, accepts, 1, 0, pickFastest, t5, m5);
  }

  /** The sixth call finishes the trials. The code as written stores the
      candidate it has just run, candidate 2, the slower one; the corrected
      rule stores candidate 1, whose samples `[1, 1]` sort first. */
  lemma SixthCallConverges(accepts: nat -> bool, pickFastest: bool)
    ensures var d := State(5);
            var stored := if pickFastest then d.impls[0] else d.impls[1];
            CallUsing(d, 0, accepts, 10, pickFastest)
              == Ok(Step(d.(buckets := d.buckets[0 := Converged(stored)]), d.impls[1],
                         [Sync, Run(2), Sync]))
  {
    var d := State(5);
    var c := d.impls;
    BothCompatible(accepts);
    SixthExplore(pickFastest);
    assert BucketOf(d, 0) == Exploring(map[1 := 3, 2 := 2], map[1 := [1, 1], 2 := [10]]);
    CallExplores(d, 0, accepts, 10, pickFastest);
  }

  /** The exploration step of the sixth call: candidate 2 is the less tried
      one, and its third trial finishes the trials. */
  lemma SixthExplore(pickFastest: bool)
    ensures var c := TwoCandidates().impls;
            Explore(map[1 := 3, 2 := 2], map[1 := [1, 1], 2 := [10]], c, c, 10, 2, pickFastest)
              == (Converged(if pickFastest then c[0] else c[1]), c[1])
  {
    var c := TwoCandidates().impls;
    var trials := map[1 := 3, 2 := 2];
    var times := map[1 := [1, 1], 2 := [10]];
    var i := LeastTried(c, trials);
    assert Count(trials, c[1].id) < Count(trials, c[0].id);
    assert i == 1;
    var trials' := trials[2 := 3];
    var times' := times[2 := [10, 10]];
    assert Samples(times, 2) + [10] == [10, 10];
    assert Retain(times, 2, 10, 3, 2) == times';
    assert Finished(trials', 2);
    var f := FastestIndex(c, times');
    assert ListLt(Samples(times', c[0].id), Samples(times', c[1].id));
    ListLtIrreflexive([10, 10]);
    assert f == 0;
  }

  /** What a converging exploration step stores, in terms of `Choice`. */
  lemma ExploreConvergedChoice(trials: map<nat, nat>, times: map<nat, seq<nat>>, impls: seq<Impl>, c: seq<Impl>,
                               elapsed: nat, numWarmup: int, pickFastest: bool)
    requires |c| >= 2 && forall x :: x in c ==> x in impls
    ensures var i := LeastTried(c, trials);
            var times' := Retain(times, c[i].id, elapsed, Count(trials, c[i].id) + 1, numWarmup);
            var next := Explore(trials, times, impls, c, elapsed, numWarmup, pickFastest).0;
            next.Converged? ==>
              && c[i] in impls && HasSamples(times', c[i])
              && next.choice == Choice(impls, times', c[i], pickFastest)
  {
    var i := LeastTried(c, trials);
    var n := Count(trials, c[i].id) + 1;
    if Finished(trials[c[i].id := n], numWarmup) {
      assert c[i].id in trials[c[i].id := n];
    }
  }

  /** `_update_fastest` sorts whole sample lists, so the first retained
      sample decides: `[2, 2]` beats `[5, 1]` although 1 is the smallest
      single sample. */
  lemma FirstSampleDecides(c: seq<Impl>, times: map<nat, seq<nat>>)
    requires |c| == 2
    requires Samples(times, c[0].id) == [5, 1] && Samples(times, c[1].id) == [2, 2]
    ensures FastestIndex(c, times) == 1
  {
    assert HasSamples(times, c[0]);
    assert ListLt([2, 2], [5, 1]);
  }

  /** Under the corrected rule a converging bucket stores a registered
      candidate with samples whose sample list sorts no later than that of
      any other registered candidate with samples in the bucket, the ran
      candidate's new sample included, whether or not that candidate is
      compatible with the converging call. */
  lemma IntendedStoresFastest(trials: map<nat, nat>, times: map<nat, seq<nat>>, impls: seq<Impl>, c: seq<Impl>,
                              elapsed: nat, numWarmup: int)
    requires |c| >= 2 && forall x :: x in c ==> x in impls
    ensures var (next, ran) := Explore(trials, times, impls, c, elapsed, numWarmup, true);
            var times' := Retain(times, ran.id, elapsed, Count(trials, ran.id) + 1, numWarmup);
            next.Converged? ==>
              && next.choice in impls
              && HasSamples(times', next.choice)
              && forall j :: 0 <= j < |impls| && HasSamples(times', impls[j]) ==>
                   ListLe(Samples(times', next.choice.id), Samples(times', impls[j].id))
  {
    ExploreConvergedChoice(trials, times, impls, c, elapsed, numWarmup, true);
  }

  /** Three registered candidates; the third has a predicate. */
  function ThreeImpls(): seq<Impl> {
    var k := Callable("impl", true, []);
    [Impl(1, k, false), Impl(2, k, false), Impl(3, k, true)]
  }

  /** A candidate that retained samples on earlier calls to the bucket but
      is not compatible with the converging call still takes part in
      `_update_fastest`'s sort: candidate 3, with samples `[1, 1]`, is
      stored under the corrected rule although this call accepts only
      candidates 1 and 2. */
  lemma IncompatibleSampledCandidateChosen(accepts: nat -> bool)
    requires !accepts(3)
    ensures var impls := ThreeImpls();
            var c := Compatible(impls, accepts);
            && c == impls[..2]
            && Explore(map[1 := 3, 2 := 2, 3 := 3], map[1 := [10, 10], 2 := [10], 3 := [1, 1]],
                       impls, c, 10, 2, true)
                 == (Converged(impls[2]), impls[1])
            && impls[2] !in c
  {
    var impls := ThreeImpls();
    var c := Compatible(impls, accepts);
    assert Compatible(impls[2..], accepts) == [];
    assert Compatible(impls[1..], accepts) == [impls[1]];
    assert c == impls[..2];
    var trials := map[1 := 3, 2 := 2, 3 := 3];
    var times := map[1 := [10, 10], 2 := [10], 3 := [1, 1]];
    var i := LeastTried(c, trials);
    assert Count(trials, c[1].id) < Count(trials, c[0].id);
    assert i == 1;
    var times' := times[2 := [10, 10]];
    assert Samples(times, 2) + [10] == [10, 10];
    assert Retain(times, 2, 10, 3, 2) == times';
    assert Finished(trials[2 := 3], 2);
    assert ListLt(Samples(times', impls[2].id), Samples(times', impls[0].id));
    assert ListLt(Samples(times', impls[2].id), Samples(times', impls[1].id));
    var f := FastestIndex(impls, times');
    assert f == 2;
  }

  /** Six calls from a fresh bucket alternating between a fast candidate
      (1, one time unit) and a slow one (2, ten units): the first five
      calls are the same under both rules; on the sixth the code as written
      converges on the slow candidate, the corrected rule on the fast one. */
  lemma ConvergesOnLastRunNotFastest(accepts: nat -> bool, pickFastest: bool)
    ensures CallUsing(TwoCandidates(), 0, accepts, 1, pickFastest).value.d == State(1)
    ensures CallUsing(State(1), 0, accepts, 10, pickFastest).value.d == State(2)
    ensures CallUsing(State(2), 0, accepts, 1, pickFastest).value.d == State(3)
    ensures CallUsing(State(3), 0, accepts, 10, pickFastest).value.d == State(4)
    ensures CallUsing(State(4), 0, accepts, 1, pickFastest).value.d == State(5)
    ensures CallUsing(State(5), 0, accepts, 10, pickFastest).value.d.buckets[0]
              == Converged(if pickFastest then TwoCandidates().impls[0] else TwoCandidates().impls[1])
  {
    WarmupCalls(accepts, pickFastest);
    ThirdCall(accepts, pickFastest);
    FourthCall(accepts, pickFastest);
    FifthCall(accepts, pickFastest);
    SixthCallConverges(accepts, pickFastest);
  }
}
